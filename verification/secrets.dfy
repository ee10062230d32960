/** Shared-secret handling of the server context (internal/server/context.go):
    validating the secret a packet was decoded with against either the single
    localhost secret or the per-client prefix mappings, and parsing the
    line-oriented secret files those come from. */
module Secrets {
  import opened Wrappers
  import opened Strings
  import opened Radius

  /** The key of the single-secret file's line, and the wildcard mapping key. */
  const LocalKey: string := "127.0.0.1"
  const AllKey: string := "0.0.0.0"

  datatype SecretError =
    | NoPacketInformation
    | NoSecretInput
    | NoClientAddr
    | MatchesNoSecrets
    | DoesNotMatchSharedSecret

  /** A mapping key applies to a host when it is a literal textual prefix of
      the host (not a subnet test) or it is the wildcard. */
  predicate KeyApplies(key: string, host: string) {
    HasPrefix(host, key) || key == AllKey
  }

  /** Some mapping entry that applies to `host` holds exactly `given`. */
  predicate MappingAccepts(secrets: map<string, Bytes>, host: string, given: Bytes) {
    exists k :: k in secrets && KeyApplies(k, host) && secrets[k] == given
  }

  /** When a packet's secret is accepted: it must carry one; with mappings
      loaded the sender must be known and some applicable entry must hold
      that secret; without mappings it must equal the single secret,
      whoever sent it. */
  predicate SecretAccepted(secret: Bytes, secrets: map<string, Bytes>, p: ClientPacket) {
    && p.packet.Some?
    && p.packet.value.secret.Some?
    && if |secrets| > 0 then
         p.clientAddr.Some?
         && MappingAccepts(secrets, p.clientAddr.value.host, p.packet.value.secret.value)
       else
         p.packet.value.secret.value == secret
  }

  /** The loop over the mapping in Go's unspecified map order: it stops at
      the first applicable entry holding the secret. Whatever order the keys
      are visited in, the answer is the order-free `MappingAccepts`. */
  method ScanSecrets(secrets: map<string, Bytes>, host: string, given: Bytes) returns (good: bool)
    ensures good <==> MappingAccepts(secrets, host, given)
  {
    good := false;
    var pending := secrets.Keys;
    while pending != {}
      invariant pending <= secrets.Keys
      invariant forall k :: k in secrets && k !in pending ==> !(KeyApplies(k, host) && secrets[k] == given)
      decreases pending
    {
      var k :| k in pending;
      if HasPrefix(host, k) || k == AllKey {
        if secrets[k] == given {
          good := true;
          break;
        }
      }
      pending := pending - {k};
    }
  }

  /** `Context.checkSecret`: succeeds exactly when the secret is accepted,
      and names the first missing piece otherwise. */
  method CheckSecret(secret: Bytes, secrets: map<string, Bytes>, p: ClientPacket)
    returns (r: Result<(), SecretError>)
    ensures r.Success? <==> SecretAccepted(secret, secrets, p)
    ensures r == Failure(NoPacketInformation) <==> p.packet.None?
    ensures r == Failure(NoSecretInput) <==> p.packet.Some? && p.packet.value.secret.None?
    ensures r == Failure(NoClientAddr) <==>
              p.packet.Some? && p.packet.value.secret.Some? && |secrets| > 0 && p.clientAddr.None?
    ensures r == Failure(MatchesNoSecrets) ==> |secrets| > 0
    ensures r == Failure(DoesNotMatchSharedSecret) ==> |secrets| == 0
  {
    if p.packet.None? {
      return Failure(NoPacketInformation);
    }
    var inSecret := p.packet.value.secret;
    if inSecret.None? {
      return Failure(NoSecretInput);
    }
    if |secrets| > 0 {
      if p.clientAddr.None? {
        return Failure(NoClientAddr);
      }
      var ip := p.clientAddr.value.host;
      var good := ScanSecrets(secrets, ip, inSecret.value);
      if !good {
        return Failure(MatchesNoSecrets);
      }
    } else {
      if secret != inSecret.value {
        return Failure(DoesNotMatchSharedSecret);
      }
    }
    return Success(());
  }

  /** Without mappings the sender's address plays no part. */
  lemma SingleModeIgnoresAddress(secret: Bytes, p: ClientPacket, addr: Option<Addr>)
    ensures SecretAccepted(secret, map[], p) == SecretAccepted(secret, map[], p.(clientAddr := addr))
  {
  }

  /** With mappings the single secret plays no part. */
  lemma MappingModeIgnoresSingleSecret(a: Bytes, b: Bytes, secrets: map<string, Bytes>, p: ClientPacket)
    requires |secrets| > 0
    ensures SecretAccepted(a, secrets, p) == SecretAccepted(b, secrets, p)
  {
  }

  /** A wildcard entry accepts its secret from every known sender. */
  lemma WildcardAcceptsAnyHost(secret: Bytes, secrets: map<string, Bytes>, p: ClientPacket)
    requires AllKey in secrets
    requires p.packet.Some? && p.packet.value.secret == Some(secrets[AllKey])
    requires p.clientAddr.Some?
    ensures SecretAccepted(secret, secrets, p)
  {
    assert KeyApplies(AllKey, p.clientAddr.value.host);
  }

  /** Under a mapping, a secret is refused when no applicable entry holds it,
      even if another (non-applicable) entry does. */
  lemma NonApplicableEntryRefused(secret: Bytes, secrets: map<string, Bytes>, p: ClientPacket)
    requires |secrets| > 0 && p.clientAddr.Some?
    requires p.packet.Some? && p.packet.value.secret.Some?
    requires forall k :: k in secrets && secrets[k] == p.packet.value.secret.value
               ==> !KeyApplies(k, p.clientAddr.value.host)
    ensures !SecretAccepted(secret, secrets, p)
  {
  }

  /** A prefix entry and a wildcard: a sender under the prefix is accepted
      with the prefix's secret, any other sender only with the wildcard's. */
  lemma PrefixAndWildcard(a: Bytes, f: Bytes)
    requires a != f
    ensures MappingAccepts(map["10.0.0." := a, AllKey := f], "10.0.0.9", a)
    ensures MappingAccepts(map["10.0.0." := a, AllKey := f], "192.168.1.1", f)
    ensures !MappingAccepts(map["10.0.0." := a, AllKey := f], "192.168.1.1", a)
  {
    var m := map["10.0.0." := a, AllKey := f];
    assert KeyApplies("10.0.0.", "10.0.0.9");
    assert KeyApplies(AllKey, "192.168.1.1");
    assert "192.168.1.1"[0] == '1' && "192.168.1.1"[1] == '9' && "10.0.0."[1] == '0';
    assert !HasPrefix("192.168.1.1", "10.0.0.");
    assert m.Keys == {"10.0.0.", AllKey};
  }

  // ---------------------------------------------------------------------
  // Secret files: `<key> <secret words...>` lines, `#` lines ignored.

  datatype SecretFileError = NoSecretsFile | NoSecretsFound

  predicate IsComment(l: string) {
    HasPrefix(l, "#")
  }

  /** The key of a line: its first space-separated field. */
  function FirstField(l: string): string {
    Split(l, ' ')[0]
  }

  /** The secret of a line: the remaining fields re-joined and trimmed. */
  function SecretOf(l: string): string {
    TrimSpace(Join(Split(l, ' ')[1..], ' '))
  }

  /** The key is the text before the first space, and the secret is the
      trimmed text after it (empty for a line without a space). */
  lemma LineFields(l: string)
    ensures FirstField(l) == l[..IndexOf(l, ' ')]
    ensures SecretOf(l) == TrimSpace(if IndexOf(l, ' ') < |l| then l[IndexOf(l, ' ') + 1..] else "")
  {
    SplitAtFirst(l, ' ');
  }

  /** A line the mapping parser keeps. */
  predicate MappingLine(l: string) {
    !IsComment(l) && |SecretOf(l)| > 0
  }

  /** A line the single-secret parser accepts: it starts with the localhost
      key (textually, so `127.0.0.10 ...` counts too) and has a secret. */
  predicate LocalLine(l: string) {
    !IsComment(l) && HasPrefix(l, LocalKey) && |SecretOf(l)| > 0
  }

  /** No later kept line repeats line `i`'s key. */
  predicate LastForKey(lines: seq<string>, i: int)
    requires 0 <= i < |lines|
  {
    forall j :: i < j < |lines| && MappingLine(lines[j]) ==> FirstField(lines[j]) != FirstField(lines[i])
  }

  /** `m` maps exactly the keys of the kept lines, each to the secret of the
      last kept line with that key. */
  ghost predicate IsMappingOf(lines: seq<string>, m: map<string, string>) {
    KeysOf(lines, m) && LastWins(lines, m)
  }

  /** Line `i` is the first line the single-secret parser accepts. */
  predicate IsFirstLocal(lines: seq<string>, i: int) {
    0 <= i < |lines| && LocalLine(lines[i]) && forall j :: 0 <= j < i ==> !LocalLine(lines[j])
  }

  /** Some kept line of `lines` has key `k`. */
  ghost predicate Defines(lines: seq<string>, k: string) {
    exists i :: 0 <= i < |lines| && MappingLine(lines[i]) && FirstField(lines[i]) == k
  }

  /** The keys a mapping file defines. */
  ghost predicate KeysOf(lines: seq<string>, m: map<string, string>) {
    forall k :: k in m <==> Defines(lines, k)
  }

  lemma DefinesStep(lines: seq<string>, n: int, k: string)
    requires 0 <= n < |lines|
    ensures Defines(lines[..n + 1], k) <==>
              Defines(lines[..n], k) || (MappingLine(lines[n]) && FirstField(lines[n]) == k)
  {
    var pre, post := lines[..n], lines[..n + 1];
    if Defines(post, k) {
      var i :| 0 <= i < |post| && MappingLine(post[i]) && FirstField(post[i]) == k;
      if i < n {
        assert pre[i] == post[i];
      }
    }
    if Defines(pre, k) {
      var i :| 0 <= i < |pre| && MappingLine(pre[i]) && FirstField(pre[i]) == k;
      assert post[i] == pre[i];
    }
    if MappingLine(lines[n]) && FirstField(lines[n]) == k {
      assert post[n] == lines[n];
    }
  }

  /** Each key maps to the secret of its last kept line. */
  ghost predicate LastWins(lines: seq<string>, m: map<string, string>) {
    forall i :: 0 <= i < |lines| && MappingLine(lines[i]) && LastForKey(lines, i) ==>
      FirstField(lines[i]) in m && m[FirstField(lines[i])] == SecretOf(lines[i])
  }

  /** The map one more line turns `m` into. */
  function MappingAfter(l: string, m: map<string, string>): map<string, string> {
    if MappingLine(l) then m[FirstField(l) := SecretOf(l)] else m
  }

  lemma KeysStep(lines: seq<string>, n: int, m: map<string, string>)
    requires 0 <= n < |lines|
    requires KeysOf(lines[..n], m)
    ensures KeysOf(lines[..n + 1], MappingAfter(lines[n], m))
  {
    forall k {
      DefinesStep(lines, n, k);
    }
  }

  lemma LastWinsStep(lines: seq<string>, n: int, m: map<string, string>)
    requires 0 <= n < |lines|
    requires LastWins(lines[..n], m)
    ensures LastWins(lines[..n + 1], MappingAfter(lines[n], m))
  {
    var pre, post := lines[..n], lines[..n + 1];
    var m' := MappingAfter(lines[n], m);
    forall i | 0 <= i < |post| && MappingLine(post[i]) && LastForKey(post, i)
      ensures FirstField(post[i]) in m' && m'[FirstField(post[i])] == SecretOf(post[i])
    {
      if i < n {
        assert pre[i] == post[i];
        assert LastForKey(pre, i) by {
          forall j | i < j < |pre| && MappingLine(pre[j])
            ensures FirstField(pre[j]) != FirstField(pre[i])
          {
            assert pre[j] == post[j];
          }
        }
        if MappingLine(lines[n]) {
          assert post[n] == lines[n];
        }
      } else {
        assert post[i] == lines[n];
      }
    }
  }

  /** Processing one more line of a mapping file keeps `IsMappingOf`. */
  lemma MappingStep(lines: seq<string>, n: int, m: map<string, string>)
    requires 0 <= n < |lines|
    requires IsMappingOf(lines[..n], m)
    ensures IsMappingOf(lines[..n + 1], MappingAfter(lines[n], m))
  {
    KeysStep(lines, n, m);
    LastWinsStep(lines, n, m);
  }

  /** `parseSecretFromFile` over the file's lines (`None`: no such file).
      In mapping mode every kept line maps its key to its secret, later lines
      overwriting earlier ones. Otherwise only the first localhost line with
      a secret counts, and having none is an error. */
  method ParseSecretFromFile(file: Option<seq<string>>, mapping: bool)
    returns (r: Result<map<string, string>, SecretFileError>)
    ensures file.None? ==> r == Failure(NoSecretsFile)
    ensures file.Some? && mapping ==> r.Success? && IsMappingOf(file.value, r.value)
    ensures file.Some? && !mapping ==>
              (r.Success? <==> exists i :: 0 <= i < |file.value| && LocalLine(file.value[i]))
    ensures file.Some? && !mapping && r.Failure? ==> r.error == NoSecretsFound
    ensures file.Some? && !mapping && r.Success? ==>
              exists i :: IsFirstLocal(file.value, i) && r.value == map[LocalKey := SecretOf(file.value[i])]
  {
    if file.None? {
      return Failure(NoSecretsFile);
    }
    var lines := file.value;
    var found: map<string, string> := map[];
    var n := 0;
    while n < |lines|
      invariant 0 <= n <= |lines|
      invariant mapping ==> IsMappingOf(lines[..n], found)
      invariant !mapping ==> found == map[] && forall j :: 0 <= j < n ==> !LocalLine(lines[j])
    {
      var l := lines[n];
      if mapping {
        MappingStep(lines, n, found);
      }
      if HasPrefix(l, "#") {
        n := n + 1;
        continue;
      }
      if mapping || HasPrefix(l, LocalKey) {
        var parts := Split(l, ' ');
        var secret := TrimSpace(Join(parts[1..], ' '));
        if |secret| > 0 {
          if mapping {
            found := found[parts[0] := secret];
          } else {
            found := found[LocalKey := secret];
            assert IsFirstLocal(lines, n);
            break;
          }
        }
      }
      n := n + 1;
    }
    if mapping {
      assert lines[..n] == lines;
    }
    if |found| == 0 && !mapping {
      return Failure(NoSecretsFound);
    }
    return Success(found);
  }

  /** `parseSecretFile`: the single secret, from the first localhost line. */
  method ParseSecretFile(file: Option<seq<string>>) returns (r: Result<string, SecretFileError>)
    ensures file.None? ==> r == Failure(NoSecretsFile)
    ensures file.Some? ==> (r.Success? <==> exists i :: 0 <= i < |file.value| && LocalLine(file.value[i]))
    ensures r.Success? ==>
              && file.Some? && |r.value| > 0
              && exists i :: IsFirstLocal(file.value, i) && r.value == SecretOf(file.value[i])
  {
    var s := ParseSecretFromFile(file, false);
    if s.Failure? {
      return Failure(s.error);
    }
    return Success(s.value[LocalKey]);
  }

  /** `[]byte(s)`: the UTF-8 encoding of a string. */
  function Utf8(s: string): (b: Bytes)
    ensures |b| >= |s|
  {
    if |s| == 0 then []
    else
      var c := s[0] as int;
      var head: Bytes :=
        if c < 0x80 then [c]
        else if c < 0x800 then [0xC0 + c / 64, 0x80 + c % 64]
        else if c < 0x1_0000 then [0xE0 + c / 4096, 0x80 + (c / 64) % 64, 0x80 + c % 64]
        else [0xF0 + c / 262144, 0x80 + (c / 4096) % 64, 0x80 + (c / 64) % 64, 0x80 + c % 64];
      head + Utf8(s[1..])
  }

  /** `parseSecretMappings`: the mapping file's entries with their secrets as
      bytes. */
  method ParseSecretMappings(file: Option<seq<string>>)
    returns (r: Result<map<string, Bytes>, SecretFileError>)
    ensures file.None? ==> r == Failure(NoSecretsFile)
    ensures file.Some? ==> r.Success?
    ensures r.Success? ==> exists m :: IsMappingOf(file.value, m) && r.value == map k | k in m :: Utf8(m[k])
  {
    var mappings := ParseSecretFromFile(file, true);
    if mappings.Failure? {
      return Failure(mappings.error);
    }
    var m := mappings.value;
    return Success(map k | k in m :: Utf8(m[k]));
  }
}
