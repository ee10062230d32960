/** The `usermac` pre-authorization plugin of internal/plugins/usermac: a
    request passes when a file named `<user>.<mac>` (both cleaned) exists in
    the `users` directory under the library directory. Also holds what the
    legacy plugin of plugins/usermac shares with it: the cleaning, the key
    and the directory lookup. */
module Usermac {
  import opened Wrappers
  import opened Strings
  import opened Radius
  import opened Extension

  /** The characters `clean` keeps. */
  predicate Allowed(c: char) {
    ('a' <= c <= 'z') || ('0' <= c <= '9') || c == '.'
  }

  /** Go's `unicode.ToLower` as far as `clean` can observe it: ASCII capitals
      map to small letters, and the two non-ASCII code points whose
      lowercase form is ASCII (KELVIN SIGN and LATIN CAPITAL LETTER I WITH
      DOT ABOVE) map to `k` and `i`. Every other lowercase form is either
      the character itself or outside ASCII, so it is dropped either way. */
  function Lower(c: char): char {
    if 'A' <= c <= 'Z' then (c as int + 32) as char
    else if c == '\U{212A}' then 'k'
    else if c == '\U{0130}' then 'i'
    else c
  }

  /** `clean`: lowercase, then keep only letters, digits and dots. */
  function Clean(s: string): (r: string)
    ensures |r| <= |s|
    ensures forall i :: 0 <= i < |r| ==> Allowed(r[i])
  {
    if |s| == 0 then ""
    else (if Allowed(Lower(s[0])) then [Lower(s[0])] else []) + Clean(s[1..])
  }

  /** Cleaning distributes over concatenation. */
  lemma {:induction false} CleanConcat(a: string, b: string)
    ensures Clean(a + b) == Clean(a) + Clean(b)
    decreases |a|
  {
    if |a| > 0 {
      var head := if Allowed(Lower(a[0])) then [Lower(a[0])] else [];
      assert (a + b)[0] == a[0] && (a + b)[1..] == a[1..] + b;
      CleanConcat(a[1..], b);
      assert Clean(a + b) == head + Clean(a[1..] + b);
      assert Clean(a) == head + Clean(a[1..]);
    } else {
      assert a + b == b;
    }
  }

  /** A string is left unchanged by cleaning exactly when it consists of
      allowed characters only. */
  lemma {:induction false} CleanFixedPoints(s: string)
    ensures Clean(s) == s <==> forall i :: 0 <= i < |s| ==> Allowed(s[i])
    decreases |s|
  {
    if |s| > 0 {
      CleanFixedPoints(s[1..]);
      if Allowed(s[0]) {
        assert Lower(s[0]) == s[0];
        assert Clean(s) == [s[0]] + Clean(s[1..]);
        assert s == [s[0]] + s[1..];
        if forall i :: 0 <= i < |s[1..]| ==> Allowed(s[1..][i]) {
          assert Clean(s) == s;
        } else {
          var i :| 0 <= i < |s[1..]| && !Allowed(s[1..][i]);
          assert !Allowed(s[i + 1]);
          assert Clean(s) != s;
        }
      }
    }
  }

  /** Cleaning is idempotent. */
  lemma CleanIdempotent(s: string)
    ensures Clean(Clean(s)) == Clean(s)
  {
    CleanFixedPoints(Clean(s));
  }

  /** The file name of a user/device pair: `<user>.<mac>` after cleaning
      both. */
  function UserMacKey(user: string, calling: string): (k: string)
    ensures |k| == |Clean(user)| + 1 + |Clean(calling)|
    ensures k[..|Clean(user)|] == Clean(user) && k[|Clean(user)|] == '.'
    ensures k[|Clean(user)| + 1..] == Clean(calling)
  {
    Clean(user) + "." + Clean(calling)
  }

  /** A key consists of allowed characters, so it never holds a path
      separator; the only keys a path join treats specially are "." and
      "..", and they arise exactly from parts that clean to nothing or to a
      lone dot. */
  lemma KeyShape(user: string, calling: string)
    ensures forall i :: 0 <= i < |UserMacKey(user, calling)| ==> Allowed(UserMacKey(user, calling)[i])
    ensures '/' !in UserMacKey(user, calling)
    ensures UserMacKey(user, calling) == "." <==> Clean(user) == "" && Clean(calling) == ""
    ensures UserMacKey(user, calling) == ".." <==>
              (Clean(user) == "." && Clean(calling) == "") || (Clean(user) == "" && Clean(calling) == ".")
  {
    var k := UserMacKey(user, calling);
    var u, c := Clean(user), Clean(calling);
    assert k[|u|] == '.';
    assert forall i :: 0 <= i < |k| ==> Allowed(k[i]) && k[i] != '/';
    if k == ".." {
      if |u| == 0 {
        assert c == k[1..];
      } else {
        assert |u| == 1 && u == k[..1];
      }
    }
  }

  /** The `users` directory as the lookup sees it: whether it and its parent
      exist, and the names it lists (a listing never has "." or ".."). */
  datatype UsersDir = UsersDir(present: bool, parentPresent: bool, entries: set<string>)

  predicate WellFormed(dir: UsersDir) {
    && "." !in dir.entries && ".." !in dir.entries
    && (|dir.entries| > 0 ==> dir.present)
    && (dir.present ==> dir.parentPresent)
  }

  /** `core.PathExists(filepath.Join(db, key))` as the source writes it:
      the join cleans the path, so key "." names the users directory itself
      and ".." its parent, and both exist. */
  function PathExistsAsWritten(dir: UsersDir, key: string): (r: bool)
    ensures r <==> UserFileExists(dir, key) || (key == "." && dir.present) || (key == ".." && dir.parentPresent)
  {
    if key == "." then dir.present
    else if key == ".." then dir.parentPresent
    else key in dir.entries
  }

  /** The intended lookup: the key names a file listed in the directory. */
  function UserFileExists(dir: UsersDir, key: string): (r: bool)
    ensures r ==> key != "." && key != ".."
  {
    key != "." && key != ".." && key in dir.entries
  }

  /** On every key other than "." and "..", the two lookups agree. */
  lemma LookupsAgreeOnFileNames(dir: UsersDir, key: string)
    requires WellFormed(dir)
    ensures key != "." && key != ".." ==> PathExistsAsWritten(dir, key) == UserFileExists(dir, key)
    ensures UserFileExists(dir, key) <==> key in dir.entries
  {
  }

  /** Which lookup a check uses. */
  datatype Lookup = AsWritten | Corrected

  function Found(dir: UsersDir, key: string, lookup: Lookup): bool {
    match lookup
    case AsWritten => PathExistsAsWritten(dir, key)
    case Corrected => UserFileExists(dir, key)
  }

  datatype UserMacError = NoUserName | NoCallingStationId | FailedPreauth(user: string, calling: string)

  /** The NAS identifier recorded for a packet: cleaned, or "unknown". */
  function NasName(p: RadiusPacket): (r: string)
    ensures |r| > 0
    ensures |Clean(p.nasIdentifier.GetOr(""))| == 0 ==> r == "unknown"
    ensures |Clean(p.nasIdentifier.GetOr(""))| > 0 ==> r == Clean(p.nasIdentifier.GetOr(""))
  {
    var nas := Clean(p.nasIdentifier.GetOr(""));
    if |nas| == 0 then "unknown" else nas
  }

  /** `mark`: the audit record of one decision, as ordered key/value
      pairs. */
  function MarkStore(success: bool, user: string, calling: string, p: ClientPacket): (kv: KeyValueStore)
    requires p.packet.Some?
    ensures !kv.dropEmpty && |kv.keyValues| == 7
    ensures kv.keyValues[0] == KeyValue("Result", if success then "PASSED" else "FAILED")
    ensures kv.keyValues[1] == KeyValue("User-Name", user)
    ensures kv.keyValues[2] == KeyValue("Calling-Station-Id", calling)
    ensures kv.keyValues[3] == KeyValue("NAS-Id", NasName(p.packet.value))
    ensures kv.keyValues[4].key == "NAS-IPAddress"
    ensures kv.keyValues[5].key == "NAS-Port"
    ensures kv.keyValues[6].key == "Id"
  {
    var pkt := p.packet.value;
    var nasip :=
      if pkt.nasIpAddress.Some? then pkt.nasIpAddress.value
      else if p.clientAddr.Some? then p.clientAddr.value.host
      else "noip";
    KeyValueStore([], false)
      .Add("Result", if success then "PASSED" else "FAILED")
      .Add("User-Name", user)
      .Add("Calling-Station-Id", calling)
      .Add("NAS-Id", NasName(pkt))
      .Add("NAS-IPAddress", nasip)
      .Add("NAS-Port", NatToString(pkt.nasPort.GetOr(0)))
      .Add("Id", NatToString(pkt.identifier))
  }

  /** The numeric fields of an audit record read back as the packet's NAS
      port (0 when absent) and identifier, and the address field is the
      NAS-IP-Address, else the sender's host, else "noip". */
  lemma MarkFieldsReadBack(success: bool, user: string, calling: string, p: ClientPacket)
    requires p.packet.Some?
    ensures DecimalValue(MarkStore(success, user, calling, p).keyValues[5].value) == p.packet.value.nasPort.GetOr(0)
    ensures DecimalValue(MarkStore(success, user, calling, p).keyValues[6].value) == p.packet.value.identifier
    ensures MarkStore(success, user, calling, p).keyValues[4].value
            == if p.packet.value.nasIpAddress.Some? then p.packet.value.nasIpAddress.value
               else if p.clientAddr.Some? then p.clientAddr.value.host else "noip"
  {
    DecimalRoundTrip(p.packet.value.nasPort.GetOr(0));
    DecimalRoundTrip(p.packet.value.identifier);
  }

  /** The outcome of `checkUserMac`: the error (if any) and the audit
      record it marks (when both attributes were present). */
  datatype CheckResult = CheckResult(failure: Option<UserMacError>, mark: Option<KeyValueStore>)

  /** `checkUserMac` with the given directory lookup. */
  function CheckUserMac(p: ClientPacket, dir: UsersDir, lookup: Lookup): (r: CheckResult)
    requires p.packet.Some?
    ensures p.packet.value.userName.None? ==> r == CheckResult(Some(NoUserName), None)
    ensures p.packet.value.userName.Some? && p.packet.value.callingStationId.None? ==>
              r == CheckResult(Some(NoCallingStationId), None)
    ensures p.packet.value.userName.Some? && p.packet.value.callingStationId.Some? ==>
              var user, calling := p.packet.value.userName.value, p.packet.value.callingStationId.value;
              && (r.failure.None? <==> Found(dir, UserMacKey(user, calling), lookup))
              && (r.failure.Some? ==> r.failure.value == FailedPreauth(Clean(user), Clean(calling)))
              && r.mark == Some(MarkStore(r.failure.None?, Clean(user), Clean(calling), p))
  {
    var pkt := p.packet.value;
    match pkt.userName
    case None => CheckResult(Some(NoUserName), None)
    case Some(username) =>
      match pkt.callingStationId
      case None => CheckResult(Some(NoCallingStationId), None)
      case Some(calling) =>
        var user, mac := Clean(username), Clean(calling);
        var fqdn := user + "." + mac;
        var res := Found(dir, fqdn, lookup);
        var failure := if !res then Some(FailedPreauth(user, mac)) else None;
        CheckResult(failure, Some(MarkStore(res, user, mac, p)))
  }

  /** `Pre` with the corrected lookup: a request passes exactly when both
      attributes are present and the users directory lists the cleaned
      `<user>.<mac>` name. */
  function Pre(p: ClientPacket, dir: UsersDir): (ok: bool)
    requires p.packet.Some?
    ensures ok <==>
              && p.packet.value.userName.Some? && p.packet.value.callingStationId.Some?
              && UserFileExists(dir, UserMacKey(p.packet.value.userName.value, p.packet.value.callingStationId.value))
  {
    CheckUserMac(p, dir, Corrected).failure.None?
  }

  /** `Pre` as the source writes it. */
  function PreAsWritten(p: ClientPacket, dir: UsersDir): (ok: bool)
    requires p.packet.Some?
    ensures ok <==>
              && p.packet.value.userName.Some? && p.packet.value.callingStationId.Some?
              && PathExistsAsWritten(dir, UserMacKey(p.packet.value.userName.value, p.packet.value.callingStationId.value))
  {
    CheckUserMac(p, dir, AsWritten).failure.None?
  }

  /** A packet carrying the given user name and calling station. */
  function Request(user: string, calling: string): (p: ClientPacket)
    ensures p.packet.Some?
  {
    ClientPacket([], None, Some(RadiusPacket(0, None, Some(user), Some(calling), None, None, None)), None)
  }

  /** As written, a user name and calling station that both clean to nothing
      pass pre-authorization against a users directory that lists no file at
      all: the key "." joins to the directory itself. The corrected lookup
      refuses it. */
  lemma DotKeyPassesAsWritten()
    ensures PreAsWritten(Request("!", "!"), UsersDir(true, true, {}))
    ensures !Pre(Request("!", "!"), UsersDir(true, true, {}))
  {
    assert Clean("!") == "";
    assert UserMacKey("!", "!") == ".";
  }

  /** Likewise a user name cleaning to a lone dot and an empty calling
      station give the key "..", the directory's parent. */
  lemma DotDotKeyPassesAsWritten()
    ensures PreAsWritten(Request(".", ""), UsersDir(true, true, {}))
    ensures !Pre(Request(".", ""), UsersDir(true, true, {}))
  {
    assert Clean(".") == ".";
    assert UserMacKey(".", "") == "..";
  }

  /** The corrected plugin admits a request only on a file the directory
      lists, and agrees with the source on every request whose key is a
      plain file name. */
  lemma PreAdmitsOnlyListedPairs(p: ClientPacket, dir: UsersDir)
    requires p.packet.Some? && WellFormed(dir)
    ensures Pre(p, dir) ==>
              UserMacKey(p.packet.value.userName.value, p.packet.value.callingStationId.value) in dir.entries
    ensures (&& p.packet.value.userName.Some? && p.packet.value.callingStationId.Some?
             && UserMacKey(p.packet.value.userName.value, p.packet.value.callingStationId.value) != "."
             && UserMacKey(p.packet.value.userName.value, p.packet.value.callingStationId.value) != "..")
            ==> Pre(p, dir) == PreAsWritten(p, dir)
  {
  }

  /** The decision depends only on the cleaned attributes: case and
      punctuation (such as MAC separators) do not matter. */
  lemma PreSeesOnlyCleanedAttributes(p: ClientPacket, q: ClientPacket, dir: UsersDir)
    requires p.packet.Some? && q.packet.Some?
    requires p.packet.value.userName.Some? && q.packet.value.userName.Some?
    requires p.packet.value.callingStationId.Some? && q.packet.value.callingStationId.Some?
    requires Clean(p.packet.value.userName.value) == Clean(q.packet.value.userName.value)
    requires Clean(p.packet.value.callingStationId.value) == Clean(q.packet.value.callingStationId.value)
    ensures Pre(p, dir) == Pre(q, dir)
  {
  }

}
