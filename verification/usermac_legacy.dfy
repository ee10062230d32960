/** The earlier `usermac` plugin of plugins/usermac: the same user/device
    file lookup, with a verdict cache that `Reload` empties, an audit file,
    and an optional external callback run for every fresh decision. The
    audit file's opening is a parameter (`auditOpens`), and the callback is
    recorded as the command it would run. */
module UsermacLegacy {
  import opened Wrappers
  import opened Strings
  import opened Radius
  import opened Usermac

  /** The plugin's globals after `Setup`. */
  datatype State = State(
    canCache: bool,
    cache: map<string, bool>,
    logs: string,
    instance: string,
    callback: seq<string>)
  {
    /** `doCallback`: a callback command was configured. */
    predicate DoCallback() {
      |callback| > 0
    }
  }

  /** `Setup`: read the cache switch, the log directory, the instance name
      and the callback command. The cache keeps whatever it held. */
  function Setup(s: State, cache: bool, logs: string, instance: string, callback: seq<string>): (r: State)
    ensures r.canCache == cache && r.logs == logs && r.instance == instance && r.callback == callback
    ensures r.cache == s.cache
    ensures r.DoCallback() <==> |callback| > 0
  {
    State(cache, s.cache, logs, instance, callback)
  }

  /** `Reload`: forget every cached verdict and nothing else. */
  function Reload(s: State): (r: State)
    ensures r.cache == map[]
    ensures r.(cache := s.cache) == s
  {
    s.(cache := map[])
  }

  /** An external command: program and arguments. */
  datatype Command = Command(program: string, args: seq<string>)

  /** One audit entry: the result word, the message, and the callback the
      entry triggers (if one is configured). */
  datatype Audit = Audit(result: string, msg: string, command: Option<Command>)

  /** The audit message of a decision:
      `<user> (mac:<mac>) (nas:<nas>,ip:<nas ip>,port:<port>,client:<host>)`.
      Missing values read "unknown" (NAS identifier, client) or "noip"; the
      NAS IP does not fall back to the client address. */
  function Message(user: string, calling: string, p: ClientPacket): string
    requires p.packet.Some?
  {
    var pkt := p.packet.value;
    var nasip := pkt.nasIpAddress.GetOr("noip");
    var cliaddr := if p.clientAddr.Some? then p.clientAddr.value.host else "unknown";
    user + " (mac:" + calling + ") (nas:" + NasName(pkt) + ",ip:" + nasip
      + ",port:" + NatToString(pkt.nasPort.GetOr(0)) + ",client:" + cliaddr + ")"
  }

  /** The defaults of the legacy message: a missing NAS-IP-Address reads
      "noip" even when the sender's address is known, a missing sender reads
      "unknown", and a NAS-Identifier that cleans to nothing reads
      "unknown". */
  lemma MessageDefaults(user: string, calling: string, p: ClientPacket)
    requires p.packet.Some?
    ensures p.packet.value.nasIpAddress.None? ==>
              Message(user, calling, p)
              == Message(user, calling, p.(packet := Some(p.packet.value.(nasIpAddress := Some("noip")))))
    ensures p.clientAddr.None? ==>
              Message(user, calling, p) == Message(user, calling, p.(clientAddr := Some(Addr("unknown", 0))))
    ensures |Clean(p.packet.value.nasIdentifier.GetOr(""))| == 0 ==>
              Message(user, calling, p)
              == Message(user, calling, p.(packet := Some(p.packet.value.(nasIdentifier := Some("unknown")))))
  {
    assert Clean("unknown") == "unknown" by {
      CleanFixedPoints("unknown");
    }
  }

  /** `mark`: nothing when the audit file cannot be opened; otherwise an
      entry, and the callback (when configured) runs its program with its
      configured arguments followed by `<result> -> <message>`. */
  function Mark(s: State, result: string, user: string, calling: string, p: ClientPacket, auditOpens: bool)
    : (a: Option<Audit>)
    requires p.packet.Some?
    ensures a.Some? <==> auditOpens
    ensures a.Some? ==> a.value.result == result && a.value.msg == Message(user, calling, p)
    ensures a.Some? ==> (a.value.command.Some? <==> s.DoCallback())
    ensures a.Some? && a.value.command.Some? ==>
              && a.value.command.value.program == s.callback[0]
              && a.value.command.value.args == s.callback[1..] + [result + " -> " + a.value.msg]
  {
    if !auditOpens then None
    else
      var msg := Message(user, calling, p);
      var command :=
        if s.DoCallback() then Some(Command(s.callback[0], s.callback[1..] + [result + " -> " + msg]))
        else None;
      Some(Audit(result, msg, command))
  }

  datatype LegacyError =
    | NoUserName
    | NoCallingStationId
    | Blacklisted(key: string)
    | FailedPreauth(user: string, calling: string)

  /** The outcome of a check: the plugin state after it, the error (if any),
      and the audit entry written (if any). */
  datatype Check = Check(state: State, failure: Option<LegacyError>, audit: Option<Audit>)

  /** Whether the check answers from the cache. */
  predicate FromCache(s: State, key: string) {
    s.canCache && key in s.cache
  }

  /** `checkUserMac`: a cached verdict (with caching on) is returned without
      an audit entry; otherwise the directory is consulted, the verdict is
      cached (even with caching off) and marked. */
  function CheckUserMac(s: State, p: ClientPacket, dir: UsersDir, lookup: Lookup, auditOpens: bool): (r: Check)
    requires p.packet.Some?
    ensures p.packet.value.userName.None? ==> r == Check(s, Some(LegacyError.NoUserName), None)
    ensures p.packet.value.userName.Some? && p.packet.value.callingStationId.None? ==>
              r == Check(s, Some(LegacyError.NoCallingStationId), None)
    ensures p.packet.value.userName.Some? && p.packet.value.callingStationId.Some? ==>
              var key := UserMacKey(p.packet.value.userName.value, p.packet.value.callingStationId.value);
              && (FromCache(s, key) ==> r.state == s && r.audit.None?
                                         && (r.failure.None? <==> s.cache[key])
                                         && (r.failure.Some? ==> r.failure.value == Blacklisted(key)))
              && (!FromCache(s, key) ==>
                    && r.state == s.(cache := s.cache[key := Found(dir, key, lookup)])
                    && (r.failure.None? <==> Found(dir, key, lookup))
                    && (r.failure.Some? ==>
                          r.failure.value == LegacyError.FailedPreauth(
                            Clean(p.packet.value.userName.value), Clean(p.packet.value.callingStationId.value)))
                    && r.audit == Mark(r.state, if Found(dir, key, lookup) then "passed" else "failed",
                                       Clean(p.packet.value.userName.value),
                                       Clean(p.packet.value.callingStationId.value), p, auditOpens))
  {
    var pkt := p.packet.value;
    match pkt.userName
    case None => Check(s, Some(LegacyError.NoUserName), None)
    case Some(username) =>
      match pkt.callingStationId
      case None => Check(s, Some(LegacyError.NoCallingStationId), None)
      case Some(calling) =>
        var user, mac := Clean(username), Clean(calling);
        var fqdn := user + "." + mac;
        if s.canCache && fqdn in s.cache then
          if s.cache[fqdn] then Check(s, None, None)
          else Check(s, Some(Blacklisted(fqdn)), None)
        else
          var res := Found(dir, fqdn, lookup);
          var s' := s.(cache := s.cache[fqdn := res]);
          var failure := if !res then Some(LegacyError.FailedPreauth(user, mac)) else None;
          var result := if res then "passed" else "failed";
          Check(s', failure, Mark(s', result, user, mac, p, auditOpens))
  }

  /** `Pre` with the corrected lookup: both attributes must be present, and
      then a cached verdict (with caching on) decides, or else whether the
      users directory lists the `<user>.<mac>` file, a verdict that is then
      cached. Nothing but the cache changes. */
  function Pre(s: State, p: ClientPacket, dir: UsersDir, auditOpens: bool): (r: (State, bool))
    requires p.packet.Some?
    ensures r.1 <==>
              && p.packet.value.userName.Some? && p.packet.value.callingStationId.Some?
              && var key := UserMacKey(p.packet.value.userName.value, p.packet.value.callingStationId.value);
                 if FromCache(s, key) then s.cache[key] else key in dir.entries && key != "." && key != ".."
    ensures r.0.(cache := s.cache) == s
    ensures r.0.cache
            == if p.packet.value.userName.Some? && p.packet.value.callingStationId.Some?
                  && !FromCache(s, UserMacKey(p.packet.value.userName.value, p.packet.value.callingStationId.value))
               then
                 var key := UserMacKey(p.packet.value.userName.value, p.packet.value.callingStationId.value);
                 s.cache[key := key in dir.entries && key != "." && key != ".."]
               else s.cache
  {
    var c := CheckUserMac(s, p, dir, Corrected, auditOpens);
    (c.state, c.failure.None?)
  }

  /** With the corrected lookup, a request not answered from the cache
      passes only on a file the users directory lists. */
  lemma FreshPassIsListed(s: State, p: ClientPacket, dir: UsersDir, auditOpens: bool)
    requires p.packet.Some? && WellFormed(dir)
    requires p.packet.value.userName.Some? && p.packet.value.callingStationId.Some?
    requires !FromCache(s, UserMacKey(p.packet.value.userName.value, p.packet.value.callingStationId.value))
    ensures Pre(s, p, dir, auditOpens).1 ==>
              UserMacKey(p.packet.value.userName.value, p.packet.value.callingStationId.value) in dir.entries
  {
  }

  /** With caching on, a second request for the same pair repeats the first
      verdict without consulting the directory (which may have changed) and
      without another audit entry. */
  lemma CacheReplaysVerdict(s: State, p: ClientPacket, q: ClientPacket, dir: UsersDir, dir': UsersDir,
                            lookup: Lookup, a1: bool, a2: bool)
    requires s.canCache
    requires p.packet.Some? && q.packet.Some?
    requires p.packet.value.userName.Some? && p.packet.value.callingStationId.Some?
    requires q.packet.value.userName == p.packet.value.userName
    requires q.packet.value.callingStationId == p.packet.value.callingStationId
    ensures var first := CheckUserMac(s, p, dir, lookup, a1);
            var second := CheckUserMac(first.state, q, dir', lookup, a2);
            && second.failure.None? == first.failure.None?
            && second.state == first.state
            && second.audit.None?
  {
  }

  /** With caching off, every request consults the directory afresh, even
      though verdicts still accumulate in the cache. */
  lemma NoCacheConsultsDirectory(s: State, p: ClientPacket, dir: UsersDir, lookup: Lookup, auditOpens: bool)
    requires !s.canCache
    requires p.packet.Some?
    requires p.packet.value.userName.Some? && p.packet.value.callingStationId.Some?
    ensures var key := UserMacKey(p.packet.value.userName.value, p.packet.value.callingStationId.value);
            var r := CheckUserMac(s, p, dir, lookup, auditOpens);
            && (r.failure.None? <==> Found(dir, key, lookup))
            && key in r.state.cache
  {
  }

  /** After `Reload`, the first request is decided by the directory again. */
  lemma ReloadForgetsVerdicts(s: State, p: ClientPacket, dir: UsersDir, lookup: Lookup, auditOpens: bool)
    requires p.packet.Some?
    requires p.packet.value.userName.Some? && p.packet.value.callingStationId.Some?
    ensures var key := UserMacKey(p.packet.value.userName.value, p.packet.value.callingStationId.value);
            CheckUserMac(Reload(s), p, dir, lookup, auditOpens).failure.None? <==> Found(dir, key, lookup)
  {
  }

  /** As written, the legacy plugin also passes a request whose key is "."
      against an empty users directory, and caches that verdict; the
      corrected lookup refuses it. */
  lemma DotKeyPassesAsWritten(s: State, auditOpens: bool)
    ensures CheckUserMac(s.(cache := map[]), Request("!", "!"), UsersDir(true, true, {}), AsWritten, auditOpens).failure.None?
    ensures !CheckUserMac(s.(cache := map[]), Request("!", "!"), UsersDir(true, true, {}), Corrected, auditOpens).failure.None?
  {
    assert Clean("!") == "";
    assert UserMacKey("!", "!") == ".";
  }
}
