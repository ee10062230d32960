/** The server context of internal/server/context.go: the module registry,
    the per-packet authorization pass (pre and post mode), accounting
    dispatch, and the reject policy of `HandleAuth`.

    Plugin modules are opaque: their `Pre`/`Post` answers come from the
    uninterpreted functions of a `Plugins` value, and every invocation of a
    module (and every secret check) is recorded, in order, in the event log a
    pass returns. */
module Server {
  import opened Wrappers
  import opened Radius
  import opened Secrets

  datatype Mode = PreMode | PostMode

  /** The verdict of a pass. `BadSecretCode` takes precedence over a module
      rejection. */
  datatype ReasonCode = SuccessCode | BadSecretCode | PreAuthCode | PostAuthCode

  datatype TraceType = NoTrace | TraceRequest

  /** A registered plugin instance, known by its name. */
  datatype Module = Module(name: string)

  /** Which capability an authorization check calls. */
  datatype AuthCheck = PreCheck | PostCheck

  /** What the plugins answer: `pre(m, p)` is `m.(PreAuth).Pre(p)` and
      `post(m, p)` is `m.(PostAuth).Post(p)`. */
  datatype Plugins = Plugins(
    pre: (Module, ClientPacket) -> bool,
    post: (Module, ClientPacket) -> bool)

  /** One observable step of a pass. */
  datatype Event =
    | SecretChecked(accepted: bool)
    | Checked(check: AuthCheck, m: Module)
    | Traced(m: Module, t: TraceType)
    | Accounted(m: Module)

  /** The server context: the secrets, the four capability lists (plus the
      general module list) and their shortcut flags. */
  datatype Context = Context(
    debug: bool,
    secret: Bytes,
    preauths: seq<Module>,
    postauths: seq<Module>,
    accts: seq<Module>,
    traces: seq<Module>,
    modules: seq<Module>,
    secrets: map<string, Bytes>,
    noReject: bool,
    postauthSet: bool,
    preauthSet: bool,
    acctSet: bool,
    traceSet: bool,
    moduleSet: bool)

  /** Go's zero `Context`. */
  function EmptyContext(): (c: Context)
    ensures ShortcutsAgree(c)
    ensures c.preauths == [] && c.postauths == [] && c.accts == [] && c.traces == [] && c.modules == []
  {
    Context(false, [], [], [], [], [], [], map[], false, false, false, false, false, false)
  }

  /** Each shortcut flag says whether its list is non-empty. */
  predicate ShortcutsAgree(ctx: Context) {
    && ctx.preauthSet == (|ctx.preauths| > 0)
    && ctx.postauthSet == (|ctx.postauths| > 0)
    && ctx.acctSet == (|ctx.accts| > 0)
    && ctx.traceSet == (|ctx.traces| > 0)
    && ctx.moduleSet == (|ctx.modules| > 0)
  }

  // ---------------------------------------------------------------------
  // Registration

  function AddTrace(ctx: Context, t: Module): (c: Context)
    ensures c.traces == ctx.traces + [t] && c.traceSet
    ensures c.(traces := ctx.traces, traceSet := ctx.traceSet) == ctx
  {
    ctx.(traceSet := true, traces := ctx.traces + [t])
  }

  function AddPreAuth(ctx: Context, p: Module): (c: Context)
    ensures c.preauths == ctx.preauths + [p] && c.preauthSet
    ensures c.(preauths := ctx.preauths, preauthSet := ctx.preauthSet) == ctx
  {
    ctx.(preauthSet := true, preauths := ctx.preauths + [p])
  }

  function AddPostAuth(ctx: Context, p: Module): (c: Context)
    ensures c.postauths == ctx.postauths + [p] && c.postauthSet
    ensures c.(postauths := ctx.postauths, postauthSet := ctx.postauthSet) == ctx
  {
    ctx.(postauthSet := true, postauths := ctx.postauths + [p])
  }

  function AddModule(ctx: Context, m: Module): (c: Context)
    ensures c.modules == ctx.modules + [m] && c.moduleSet
    ensures c.(modules := ctx.modules, moduleSet := ctx.moduleSet) == ctx
  {
    ctx.(moduleSet := true, modules := ctx.modules + [m])
  }

  function AddAccounting(ctx: Context, a: Module): (c: Context)
    ensures c.accts == ctx.accts + [a] && c.acctSet
    ensures c.(accts := ctx.accts, acctSet := ctx.acctSet) == ctx
  {
    ctx.(acctSet := true, accts := ctx.accts + [a])
  }

  /** A registry built only through the `Add*` operations keeps every
      shortcut flag in step with its list. */
  lemma RegistrationKeepsShortcuts(ctx: Context, m: Module)
    requires ShortcutsAgree(ctx)
    ensures ShortcutsAgree(AddTrace(ctx, m))
    ensures ShortcutsAgree(AddPreAuth(ctx, m))
    ensures ShortcutsAgree(AddPostAuth(ctx, m))
    ensures ShortcutsAgree(AddModule(ctx, m))
    ensures ShortcutsAgree(AddAccounting(ctx, m))
  {
  }

  // ---------------------------------------------------------------------
  // Dispatch

  /** `getAuthChecker`: the capability a check calls. */
  function GetAuthChecker(preauthing: bool): (check: AuthCheck)
    ensures check == PreCheck <==> preauthing
  {
    if preauthing then PreCheck else PostCheck
  }

  /** What module `m` answers when checked with `check`. */
  function Apply(check: AuthCheck, plugins: Plugins, m: Module, p: ClientPacket): bool {
    match check
    case PreCheck => plugins.pre(m, p)
    case PostCheck => plugins.post(m, p)
  }

  /** The checker `getAuthChecker` returns asks a module's `Pre` when
      pre-authorizing and its `Post` otherwise. */
  lemma AuthCheckerDispatch(preauthing: bool, plugins: Plugins, m: Module, p: ClientPacket)
    ensures Apply(GetAuthChecker(preauthing), plugins, m, p)
            == if preauthing then plugins.pre(m, p) else plugins.post(m, p)
  {
  }

  /** One check of every module, in list order. */
  function Calls(check: AuthCheck, modules: seq<Module>): (log: seq<Event>)
    ensures |log| == |modules|
  {
    seq(|modules|, i requires 0 <= i < |modules| => Checked(check, modules[i]))
  }

  /** One trace call to every tracing module, in list order. */
  function TraceCalls(traces: seq<Module>, t: TraceType): (log: seq<Event>)
    ensures |log| == |traces|
  {
    seq(|traces|, i requires 0 <= i < |traces| => Traced(traces[i], t))
  }

  /** One accounting call to every accounting module, in list order. */
  function AccountCalls(accts: seq<Module>): (log: seq<Event>)
    ensures |log| == |accts|
  {
    seq(|accts|, i requires 0 <= i < |accts| => Accounted(accts[i]))
  }

  /** Some module answers no. */
  predicate AnyRejects(check: AuthCheck, plugins: Plugins, modules: seq<Module>, p: ClientPacket) {
    exists i :: 0 <= i < |modules| && !Apply(check, plugins, modules[i], p)
  }

  /** `checkAuthMods`: every module is checked exactly once, in order, even
      after one has answered no; the result reports whether any did. */
  method CheckAuthMods(modules: seq<Module>, p: ClientPacket, check: AuthCheck, plugins: Plugins)
    returns (failure: bool, calls: seq<Event>)
    ensures calls == Calls(check, modules)
    ensures failure <==> AnyRejects(check, plugins, modules, p)
  {
    failure := false;
    calls := [];
    var i := 0;
    while i < |modules|
      invariant 0 <= i <= |modules|
      invariant calls == Calls(check, modules[..i])
      invariant failure <==> AnyRejects(check, plugins, modules[..i], p)
    {
      var mod := modules[i];
      calls := calls + [Checked(check, mod)];
      assert modules[..i + 1] == modules[..i] + [mod];
      if !Apply(check, plugins, mod, p) {
        failure := true;
      }
      i := i + 1;
    }
    assert modules[..i] == modules;
  }

  // ---------------------------------------------------------------------
  // The authorization pass

  /** Whether a pass decodes the packet at all: always in pre mode, and in
      post mode only when post-auth or tracing modules are registered. */
  predicate DecodesIn(ctx: Context, mode: Mode) {
    mode == PreMode || ctx.postauthSet || ctx.traceSet
  }

  /** The packet after the pass's decode (with the single secret). */
  function Decoded(ctx: Context, p: ClientPacket, codec: Codec): ClientPacket {
    Decode(p, ctx.secret, codec)
  }

  /** Whether the pass goes past decoding: it decodes and the decode
      succeeded. */
  predicate Proceeds(ctx: Context, p: ClientPacket, mode: Mode, codec: Codec) {
    DecodesIn(ctx, mode) && Decoded(ctx, p, codec).error.None?
  }

  /** The verdict on a decoded packet, in precedence order: a bad secret
      (pre mode), a pre-auth rejection, a post-auth rejection. */
  function Judgement(ctx: Context, q: ClientPacket, mode: Mode, plugins: Plugins): ReasonCode {
    if mode == PreMode && !SecretAccepted(ctx.secret, ctx.secrets, q) then BadSecretCode
    else if mode == PreMode && ctx.preauthSet && AnyRejects(PreCheck, plugins, ctx.preauths, q) then PreAuthCode
    else if mode == PostMode && ctx.postauthSet && AnyRejects(PostCheck, plugins, ctx.postauths, q) then PostAuthCode
    else SuccessCode
  }

  /** The verdict of a pass: success when it does not get past decoding. */
  function Verdict(ctx: Context, p: ClientPacket, mode: Mode, codec: Codec, plugins: Plugins): ReasonCode {
    if !Proceeds(ctx, p, mode, codec) then SuccessCode
    else Judgement(ctx, Decoded(ctx, p, codec), mode, plugins)
  }

  /** The modules a pass checks: the pre-auth list in pre mode, the
      post-auth list in post mode, each only when its flag is set. */
  function AuthLog(ctx: Context, mode: Mode): seq<Event> {
    match mode
    case PreMode => if ctx.preauthSet then Calls(PreCheck, ctx.preauths) else []
    case PostMode => if ctx.postauthSet then Calls(PostCheck, ctx.postauths) else []
  }

  /** What happens to a decoded packet, in order: the secret check (pre mode
      only), the module checks, and the trace calls. */
  function JudgementLog(ctx: Context, q: ClientPacket, mode: Mode): seq<Event> {
    (if mode == PreMode then [SecretChecked(SecretAccepted(ctx.secret, ctx.secrets, q))] else [])
    + AuthLog(ctx, mode)
    + (if ctx.traceSet then TraceCalls(ctx.traces, TraceRequest) else [])
  }

  /** What a pass does: nothing unless it gets past decoding. */
  function PassLog(ctx: Context, p: ClientPacket, mode: Mode, codec: Codec): seq<Event> {
    if !Proceeds(ctx, p, mode, codec) then []
    else JudgementLog(ctx, Decoded(ctx, p, codec), mode)
  }

  /** The outcome of one pass. */
  datatype AuthOutcome = AuthOutcome(packet: Option<ClientPacket>, verdict: ReasonCode, log: seq<Event>)

  /** The whole outcome a pass must produce, nil packet included. */
  function Expected(ctx: Context, packet: Option<ClientPacket>, mode: Mode, codec: Codec, plugins: Plugins): AuthOutcome {
    match packet
    case None => AuthOutcome(None, SuccessCode, [])
    case Some(p) =>
      AuthOutcome(
        Some(if DecodesIn(ctx, mode) then Decoded(ctx, p, codec) else p),
        Verdict(ctx, p, mode, codec, plugins),
        PassLog(ctx, p, mode, codec))
  }

  /** Whether the modules of the pass's mode reject the packet. */
  predicate ModulesReject(ctx: Context, p: ClientPacket, mode: Mode, plugins: Plugins) {
    || (mode == PreMode && ctx.preauthSet && AnyRejects(PreCheck, plugins, ctx.preauths, p))
    || (mode == PostMode && ctx.postauthSet && AnyRejects(PostCheck, plugins, ctx.postauths, p))
  }

  /** The module stage of `Context.authorize`: collect the modules the mode
      calls for, with their checker and rejection code, and check them. */
  method CheckRegistered(ctx: Context, p: ClientPacket, mode: Mode, plugins: Plugins)
    returns (failure: bool, code: ReasonCode, calls: seq<Event>)
    ensures failure <==> ModulesReject(ctx, p, mode, plugins)
    ensures failure ==> code == if mode == PreMode then PreAuthCode else PostAuthCode
    ensures calls == AuthLog(ctx, mode)
  {
    var preauthing := mode == PreMode && ctx.preauthSet;
    var postauthing := mode == PostMode && ctx.postauthSet;
    var checks: seq<Module> := [];
    var checking: Option<AuthCheck> := None;
    code := SuccessCode;
    if preauthing {
      checking := Some(GetAuthChecker(true));
      checks := checks + ctx.preauths;
      code := PreAuthCode;
    }
    if postauthing {
      checking := Some(GetAuthChecker(false));
      checks := checks + ctx.postauths;
      code := PostAuthCode;
    }
    assert checks == if preauthing then ctx.preauths else if postauthing then ctx.postauths else [];
    failure := false;
    calls := [];
    if |checks| > 0 {
      failure, calls := CheckAuthMods(checks, p, checking.value, plugins);
    }
  }

  /** The part of `Context.authorize` after a successful decode: secret
      check, module checks and traces, with the source's flags. */
  method Judge(ctx: Context, p: ClientPacket, mode: Mode, plugins: Plugins)
    returns (valid: ReasonCode, log: seq<Event>)
    ensures valid == Judgement(ctx, p, mode, plugins)
    ensures log == JudgementLog(ctx, p, mode)
  {
    var receiving := mode == PreMode;
    // Both modes trace with `TraceRequest`, so tracing is on exactly when
    // tracing modules are registered.
    var tracing := ctx.traceSet;
    valid := SuccessCode;
    log := [];
    if receiving {
      var err := CheckSecret(ctx.secret, ctx.secrets, p);
      log := log + [SecretChecked(err.Success?)];
      if err.Failure? {
        valid := BadSecretCode;
      }
    }
    var failure, code, calls := CheckRegistered(ctx, p, mode, plugins);
    log := log + calls;
    if failure {
      if valid == SuccessCode {
        valid := code;
      }
    }
    if tracing {
      log := log + TraceCalls(ctx.traces, TraceRequest);
    }
  }

  /** `Context.authorize`: decode when the mode or the registered modules
      call for it, and judge the packet if that succeeded. */
  method Authorize(ctx: Context, packet: Option<ClientPacket>, mode: Mode, codec: Codec, plugins: Plugins)
    returns (r: AuthOutcome)
    ensures r == Expected(ctx, packet, mode, codec, plugins)
  {
    if packet.None? {
      return AuthOutcome(None, SuccessCode, []);
    }
    var p := packet.value;
    var valid := SuccessCode;
    var log: seq<Event> := [];
    var receiving := mode == PreMode;
    var preauthing := mode == PreMode && ctx.preauthSet;
    var postauthing := mode == PostMode && ctx.postauthSet;
    var tracing := ctx.traceSet;
    if preauthing || postauthing || tracing || receiving {
      p := Decode(p, ctx.secret, codec);
      if p.error.None? {
        valid, log := Judge(ctx, p, mode, plugins);
      }
    }
    return AuthOutcome(Some(p), valid, log);
  }

  /** `doAuthing`: a pass over a freshly received datagram. */
  method DoAuthing(ctx: Context, b: Bytes, addr: Option<Addr>, mode: Mode, codec: Codec, plugins: Plugins)
    returns (r: AuthOutcome)
    ensures r == Expected(ctx, Some(NewClientPacket(b, addr)), mode, codec, plugins)
    ensures r.packet.Some? && r.packet.value.buffer == b && r.packet.value.clientAddr == addr
  {
    r := Authorize(ctx, Some(NewClientPacket(b, addr)), mode, codec, plugins);
  }

  /** `PreAuthorize`. */
  method PreAuthorize(ctx: Context, b: Bytes, addr: Option<Addr>, codec: Codec, plugins: Plugins)
    returns (r: AuthOutcome)
    ensures r == Expected(ctx, Some(NewClientPacket(b, addr)), PreMode, codec, plugins)
  {
    r := DoAuthing(ctx, b, addr, PreMode, codec, plugins);
  }

  /** `PostAuthorize`. */
  method PostAuthorize(ctx: Context, b: Bytes, addr: Option<Addr>, codec: Codec, plugins: Plugins)
    returns (r: AuthOutcome)
    ensures r == Expected(ctx, Some(NewClientPacket(b, addr)), PostMode, codec, plugins)
  {
    r := DoAuthing(ctx, b, addr, PostMode, codec, plugins);
  }

  // ---------------------------------------------------------------------
  // Properties of a pass

  /** A nil packet, or one that does not decode, passes with nothing
      invoked: no secret check, no module, no trace. */
  lemma UndecodedPassesSilently(ctx: Context, packet: Option<ClientPacket>, mode: Mode, codec: Codec, plugins: Plugins)
    requires packet.None? || Decoded(ctx, packet.value, codec).error.Some?
    ensures Expected(ctx, packet, mode, codec, plugins).verdict == SuccessCode
    ensures Expected(ctx, packet, mode, codec, plugins).log == []
  {
  }

  /** A refused secret pins the verdict at `BadSecretCode`, yet every
      registered pre-auth module is still checked, once each, in order. */
  lemma {:induction false} BadSecretStillRunsPreauths(ctx: Context, p: ClientPacket, codec: Codec, plugins: Plugins)
    requires Proceeds(ctx, p, PreMode, codec)
    requires !SecretAccepted(ctx.secret, ctx.secrets, Decoded(ctx, p, codec))
    ensures Verdict(ctx, p, PreMode, codec, plugins) == BadSecretCode
    ensures ctx.preauthSet ==>
              PassLog(ctx, p, PreMode, codec)[1..1 + |ctx.preauths|] == Calls(PreCheck, ctx.preauths)
  {
    if ctx.preauthSet {
      var log := PassLog(ctx, p, PreMode, codec);
      var t := if ctx.traceSet then TraceCalls(ctx.traces, TraceRequest) else [];
      assert log == [SecretChecked(false)] + Calls(PreCheck, ctx.preauths) + t;
      assert log[1..1 + |ctx.preauths|] == Calls(PreCheck, ctx.preauths);
    }
  }

  /** The secret is checked only in pre mode and only after a successful
      decode. */
  lemma SecretCheckedOnlyInPreMode(ctx: Context, p: ClientPacket, mode: Mode, codec: Codec, e: Event)
    requires e in PassLog(ctx, p, mode, codec) && e.SecretChecked?
    ensures mode == PreMode && Decoded(ctx, p, codec).error.None?
  {
  }

  /** Pre mode consults only the pre-auth list, post mode only the post-auth
      list. */
  lemma ModeSelectsModules(ctx: Context, p: ClientPacket, mode: Mode, codec: Codec, e: Event)
    requires e in PassLog(ctx, p, mode, codec) && e.Checked?
    ensures mode == PreMode ==> e.check == PreCheck && e.m in ctx.preauths
    ensures mode == PostMode ==> e.check == PostCheck && e.m in ctx.postauths
  {
    var log := PassLog(ctx, p, mode, codec);
    var s := if mode == PreMode then [SecretChecked(SecretAccepted(ctx.secret, ctx.secrets, Decoded(ctx, p, codec)))] else [];
    var t := if ctx.traceSet then TraceCalls(ctx.traces, TraceRequest) else [];
    assert log == s + AuthLog(ctx, mode) + t;
    assert e in AuthLog(ctx, mode);
  }

  /** Tracing modules never change a verdict: dropping them all, flag
      included, leaves every verdict as it was. */
  lemma TracingNeverChangesVerdict(ctx: Context, p: ClientPacket, mode: Mode, codec: Codec, plugins: Plugins)
    ensures Verdict(ctx, p, mode, codec, plugins)
            == Verdict(ctx.(traces := [], traceSet := false), p, mode, codec, plugins)
  {
  }

  /** Once a pass proceeds, every tracing module is called (last), whatever
      the verdict. */
  lemma TracesRunRegardless(ctx: Context, p: ClientPacket, mode: Mode, codec: Codec)
    requires Proceeds(ctx, p, mode, codec) && ctx.traceSet
    ensures var log := PassLog(ctx, p, mode, codec);
            |log| >= |ctx.traces| && log[|log| - |ctx.traces|..] == TraceCalls(ctx.traces, TraceRequest)
  {
  }

  /** With the registry built by `Add*`, a pre-mode pass that proceeds
      checks every registered pre-auth module. */
  lemma RegisteredPreauthsAllRun(ctx: Context, p: ClientPacket, codec: Codec, i: int)
    requires ShortcutsAgree(ctx)
    requires Proceeds(ctx, p, PreMode, codec)
    requires 0 <= i < |ctx.preauths|
    ensures PassLog(ctx, p, PreMode, codec)[1 + i] == Checked(PreCheck, ctx.preauths[i])
  {
    var log := PassLog(ctx, p, PreMode, codec);
    var t := if ctx.traceSet then TraceCalls(ctx.traces, TraceRequest) else [];
    assert log == [SecretChecked(SecretAccepted(ctx.secret, ctx.secrets, Decoded(ctx, p, codec)))]
                  + Calls(PreCheck, ctx.preauths) + t;
  }

  /** When the codec keeps the secret it parsed with (as the RADIUS library
      does), a mapping-mode pass compares the mapping entries against the
      single localhost secret: an entry is only useful if it holds that
      same secret. */
  lemma MappingModeComparesSingleSecret(ctx: Context, p: ClientPacket, codec: Codec)
    requires forall b, s :: codec.parse(b, s).Success? ==> codec.parse(b, s).value.secret == Some(s)
    requires !Attempted(p) && Proceeds(ctx, p, PreMode, codec)
    requires |ctx.secrets| > 0 && p.clientAddr.Some?
    ensures SecretAccepted(ctx.secret, ctx.secrets, Decoded(ctx, p, codec))
            <==> MappingAccepts(ctx.secrets, p.clientAddr.value.host, ctx.secret)
  {
    assert codec.parse(p.buffer, ctx.secret).Success?;
  }

  /** The other half: in single-secret mode, with a codec that keeps its
      parse secret, a packet is always compared with the secret it was
      decoded with, so no pass ever ends in `BadSecretCode`. */
  lemma SingleModeNeverBadSecret(ctx: Context, p: ClientPacket, mode: Mode, codec: Codec, plugins: Plugins)
    requires forall b, s :: codec.parse(b, s).Success? ==> codec.parse(b, s).value.secret == Some(s)
    requires !Attempted(p) && |ctx.secrets| == 0
    ensures Verdict(ctx, p, mode, codec, plugins) != BadSecretCode
  {
    if Proceeds(ctx, p, mode, codec) {
      assert codec.parse(p.buffer, ctx.secret).Success?;
    }
  }

  // ---------------------------------------------------------------------
  // Accounting and the reject policy

  /** `Context.Account`: decode; if that fails, nothing; otherwise every
      accounting module once, in order (when the flag is set). */
  method Account(ctx: Context, packet: ClientPacket, codec: Codec) returns (p: ClientPacket, log: seq<Event>)
    ensures p == Decode(packet, ctx.secret, codec)
    ensures p.error.Some? ==> log == []
    ensures p.error.None? ==> log == if ctx.acctSet then AccountCalls(ctx.accts) else []
  {
    p := Decode(packet, ctx.secret, codec);
    log := [];
    if p.error.Some? {
      return;
    }
    if ctx.acctSet {
      var i := 0;
      while i < |ctx.accts|
        invariant 0 <= i <= |ctx.accts|
        invariant log == AccountCalls(ctx.accts[..i])
      {
        log := log + [Accounted(ctx.accts[i])];
        assert ctx.accts[..i + 1] == ctx.accts[..i] + [ctx.accts[i]];
        i := i + 1;
      }
      assert ctx.accts[..i] == ctx.accts;
    }
  }

  /** `HandleAuth`: run a pass and answer whether it authorized the packet.
      At most one reject is written, and only for a rejected, decoded packet
      whose verdict is not a bad secret, when rejects are enabled, a writer
      is present and the reject encodes. */
  method HandleAuth(mode: Mode, ctx: Context, b: Bytes, addr: Option<Addr>, canWrite: bool,
                    codec: Codec, plugins: Plugins)
    returns (authed: bool, written: seq<Bytes>, pass: AuthOutcome)
    ensures pass == Expected(ctx, Some(NewClientPacket(b, addr)), mode, codec, plugins)
    ensures authed <==> pass.verdict == SuccessCode
    ensures |written| <= 1
    ensures |written| == 1 ==>
              && !authed && !ctx.noReject && canWrite && pass.verdict != BadSecretCode
              && pass.packet.value.error.None? && pass.packet.value.packet.Some?
              && codec.encodeReject(pass.packet.value.packet.value) == Success(written[0])
    ensures (&& !authed && !ctx.noReject && canWrite && pass.verdict != BadSecretCode
             && pass.packet.value.packet.Some?
             && codec.encodeReject(pass.packet.value.packet.value).Success?) ==> |written| == 1
  {
    pass := DoAuthing(ctx, b, addr, mode, codec, plugins);
    authed := pass.verdict == SuccessCode;
    written := [];
    var packet := pass.packet.value;
    if !authed {
      if !ctx.noReject && canWrite && pass.verdict != BadSecretCode {
        if packet.error.None? {
          var p := packet.packet.value;
          var rej := codec.encodeReject(p);
          if rej.Success? {
            written := written + [rej.value];
          }
        }
      }
    }
  }

  /** A refused secret only arises from a pre-mode pass over a packet that
      decoded; `HandleAuth` then withholds the reject on that verdict alone. */
  lemma BadSecretOnlyAfterDecodeInPreMode(mode: Mode, ctx: Context, b: Bytes, addr: Option<Addr>, codec: Codec, plugins: Plugins)
    requires Verdict(ctx, NewClientPacket(b, addr), mode, codec, plugins) == BadSecretCode
    ensures mode == PreMode
    ensures !Expected(ctx, Some(NewClientPacket(b, addr)), mode, codec, plugins).packet.value.error.Some?
  {
  }

  // ---------------------------------------------------------------------
  // Construction from configuration

  /** `Context.FromConfig`: load the single secret (a missing file or one
      without a localhost line is fatal) and, when the client mapping file
      exists, the per-client mappings. */
  method FromConfig(ctx: Context, noReject: bool, secretsFile: Option<seq<string>>, clientsFile: Option<seq<string>>)
    returns (r: Result<Context, SecretFileError>)
    ensures secretsFile.None? ==> r.Failure?
    ensures secretsFile.Some? ==>
              (r.Success? <==> exists i :: 0 <= i < |secretsFile.value| && LocalLine(secretsFile.value[i]))
    ensures r.Success? ==>
              && r.value.noReject == noReject
              && r.value.(noReject := ctx.noReject, secret := ctx.secret, secrets := ctx.secrets) == ctx
              && exists i :: IsFirstLocal(secretsFile.value, i) && r.value.secret == Utf8(SecretOf(secretsFile.value[i]))
    ensures r.Success? && clientsFile.None? ==> r.value.secrets == map[]
    ensures r.Success? && clientsFile.Some? ==>
              exists m :: IsMappingOf(clientsFile.value, m) && r.value.secrets == map k | k in m :: Utf8(m[k])
  {
    var s := ParseSecretFile(secretsFile);
    if s.Failure? {
      return Failure(s.error);
    }
    var secrets: map<string, Bytes> := map[];
    if clientsFile.Some? {
      // A mapping file that exists always parses, so the source's fatal
      // branch for it cannot fire.
      var mappings := ParseSecretMappings(clientsFile);
      secrets := mappings.value;
    }
    return Success(ctx.(noReject := noReject, secret := Utf8(s.value), secrets := secrets));
  }
}
