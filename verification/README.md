# radiucal core, modelled in Dafny

A model of the core of radiucal, a RADIUS proxy that sits in front of a
RADIUS server and decides, packet by packet, whether a request may pass.
The model also covers the smaller parts that feed that decision:

- the server context (`internal/server/context.go`):
  - the decode done at most once per packet;
  - shared-secret validation, with one global secret or per-client prefix mappings and a `0.0.0.0` wildcard;
  - the parser of the secret files;
  - module registration;
  - the authorization pass in pre and post mode, with its verdict precedence `Success`, `BadSecret`, `PreAuth`, `PostAuth`;
  - accounting dispatch;
  - the reject policy of `HandleAuth`.
- the configuration defaults (`internal/core/configuration.go`);
- the plugin helpers asserted by `internal/server/extension_test.go`:
  - `Disabled`;
  - key/value audit rendering;
  - the plugin context;
- both copies of the `usermac` pre-authorization plugin:
  - name cleaning;
  - the `<user>.<mac>` file key;
  - the lookup;
  - audit marks;
  - in the legacy copy, the verdict cache and the callback;
- the admin tool's `check_objects` consistency check, its sorted audit file, and the reconciliation of the live user-file directory (`admin/src/configure.rs`).

The RADIUS codec is a parameter of the model. Plugins are too: the
`Codec` value carries `parse` and `encodeReject`, and the `Plugins` value
carries the `Pre`/`Post` answers. Every module call, and every secret
check, of a pass goes into a plain event log that the pass returns.

Files:

- `wrappers.dfy`: Option and Result.
- `strings.dfy`: helpers for Go's `strings`/`strconv`, and the order used to sort lines.
- `sorting.dfy`: sorting lines.
- `radius.dfy`: the packet wrapper and the codec boundary.
- `secrets.dfy`: secret checking and secret files.
- `server.dfy`: the context, the authorization pass, accounting and `HandleAuth`.
- `configuration.dfy`: the configuration and its defaults.
- `extension.dfy`: `Disabled`, key/value rendering and the plugin context.
- `usermac.dfy`: the `usermac` plugin and what the legacy plugin shares with it.
- `usermac_legacy.dfy`: the legacy `usermac` plugin.
- `configure.dfy`: the admin tool.

Three facts about the code shape the model:

- **A bad secret does not short-circuit.** The pre-auth modules still run after a refused secret; only the verdict is pinned at `BadSecret` (`Server.BadSecretStillRunsPreauths`).
- **Secrets are matched, not resolved.** A packet is accepted if *any* applicable entry holds the packet's secret, where an entry applies when its key is a textual prefix of the sender's host or is `0.0.0.0`. There is no longest-prefix choice and no wildcard-last priority (`Secrets.MappingAccepts`).
- **Mapping mode compares against the single secret.** The secret a packet carries is the one it was decoded with, which is the single localhost secret. So with a codec that keeps its parse secret, mapping mode in effect compares entries against that secret (`Server.MappingModeComparesSingleSecret`). The other half: in single-secret mode, with such a codec, the packet is compared with the very secret it was decoded with, so `BadSecret` can never arise (`Server.SingleModeNeverBadSecret`).

## Model

| member | source | states |
|---|---|---|
| Radius.Decode | internal/server/context.go:328-334 | parses only when neither a packet nor an error is present; otherwise the packet is returned unchanged; afterwards a decode has been attempted, and its outcome is the parse result |
| Radius.DecodeIdempotent | internal/server/context.go:328-334 | a second decode is a no-op, whatever the first one's outcome |
| Radius.DecodeFreshExclusive | internal/server/context.go:328-334 | decoding a fresh datagram leaves exactly one of packet and error |
| Radius.NewClientPacket | internal/server/context.go:101-103 | a fresh datagram keeps its bytes and sender and has not been decoded |
| Secrets.ScanSecrets | internal/server/context.go:307-316 | the loop over the mapping, in arbitrary key order with an early break, answers true iff some applicable entry holds the secret |
| Secrets.CheckSecret | internal/server/context.go:288-326 | succeeds iff the secret is accepted; each error (no packet, no secret, no client address, no matching entry, shared-secret mismatch) occurs exactly in its own case |
| Secrets.SingleModeIgnoresAddress | internal/server/context.go:320-324 | without mappings the sender's address plays no part |
| Secrets.MappingModeIgnoresSingleSecret | internal/server/context.go:297-319 | with mappings the single secret plays no part |
| Secrets.WildcardAcceptsAnyHost | internal/server/context.go:309-314 | a `0.0.0.0` entry accepts its secret from every known sender |
| Secrets.NonApplicableEntryRefused | internal/server/context.go:309-319 | the secret is refused when only entries that do not apply hold it |
| Secrets.PrefixAndWildcard | internal/server/context.go:309-319 | with entries `10.0.0.` and `0.0.0.0`, `10.0.0.9` is accepted with the prefix secret; `192.168.1.1` is accepted only with the wildcard secret |
| Secrets.LineFields | internal/server/context.go:257-258 | a line's key is the text before its first space, and its secret is the trimmed text after that space |
| Secrets.MappingStep | internal/server/context.go:256-262 | one more line keeps the parsed map equal to "the keys of kept lines, each with the secret of its last kept line" |
| Secrets.ParseSecretFromFile | internal/server/context.go:240-273 | a missing file is an error. Mapping mode maps each non-comment line with a secret, later lines winning. Single mode succeeds iff some line is a localhost line with a secret; it keeps the first such line and otherwise reports "no secrets found" |
| Secrets.ParseSecretFile | internal/server/context.go:232-238 | the single secret is the non-empty secret of the first localhost line |
| Secrets.ParseSecretMappings | internal/server/context.go:212-222 | an existing mapping file always parses, into the byte form of the parsed map |
| Strings.SplitAtFirst | internal/server/context.go:257-258 | the first field of a split on spaces is the text before the first space; re-joining the other fields gives the text after it |
| Strings.TrimSpaceSpec | internal/server/context.go:258 | trimming yields an empty string iff the text is all white space; otherwise the result starts and ends with a non-space |
| Server.EmptyContext | internal/server/context.go:42-58 | a zero context has no modules and consistent shortcut flags |
| Server.AddTrace | internal/server/context.go:61-65 | appends the module, sets the trace flag, and changes nothing else |
| Server.AddPreAuth | internal/server/context.go:67-71 | appends the module, sets the pre-auth flag, and changes nothing else |
| Server.AddPostAuth | internal/server/context.go:73-77 | appends the module, sets the post-auth flag, and changes nothing else |
| Server.AddModule | internal/server/context.go:79-83 | appends the module, sets the module flag, and changes nothing else |
| Server.AddAccounting | internal/server/context.go:85-89 | appends the module, sets the accounting flag, and changes nothing else |
| Server.RegistrationKeepsShortcuts | internal/server/context.go:52-89 | registration keeps every shortcut flag equal to "its list is non-empty" |
| Server.GetAuthChecker | internal/server/context.go:173-180 | the checker asks for pre-authorization exactly when pre-authorizing |
| Server.AuthCheckerDispatch | internal/server/context.go:173-180 | the checker calls a module's `Pre` when pre-authorizing and its `Post` otherwise |
| Server.CheckAuthMods | internal/server/context.go:182-192 | checks every module exactly once, in order, even after a rejection; reports failure iff some module rejects |
| Server.CheckRegistered | internal/server/context.go:138-162 | the mode selects the pre-auth or post-auth list, its checker and its rejection code; failure iff a module of that list rejects |
| Server.Judge | internal/server/context.go:131-168 | after a successful decode: the secret check (pre mode), the module checks and the traces, in that order; `BadSecret` takes precedence over a module rejection |
| Server.Authorize | internal/server/context.go:106-171 | a nil packet passes with nothing done; decoding happens in pre mode, or in post mode with post-auth or trace modules; a failed decode passes with nothing dispatched; otherwise verdict and log are those of the judgement |
| Server.DoAuthing | internal/server/context.go:101-104 | a pass over a fresh datagram, which keeps its bytes and sender |
| Server.PreAuthorize | internal/server/context.go:96-99 | a pre-mode pass |
| Server.PostAuthorize | internal/server/context.go:91-94 | a post-mode pass |
| Server.UndecodedPassesSilently | internal/server/context.go:106-109 | a nil packet, or one that does not decode, yields `Success` with no secret check, module or trace invoked |
| Server.BadSecretStillRunsPreauths | internal/server/context.go:132-161 | a refused secret pins the verdict at `BadSecret`, and every pre-auth module is still checked once, in order |
| Server.SecretCheckedOnlyInPreMode | internal/server/context.go:126-137 | the secret is checked only in pre mode and only after a successful decode |
| Server.ModeSelectsModules | internal/server/context.go:115-154 | pre mode checks only pre-auth modules, and post mode only post-auth modules |
| Server.TracingNeverChangesVerdict | internal/server/context.go:125-167 | removing every tracing module leaves every verdict unchanged, including in post mode, where tracing alone causes the decode |
| Server.TracesRunRegardless | internal/server/context.go:163-167 | once a pass gets past decoding, every tracing module is called last, whatever the verdict |
| Server.RegisteredPreauthsAllRun | internal/server/context.go:141-161 | each registered pre-auth module is checked, at its position after the secret check |
| Server.MappingModeComparesSingleSecret | internal/server/context.go:293-316 | when the codec keeps its parse secret, mapping mode accepts iff some applicable entry holds the single localhost secret |
| Server.SingleModeNeverBadSecret | internal/server/context.go:320-330 | when the codec keeps its parse secret and there are no mappings, no pass ends in `BadSecret`, in either mode |
| Server.Account | internal/server/context.go:336-348 | decodes; a failed decode invokes no module; otherwise every accounting module runs once, in order, when the flag is set |
| Server.HandleAuth | internal/server/context.go:350-376 | answers true iff the verdict is `Success`; writes at most one reject, and only for a rejected, decoded packet whose verdict is not `BadSecret`, with rejects enabled, a writer present and the reject encoded; in that case it always writes it |
| Server.BadSecretOnlyAfterDecodeInPreMode | internal/server/context.go:126-136 | `BadSecret` only arises in pre mode, for a packet that decoded; `HandleAuth` withholds the reject on that verdict |
| Server.FromConfig | internal/server/context.go:194-230 | a missing secrets file, or one without a localhost line, is fatal; otherwise the context gets the first localhost secret, the client mappings when that file exists, and the reject switch, and nothing else changes |
| Configuration.DefaultString | internal/core/configuration.go:45-50 | the given string unless it is empty, then the default |
| Configuration.DefaultPositive | internal/core/configuration.go:57-72 | a positive setting is kept, any other is replaced |
| Configuration.Defaults | internal/core/configuration.go:53-74 | host, directories and log directory are filled only when empty; a non-positive port becomes 1813 with accounting, else 1812; non-positive log count, lifespan and span check become 10, 24 and 1; set values and every other field except the raw document are kept; afterwards every filled setting is usable |
| Configuration.DefaultsIdempotent | internal/core/configuration.go:53-74 | completing twice is completing once |
| Configuration.DefaultsFixCompleted | internal/core/configuration.go:53-74 | a complete configuration only gets its raw document replaced |
| Extension.Disabled | internal/server/extension_test.go:21-28 | disabled iff the name is one of the listed names |
| Extension.DisabledIsExact | internal/server/extension_test.go:21-28 | "mode" is disabled by ["mode"], "modes" is not |
| Extension.KeyValue.String | internal/server/extension_test.go:50-55 | the key, then " = ", then the value |
| Extension.KeyValueStore.Add | internal/server/extension_test.go:30-34 | appends the pair, duplicate keys included |
| Extension.KeyValueStore.KeptMembers | internal/server/extension_test.go:57-73 | a pair is rendered iff it is stored and not dropped as empty |
| Extension.KeyValueStore.Strings | internal/server/extension_test.go:30-48 | one line per rendered pair, in order; the first line is unindented and the rest are indented by two spaces |
| Extension.StringsKeepDuplicates | internal/server/extension_test.go:30-48 | the three-pair example renders as `key = val`, `  key2 = val2`, `  key2 = val3` |
| Extension.StringsDropEmpty | internal/server/extension_test.go:57-73 | with dropping on, the pair with the empty value is not rendered |
| Extension.PluginContext.Clone | internal/server/extension_test.go:14-19 | a clone keeps the library directory |
| Extension.NewPluginContext | internal/server/extension_test.go:7-12 | the library directory is the configured directory |
| Usermac.Clean | internal/plugins/usermac/plugin.go:43-51 | output only holds `a-z`, `0-9` and `.`, and is no longer than the input |
| Usermac.CleanConcat | internal/plugins/usermac/plugin.go:43-51 | cleaning works character by character: it distributes over concatenation |
| Usermac.CleanFixedPoints | internal/plugins/usermac/plugin.go:43-51 | a string is unchanged by cleaning iff it holds only allowed characters |
| Usermac.CleanIdempotent | internal/plugins/usermac/plugin.go:43-51 | cleaning twice is cleaning once |
| Usermac.UserMacKey | internal/plugins/usermac/plugin.go:62-64 | the key reads as the cleaned user name, a dot, then the cleaned Calling-Station-Id |
| Usermac.KeyShape | internal/plugins/usermac/plugin.go:62-64 | a key holds only allowed characters and never a `/`; it is "." iff both parts clean to nothing, and ".." iff one part cleans to "." and the other to nothing |
| Usermac.PathExistsAsWritten | internal/plugins/usermac/plugin.go:65-68 | as written, the path exists iff the corrected lookup finds the key, or the key is "." and the users directory exists, or ".." and its parent exists |
| Usermac.UserFileExists | internal/plugins/usermac/plugin.go:65-68 | the lookup only finds plain listed file names |
| Usermac.LookupsAgreeOnFileNames | internal/plugins/usermac/plugin.go:65-68 | on every key other than "." and "..", the written and corrected lookups agree |
| Usermac.NasName | internal/plugins/usermac/plugin.go:78-81 | the recorded NAS name is the cleaned NAS-Identifier, or "unknown" when that cleans to nothing; it is never empty |
| Usermac.MarkStore | internal/plugins/usermac/plugin.go:77-106 | seven pairs in order: `PASSED`/`FAILED` matching the decision, user, MAC, the NAS name, NAS address, port and identifier |
| Usermac.MarkFieldsReadBack | internal/plugins/usermac/plugin.go:82-106 | the NAS address is the NAS-IP-Address, else the client host, else `noip`; the port (0 if absent) and the identifier read back from their decimal text |
| Usermac.CheckUserMac | internal/plugins/usermac/plugin.go:53-75 | a missing user name or calling station is an error with no mark; otherwise it passes iff the lookup finds the key, and marks the decision with the cleaned names |
| Usermac.Pre | internal/plugins/usermac/plugin.go:39-41 | passes iff both attributes are present and the directory lists the cleaned `<user>.<mac>` file |
| Usermac.PreAsWritten | internal/plugins/usermac/plugin.go:39-41 | as written: passes iff both attributes are present and the joined path exists |
| Usermac.DotKeyPassesAsWritten | internal/plugins/usermac/plugin.go:62-68 | as written, User-Name "!" with Calling-Station-Id "!" passes against an empty users directory; the corrected lookup refuses it |
| Usermac.DotDotKeyPassesAsWritten | internal/plugins/usermac/plugin.go:62-68 | as written, User-Name "." with an empty Calling-Station-Id passes against an empty users directory; the corrected lookup refuses it |
| Usermac.PreAdmitsOnlyListedPairs | internal/plugins/usermac/plugin.go:53-74 | a passing request names a listed file; on plain keys the corrected and written plugins agree |
| Usermac.PreSeesOnlyCleanedAttributes | internal/plugins/usermac/plugin.go:62-64 | requests whose attributes clean to the same text get the same decision |
| UsermacLegacy.Setup | plugins/usermac/plugin.go:42-49 | takes the cache switch, log directory, instance and callback; the callback is on iff the command is non-empty; the cache is kept |
| UsermacLegacy.Reload | plugins/usermac/plugin.go:36-40 | empties the cache and changes nothing else |
| UsermacLegacy.MessageDefaults | plugins/usermac/plugin.go:106-130 | in the audit message a missing NAS-IP-Address reads "noip" even when the sender is known, a missing sender reads "unknown", and a NAS-Identifier that cleans to nothing reads "unknown" |
| UsermacLegacy.Mark | plugins/usermac/plugin.go:105-138 | nothing when the audit file cannot be opened; otherwise an entry with the result and message, plus a callback exactly when one is configured, running `callback[0]` with `callback[1:]` followed by `<result> -> <message>` |
| UsermacLegacy.CheckUserMac | plugins/usermac/plugin.go:65-103 | missing attributes are errors; with caching on, a cached key replays its verdict without an audit entry; otherwise the lookup decides, the verdict is cached even with caching off, a refusal is `FailedPreauth` with the cleaned names, and the audit entry is the mark of `passed`/`failed` matching the verdict, written when the audit file opens |
| UsermacLegacy.Pre | plugins/usermac/plugin.go:51-53 | passes iff both attributes are present and either caching is on and the key's cached verdict is a pass, or the key is not answered from the cache and the directory lists the `<user>.<mac>` file; only the cache changes, and it gains that file verdict exactly when the key was not answered from it |
| UsermacLegacy.FreshPassIsListed | plugins/usermac/plugin.go:90-100 | a request not answered from the cache passes only on a listed file |
| UsermacLegacy.CacheReplaysVerdict | plugins/usermac/plugin.go:77-86 | with caching on, a repeat request gets the first verdict even after the directory changed, with no second audit entry |
| UsermacLegacy.NoCacheConsultsDirectory | plugins/usermac/plugin.go:90-100 | with caching off, the directory decides every time, while the cache still records the verdict |
| UsermacLegacy.ReloadForgetsVerdicts | plugins/usermac/plugin.go:36-40 | after a reload, the directory decides again |
| UsermacLegacy.DotKeyPassesAsWritten | plugins/usermac/plugin.go:74-96 | as written, the legacy plugin also passes User-Name "!" with Calling-Station-Id "!" against an empty directory; the corrected lookup refuses it |
| Configure.AuditVlan | admin/src/configure.rs:242-256 | `mab` and `login` audit the MAC's VLAN, `owned` audits `n/a`, and any other mode is refused |
| Configure.AgreesStep | admin/src/configure.rs:263-273 | a MAC visit is consistent with the modes seen so far iff its mode matches a mode already tracked for it, and the rest of the walk is consistent once the MAC is tracked |
| Configure.ScanSpec | admin/src/configure.rs:224-276 | the walk succeeds iff every user has a known default VLAN and a password, every device base is a known object, every MAC mode is known, and no MAC appears with two modes; the audits are then one per visited MAC, in visit order |
| Configure.CheckObjects | admin/src/configure.rs:202-278 | a manifest iff every VLAN's initiate list names VLANs and the walk is consistent; the manifest holds one audit per visited MAC and empty whitelist, EAP and system lists |
| Configure.ValidityIgnoresOrder | admin/src/configure.rs:224-276 | validity depends only on which visits happen, not on the map iteration order |
| Configure.ModeConflictRejected | admin/src/configure.rs:263-273 | a MAC used with two modes anywhere is rejected |
| Configure.AuditFile | admin/src/configure.rs:187-199 | the audit file is the `user,vlan,mac` lines, sorted |
| Configure.AuditFileIgnoresOrder | admin/src/configure.rs:187-199 | reordering the users changes neither the verdict nor the audit file |
| Configure.NamedUsers | admin/src/configure.rs:74-82 | the named files are exactly the manifest's non-blank lines |
| Configure.DropUnnamed | admin/src/configure.rs:83-92 | every current file not named is removed, and only those |
| Configure.CreateMissing | admin/src/configure.rs:93-101 | every named file that is missing is created, and only those; a name "." or ".." joins to a directory that exists, so nothing is created for it |
| Configure.Reconcile | admin/src/configure.rs:74-101 | removes the unnamed current files and creates the missing named ones other than "." and ".."; on a directory listing, afterwards the directory holds exactly the named files other than "." and ".." |
| Configure.DotLineCreatesNothing | admin/src/configure.rs:93-101 | a manifest whose one line is "." lists that name, yet nothing is created for it |
| Sorting.Sort | admin/src/configure.rs:192 | a sorted permutation of the lines |
| Sorting.SortIgnoresOrder | admin/src/configure.rs:192 | sorting two orderings of the same lines gives the same result |

## Left out

- The `layeh.com/radius` codec is modelled by the `Codec` parameter: parsing, the authenticator check of section 3 of RFC 2865, `Response`, `Encode` and the attribute lookups. A decoded packet only exposes the attributes the plugins read.
- Plugin modules are opaque answers in `Plugins`. The event log records which module was called, but not the packet it received.
- Logging is not modelled: `WriteError`/`WriteDebug`/`WriteInfo`, `DebugDump`, `Configuration.Dump`, `LogPluginMessages` and `FormatLog`.
- `core.Fatal` in `FromConfig` becomes a `Failure` result.
- Secret files:
  - A file is given as its lines, or as absent.
  - A failure of `os.Open` on an existing file is not modelled.
  - Nor are scanner errors.
- `net.SplitHostPort` is assumed to succeed on a UDP address's text, so a sender is its host; its error branch is not modelled.
- `Server.HandleAuth`: the write callback becomes a "writer present" flag. The bytes written are returned.
- `Server.Account`: the packet is not nil. The Go code would dereference it anyway.
- `Server.Judge`/`Server.CheckRegistered`:
  - They are split out of `authorize` to keep each proof small.
  - The type assertions `m.(PreAuth)` and `m.(PostAuth)` are not modelled, because the lists are typed.
- Concurrency is not modelled: `go mark` runs synchronously, and the legacy plugin's mutexes are dropped.
- The users directory is a set of names: `core.PathExists` and `goutils.PathExists` over `filepath.Join(lib, "users", key)`. The internal plugin's `Setup` (global `db` and `instance`) is folded into that parameter.
- `UsermacLegacy.Mark`:
  - whether the dated audit file opens is a parameter;
  - the callback is returned as the command it would run, and is not executed.
- `UsermacLegacy.Setup`: the configuration lookups `GetTrue("cache")` and `GetArrayOrEmpty("usermac_callback")` become parameters.
- `Usermac.Lower`: only the part of Go's Unicode lowercase mapping that `clean` can observe. That is ASCII capitals, KELVIN SIGN and LATIN CAPITAL LETTER I WITH DOT ABOVE. Every other lowercase form is dropped by the filter either way.
- `Extension.PluginContext`: only the library directory is modelled. The other context fields are not part of this model.
- `Extension.KeyValueStore.Strings`:
  - its implementation is not part of this model;
  - its behaviour is taken from its tests;
  - which line is unindented when the first pair is dropped as empty is modelled as "the first emitted line".
- `internal/server/plugins/loader.go`, `internal/management/configurator.go`, `plugins/log/plugin.go` and `core/log.go` are plugin loading, file comparison and hashing, templating, and logging. They are not modelled.
- The admin tool's process and file work is not modelled:
  - `netconf` and `all`;
  - `signal`, `kill` and `signal_all`;
  - `sha256sum` and `diff`;
  - `create_vlan_outputs`;
  - `get_file_list`;
  - the manifest existence check and the `eap_users` copy in `update`.
- Reconciliation:
  - The manifest and the directory are sets of names.
  - A manifest line containing `/` would address a nested path, which is not modelled. The lines "." and ".." are modelled: they name the users directory and its parent, which exist.
- `Configure.CheckObjects`:
  - which message is printed on failure is not modelled;
  - a VLAN, object or password table is given by its keys, the only part the check reads;
  - the nested loops over users, devices and MACs are walked as one sequence of steps in the same order.
- Rust's byte-wise `String` order is modelled as code-point order. The two agree on UTF-8 text.

## Findings

| source | as written | input that shows it | evidently intended | confidence | as-written member | corrected member |
|---|---|---|---|---|---|---|
| internal/plugins/usermac/plugin.go:62-68 | The key `clean(user) + "." + clean(calling)` is joined to the users directory with `filepath.Join`, and the result is tested with `PathExists`. The join cleans the path, so the key "." names the users directory itself and ".." its parent, and both exist. | User-Name "!" and Calling-Station-Id "!" both clean to "", giving the key "." and passing pre-authorization with no user file at all. User-Name "." with an empty Calling-Station-Id gives "..". | pass only when the directory lists a file named `<user>.<mac>` | medium, not executed (assumes `core.PathExists`, which is not part of this model, reports directories as existing) | Usermac.PreAsWritten, Usermac.DotKeyPassesAsWritten | Usermac.Pre, Usermac.PreAdmitsOnlyListedPairs |
| plugins/usermac/plugin.go:74-96 | The same key and join, tested with `goutils.PathExists`; the wrong verdict is then cached | User-Name "!" and Calling-Station-Id "!" with an empty users directory | pass only when the directory lists a file named `<user>.<mac>` | medium, not executed (assumes `goutils.PathExists` reports directories as existing) | UsermacLegacy.CheckUserMac, UsermacLegacy.DotKeyPassesAsWritten | UsermacLegacy.Pre, UsermacLegacy.FreshPassIsListed |
