/** The daemon configuration of internal/core/configuration.go and the
    defaults it is completed with after loading. YAML decoding and `Dump`
    are not modelled; the raw document is kept as opaque bytes. */
module Configuration {
  import opened Radius

  datatype Internals = Internals(
    noInterrupt: bool,
    noLogs: bool,
    logs: int,
    lifespan: int,
    spanCheck: int)

  /** Per-capability lists of plugin names to switch off. */
  datatype Disable = Disable(
    accounting: seq<string>,
    preauth: seq<string>,
    trace: seq<string>,
    postauth: seq<string>)

  datatype Configuration = Configuration(
    debug: bool,
    cache: bool,
    host: string,
    accounting: bool,
    to: int,
    bind: int,
    dir: string,
    noReject: bool,
    log: string,
    plugins: seq<string>,
    internals: Internals,
    disable: Disable,
    backing: Bytes)

  const DefaultHost := "localhost"
  const DefaultDir := "/var/lib/radiucal/"
  const DefaultLog := "/var/log/radiucal/"
  const AuthPort := 1812
  const AcctPort := 1813
  const DefaultLogs := 10
  const DefaultLifespan := 24
  const DefaultSpanCheck := 1

  /** `defaultString`: an empty value is replaced, any other is kept. */
  function DefaultString(given: string, dflt: string): (r: string)
    ensures |given| > 0 ==> r == given
    ensures |given| == 0 ==> r == dflt
  {
    if |given| == 0 then dflt else given
  }

  /** A positive setting is kept, anything else replaced. */
  function DefaultPositive(given: int, dflt: int): (r: int)
    ensures given > 0 ==> r == given
    ensures given <= 0 ==> r == dflt
  {
    if given <= 0 then dflt else given
  }

  /** Every setting `Defaults` fills in has a usable value. */
  predicate Completed(c: Configuration) {
    && |c.host| > 0 && |c.dir| > 0 && |c.log| > 0
    && c.bind > 0
    && c.internals.logs > 0 && c.internals.lifespan > 0 && c.internals.spanCheck > 0
  }

  /** `Configuration.Defaults`: fill in the host, directories, listening
      port (by accounting mode) and log-rotation settings that were left
      unset, and keep the raw document. Set values and every other field
      are left alone. */
  function Defaults(c: Configuration, backing: Bytes): (r: Configuration)
    ensures Completed(r)
    ensures r.backing == backing
    ensures |c.host| > 0 ==> r.host == c.host
    ensures |c.dir| > 0 ==> r.dir == c.dir
    ensures |c.log| > 0 ==> r.log == c.log
    ensures c.bind > 0 ==> r.bind == c.bind
    ensures c.bind <= 0 ==> r.bind == if c.accounting then AcctPort else AuthPort
    ensures c.internals.logs > 0 ==> r.internals.logs == c.internals.logs
    ensures c.internals.lifespan > 0 ==> r.internals.lifespan == c.internals.lifespan
    ensures c.internals.spanCheck > 0 ==> r.internals.spanCheck == c.internals.spanCheck
    ensures r.(host := c.host, dir := c.dir, log := c.log, bind := c.bind,
               internals := c.internals, backing := c.backing) == c
    ensures r.internals.(logs := c.internals.logs, lifespan := c.internals.lifespan,
                         spanCheck := c.internals.spanCheck) == c.internals
  {
    c.(host := DefaultString(c.host, DefaultHost),
       dir := DefaultString(c.dir, DefaultDir),
       log := DefaultString(c.log, DefaultLog),
       bind := DefaultPositive(c.bind, if c.accounting then AcctPort else AuthPort),
       internals := c.internals.(
         logs := DefaultPositive(c.internals.logs, DefaultLogs),
         lifespan := DefaultPositive(c.internals.lifespan, DefaultLifespan),
         spanCheck := DefaultPositive(c.internals.spanCheck, DefaultSpanCheck)),
       backing := backing)
  }

  /** Completing a configuration twice changes nothing more. */
  lemma DefaultsIdempotent(c: Configuration, backing: Bytes)
    ensures Defaults(Defaults(c, backing), backing) == Defaults(c, backing)
  {
  }

  /** A configuration that is already complete only has its raw document
      replaced. */
  lemma DefaultsFixCompleted(c: Configuration, backing: Bytes)
    requires Completed(c)
    ensures Defaults(c, backing) == c.(backing := backing)
  {
  }
}
