/** The plugin-facing helpers of the server package exercised by
    internal/server/extension_test.go: the disable lists, key/value
    rendering for audit lines, and the context handed to plugins. */
module Extension {
  import opened Configuration

  /** `Disabled`: whether `mode` is one of the switched-off names (exact
      comparison, so "modes" is not disabled by "mode"). */
  function Disabled(mode: string, modes: seq<string>): (r: bool)
    ensures r <==> mode in modes
  {
    if |modes| == 0 then false
    else modes[0] == mode || Disabled(mode, modes[1..])
  }

  datatype KeyValue = KeyValue(key: string, value: string) {
    /** `key = value`. */
    function String(): (r: string)
      ensures |r| == |key| + 3 + |value|
      ensures r[..|key|] == key && r[|key|..|key| + 3] == " = " && r[|key| + 3..] == value
    {
      key + " = " + value
    }
  }

  /** An ordered list of pairs; with `dropEmpty` pairs with an empty value
      are not rendered. */
  datatype KeyValueStore = KeyValueStore(keyValues: seq<KeyValue>, dropEmpty: bool) {
    /** `Add` appends, duplicate keys included. */
    function Add(key: string, value: string): (r: KeyValueStore)
      ensures r.keyValues == keyValues + [KeyValue(key, value)]
      ensures r.dropEmpty == dropEmpty
    {
      this.(keyValues := keyValues + [KeyValue(key, value)])
    }

    /** Whether a pair is rendered. */
    predicate Shown(kv: KeyValue) {
      !dropEmpty || |kv.value| > 0
    }

    /** The pairs that are rendered, in order. */
    function Kept(kvs: seq<KeyValue>): seq<KeyValue>
    {
      if |kvs| == 0 then []
      else (if Shown(kvs[0]) then [kvs[0]] else []) + Kept(kvs[1..])
    }

    /** `Strings`: one line per rendered pair; every line after the first
        emitted one is indented by two spaces. */
    method Strings() returns (objs: seq<string>)
      ensures Renders(objs, Kept(keyValues))
    {
      objs := [];
      var offset := "";
      var n := 0;
      while n < |keyValues|
        invariant 0 <= n <= |keyValues|
        invariant Renders(objs, Kept(keyValues[..n]))
        invariant offset == if |objs| == 0 then "" else "  "
      {
        var k := keyValues[n];
        KeptAppend(keyValues[..n], k);
        assert keyValues[..n + 1] == keyValues[..n] + [k];
        n := n + 1;
        if dropEmpty && |k.value| == 0 {
          continue;
        }
        objs := objs + [offset + k.String()];
        offset := "  ";
      }
      assert keyValues[..n] == keyValues;
    }

    /** A pair passes the filter exactly when it is in the list and shown;
        filtering never lengthens the list. */
    lemma {:induction false} KeptMembers(kvs: seq<KeyValue>)
      ensures |Kept(kvs)| <= |kvs|
      ensures forall kv :: kv in Kept(kvs) <==> kv in kvs && Shown(kv)
      decreases |kvs|
    {
      if |kvs| > 0 {
        KeptMembers(kvs[1..]);
        assert kvs == [kvs[0]] + kvs[1..];
      }
    }

    /** Rendering keeps pairs in order: extending the list extends the
        rendered pairs by at most the new one. */
    lemma {:induction false} KeptAppend(kvs: seq<KeyValue>, kv: KeyValue)
      ensures Kept(kvs + [kv]) == Kept(kvs) + (if Shown(kv) then [kv] else [])
      decreases |kvs|
    {
      if |kvs| == 0 {
        assert Kept([kv]) == (if Shown(kv) then [kv] else []) + Kept([]);
      } else {
        var head := if Shown(kvs[0]) then [kvs[0]] else [];
        var tail := if Shown(kv) then [kv] else [];
        assert (kvs + [kv])[0] == kvs[0] && (kvs + [kv])[1..] == kvs[1..] + [kv];
        KeptAppend(kvs[1..], kv);
        calc {
          Kept(kvs + [kv]);
          head + Kept(kvs[1..] + [kv]);
          head + (Kept(kvs[1..]) + tail);
          (head + Kept(kvs[1..])) + tail;
          Kept(kvs) + tail;
        }
      }
    }
  }

  /** `lines` renders `kvs` one line per pair, the first unindented and the
      rest indented by two spaces. */
  predicate Renders(lines: seq<string>, kvs: seq<KeyValue>) {
    && |lines| == |kvs|
    && forall i :: 0 <= i < |lines| ==> lines[i] == (if i == 0 then "" else "  ") + kvs[i].String()
  }

  /** The context a plugin is set up with; only the library directory it
      finds its data under is modelled. */
  datatype PluginContext = PluginContext(lib: string) {
    /** `CloneContext`: an independent copy with the same settings. */
    function Clone(): (r: PluginContext)
      ensures r.lib == lib
    {
      PluginContext(lib)
    }
  }

  /** `NewPluginContext`: plugins find their data under the configured
      directory. */
  function NewPluginContext(config: Configuration): (r: PluginContext)
    ensures r.lib == config.dir
  {
    PluginContext(config.dir)
  }

  /** Exact comparison: "mode" is disabled by ["mode"], "modes" is not. */
  lemma DisabledIsExact()
    ensures Disabled("mode", ["mode"])
    ensures !Disabled("modes", ["mode"])
  {
    assert "modes" != "mode";
  }

  /** Two renderings of the same pairs are the same lines. */
  lemma RendersUnique(a: seq<string>, b: seq<string>, kvs: seq<KeyValue>)
    requires Renders(a, kvs) && Renders(b, kvs)
    ensures a == b
  {
  }

  /** A pair added by hand and two `Add`s of one key render as three lines,
      the duplicate key kept and the later lines indented. */
  lemma StringsKeepDuplicates()
    ensures var store := KeyValueStore([KeyValue("key", "val")], false).Add("key2", "val2").Add("key2", "val3");
            Renders(["key = val", "  key2 = val2", "  key2 = val3"], store.Kept(store.keyValues))
  {
    var store := KeyValueStore([KeyValue("key", "val")], false).Add("key2", "val2").Add("key2", "val3");
    var kvs := [KeyValue("key", "val"), KeyValue("key2", "val2"), KeyValue("key2", "val3")];
    assert store.keyValues == kvs;
    assert store.Kept(kvs[2..]) == [kvs[2]];
    assert store.Kept(kvs[1..]) == [kvs[1], kvs[2]];
    assert store.Kept(kvs) == kvs;
    assert kvs[0].String() == "key = val";
    assert "  " + kvs[1].String() == "  key2 = val2";
    assert "  " + kvs[2].String() == "  key2 = val3";
  }

  /** With `dropEmpty`, a pair with an empty value is not rendered. */
  lemma StringsDropEmpty()
    ensures var store := KeyValueStore([KeyValue("key", "val")], false).Add("key2", "val2").Add("key2", "").(dropEmpty := true);
            Renders(["key = val", "  key2 = val2"], store.Kept(store.keyValues))
  {
    var store := KeyValueStore([KeyValue("key", "val")], false).Add("key2", "val2").Add("key2", "").(dropEmpty := true);
    var kvs := [KeyValue("key", "val"), KeyValue("key2", "val2"), KeyValue("key2", "")];
    assert store.keyValues == kvs;
    assert store.Kept(kvs[2..]) == [];
    assert store.Kept(kvs[1..]) == [kvs[1]];
    assert store.Kept(kvs) == kvs[..2];
    assert kvs[0].String() == "key = val";
    assert "  " + kvs[1].String() == "  key2 = val2";
  }
}
