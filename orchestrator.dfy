/**
 * The `GruntO` object and the exported factory: the accumulating builder
 * calls `scan`, `context` and `config`, the run that ties discovery, the
 * module loop, registration and the statistics together, and the plugin
 * options of the factory.
 */
module Orchestrator {
  import opened Wrappers
  import opened Js
  import opened Grunt
  import Discovery
  import Pipeline
  import Statistics

  class GruntO {
    /** Scan descriptors, in the order they were added. */
    var scans: seq<Value>
    /** The options passed to every module. */
    var options: map<string, Value>
    /** The aggregate task configuration. */
    var config: map<string, Value>
    /** Whether the override shim installed by the constructor is still in place: `restore()` has not run. */
    var intercepting: bool

    /** A fresh instance: no scans, no options, an empty configuration, the shim installed. */
    constructor ()
      ensures scans == [] && options == map[] && config == map[] && intercepting
    {
      scans := [];
      options := map[];
      config := map[];
      intercepting := true;
    }

    /**
     * `scan(files)`: an array contributes its elements, a plain object or a
     * string is added whole, anything else is fatal and adds nothing.
     */
    method Scan(files: Value) returns (o: Outcome<Error>)
      modifies this
      ensures files.Arr? ==> o == Pass && scans == old(scans) + files.elems
      ensures (files.PlainObj? || files.Str?) ==> o == Pass && scans == old(scans) + [files]
      ensures !(files.Arr? || files.PlainObj? || files.Str?) ==> o == Fail(InvalidScanType) && scans == old(scans)
      ensures options == old(options) && config == old(config) && intercepting == old(intercepting)
    {
      if files.Arr? {
        scans := scans + files.elems;
        o := Pass;
      } else if files.PlainObj? || files.Str? {
        scans := scans + [files];
        o := Pass;
      } else {
        o := Fail(InvalidScanType);
      }
    }

    /** `context(params)`: a plain object is shallow-merged into the options; anything else is fatal. */
    method Context(params: Value) returns (o: Outcome<Error>)
      modifies this
      ensures params.PlainObj? ==> o == Pass && options == Extend(old(options), params.fields)
      ensures !params.PlainObj? ==> o == Fail(InvalidOptionsType) && options == old(options)
      ensures scans == old(scans) && config == old(config) && intercepting == old(intercepting)
    {
      if params.PlainObj? {
        options := Extend(options, params.fields);
        o := Pass;
      } else {
        o := Fail(InvalidOptionsType);
      }
    }

    /** `config(v)`: the configuration becomes `MergeConfig` of the old one, or stays when that is fatal. */
    method Config(v: Value) returns (o: Outcome<Error>)
      modifies this
      ensures var r := Pipeline.MergeConfig(old(config), v);
        (r.Ok? ==> o == Pass && config == r.value) && (r.Err? ==> o == Fail(r.error) && config == old(config))
      ensures scans == old(scans) && options == old(options) && intercepting == old(intercepting)
    {
      var r := Pipeline.MergeConfig(config, v);
      if r.Ok? {
        config := r.value;
        o := Pass;
      } else {
        o := Fail(r.error);
      }
    }

    /**
     * `_run()`. Until `restore()` it is `Pipeline.Collect`: a fatal error
     * there stops the run with nothing registered and the shim still
     * installed. After it, the reserved alias is defaulted, the aliases are
     * validated and registered, and on success the statistics are computed
     * from the final tables.
     */
    method Run(host: Host) returns (o: Outcome<Error>, calls: seq<Call>, stats: Option<Statistics.Stats>)
      modifies this
      ensures scans == old(scans) && options == old(options)
      ensures var c := Pipeline.Collect(host, old(config), old(scans), old(options));
        c.Err? ==> o == Fail(c.error) && calls == [] && stats == None && intercepting == old(intercepting)
      ensures var c := Pipeline.Collect(host, old(config), old(scans), old(options));
        c.Ok? ==> config == c.value.tables.config && !intercepting
      ensures var c := Pipeline.Collect(host, old(config), old(scans), old(options));
        c.Ok? ==> var aliases := Pipeline.WithReservedAlias(c.value.tables.aliases);
          Pipeline.Registration(aliases, c.value.tables.refs, config, o, calls)
      ensures var c := Pipeline.Collect(host, old(config), old(scans), old(options));
        c.Ok? ==> var aliases := Pipeline.WithReservedAlias(c.value.tables.aliases);
          stats == if o.Pass? then
          Some(Statistics.Statistic(aliases, c.value.tables.refs, c.value.modules, config, host.registered))
        else None
    {
      calls := [];
      stats := None;
      o := Config(host.flushed);
      if o.Fail? {
        return;
      }
      var found := Discovery.SearchModules(host, scans);
      if found.Err? {
        o := Fail(found.error);
        return;
      }
      var modules := found.value;
      ghost var start := Tables(config, map[], map[]);
      var aliases: map<string, seq<string>> := map[];
      var refs: map<string, Value> := map[];
      var i := 0;
      while i < |modules|
        invariant 0 <= i <= |modules|
        invariant scans == old(scans) && options == old(options) && intercepting == old(intercepting)
        invariant Pipeline.ExecModules(host, modules, options, start)
          == Pipeline.ExecModules(host, modules[i..], options, Tables(config, aliases, refs))
      {
        var effect := host.exec(modules[i], Tables(config, aliases, refs), options);
        if effect.Threw? {
          o := Fail(ModuleThrew);
          return;
        }
        aliases, refs := effect.aliases, effect.refs;
        o := Config(effect.returned);
        if o.Fail? {
          return;
        }
        assert modules[i..][1..] == modules[i + 1..];
        i := i + 1;
      }
      intercepting := false;
      aliases := Pipeline.WithReservedAlias(aliases);
      o, calls := Pipeline.RegisterAliases(aliases, refs, config);
      if o.Pass? {
        stats := Some(Statistics.Statistic(aliases, refs, modules, config, host.registered));
      }
    }
  }

  /**
   * `_.extend({autoload: true, timeMetric: true}, options)`: the own
   * enumerable properties of the options override the two defaults.
   */
  function FactoryOptions(options: Value): (r: map<string, Value>)
    ensures "autoload" in r && "timeMetric" in r
    ensures r.Keys == OwnProps(options).Keys + {"autoload", "timeMetric"}
    ensures forall k :: k in OwnProps(options) ==> r[k] == OwnProps(options)[k]
    ensures "autoload" !in OwnProps(options) ==> r["autoload"] == Bool(true)
    ensures "timeMetric" !in OwnProps(options) ==> r["timeMetric"] == Bool(true)
  {
    Extend(map["autoload" := Bool(true), "timeMetric" := Bool(true)], OwnProps(options))
  }

  /**
   * `_.isEmpty(v)`: an array or a string is empty when it has no elements,
   * an object or a function when it has no own enumerable properties, and
   * every other value (null, undefined, booleans, numbers) is empty.
   */
  function IsEmpty(v: Value): (e: bool)
    ensures !Truthy(v) ==> e
    ensures v.Arr? ==> (e <==> v.elems == [])
    ensures v.Str? ==> (e <==> v.s == "")
    ensures v.PlainObj? || v.Func? || v.Other? ==> (e <==> OwnProps(v) == map[])
    ensures v.Bool? || v.Num? || v.RegExp? ==> e
  {
    match v
    case Arr(elems) => elems == []
    case Str(s) => s == []
    case PlainObj(_) => OwnProps(v) == map[]
    case Func(_, _) => OwnProps(v) == map[]
    case Other(_) => OwnProps(v) == map[]
    case _ => true
  }

  /** Which plugins the factory loads: the argument `load-grunt-tasks` gets, and whether `time-grunt` runs. */
  datatype Plugins = Plugins(autoload: Option<Value>, timeMetric: bool)

  /**
   * Lines 247-253: `load-grunt-tasks` runs when `autoload` is truthy, with
   * `{}` when the value is empty (so `true` means defaults) and with the
   * value itself otherwise; `time-grunt` runs when `timeMetric` is truthy.
   */
  function PluginPlan(options: Value): (p: Plugins)
    ensures var opts := FactoryOptions(options);
      && (p.autoload.Some? <==> Truthy(opts["autoload"]))
      && (p.autoload.Some? && IsEmpty(opts["autoload"]) ==> p.autoload.value == PlainObj(map[]))
      && (p.autoload.Some? && !IsEmpty(opts["autoload"]) ==> p.autoload.value == opts["autoload"])
      && (p.timeMetric <==> Truthy(opts["timeMetric"]))
  {
    var opts := FactoryOptions(options);
    var autoload := opts["autoload"];
    Plugins(
      if !Truthy(autoload) then None else if IsEmpty(autoload) then Some(PlainObj(map[])) else Some(autoload),
      Truthy(opts["timeMetric"]))
  }

  /** Without options both plugins run, `load-grunt-tasks` with its defaults. */
  lemma DefaultPlugins(options: Value)
    requires IsNullish(options)
    ensures PluginPlan(options) == Plugins(Some(PlainObj(map[])), true)
  {
  }

  /** `autoload: false` or `timeMetric: 0` switches the plugin off; the other keeps its default. */
  lemma DisabledPlugins(fields: map<string, Value>)
    requires "autoload" in fields && !Truthy(fields["autoload"])
    requires "timeMetric" !in fields
    ensures PluginPlan(PlainObj(fields)) == Plugins(None, true)
  {
  }

  /** A builder chain: `scan` accumulates in call order, arrays contributing element by element. */
  method ScanOrder() {
    var g := new GruntO();
    var a := Str("a/*.js");
    var b := PlainObj(map["src" := Str("b/*.js")]);
    var c := Str("c/*.js");
    var o1 := g.Scan(a);
    var o2 := g.Scan(Arr([b, c]));
    var o3 := g.Scan(Num(3));
    var o4 := g.Scan(a);
    assert o1 == Pass && o2 == Pass && o3 == Fail(InvalidScanType) && o4 == Pass;
    assert g.scans == [a, b, c, a];
  }

  /** Configuration fragments merge shallowly, the later value of a key winning. */
  method ConfigOverride() {
    var g := new GruntO();
    var o1 := g.Config(PlainObj(map["a" := Num(1)]));
    var o2 := g.Config(Null);
    var o3 := g.Config(PlainObj(map["a" := Num(2), "b" := Num(3)]));
    var o4 := g.Config(Num(7));
    assert o1 == Pass && o2 == Pass && o3 == Pass && o4 == Fail(InvalidConfigValue);
    assert g.config.Keys == {"a", "b"};
    assert g.config["a"] == Num(2) && g.config["b"] == Num(3);
  }
}
