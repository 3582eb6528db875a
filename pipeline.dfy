/**
 * `_run`: merging the configuration fragments in order, running the
 * discovered modules against the shared tables, defaulting the reserved
 * alias, validating every alias and registering it with the host.
 */
module Pipeline {
  import opened Wrappers
  import opened Js
  import opened Grunt
  import Discovery

  /** The reserved alias that always exists after a run. */
  const ReservedAlias := "grunto"

  /**
   * `config(v)` on the aggregate configuration `m`: a plain object is
   * shallow-merged, null or undefined changes nothing, anything else is fatal.
   */
  function MergeConfig(m: map<string, Value>, v: Value): (r: Result<map<string, Value>, Error>)
    ensures r.Ok? <==> v.PlainObj? || IsNullish(v)
    ensures r.Err? ==> r.error == InvalidConfigValue
    ensures v.PlainObj? ==> r.Ok? && r.value.Keys == m.Keys + v.fields.Keys
    ensures v.PlainObj? ==> forall k :: k in v.fields ==> r.value[k] == v.fields[k]
    ensures v.PlainObj? ==> forall k :: k in m && k !in v.fields ==> r.value[k] == m[k]
    ensures IsNullish(v) ==> r == Ok(m)
  {
    if v.PlainObj? then Ok(Extend(m, v.fields))
    else if IsNullish(v) then Ok(m)
    else Err(InvalidConfigValue)
  }

  /** Successive `config(...)` calls with the fragments, in order; the first fatal one stops them. */
  function MergeAll(m: map<string, Value>, fragments: seq<Value>): Result<map<string, Value>, Error>
    decreases |fragments|
  {
    if fragments == [] then Ok(m)
    else
      var m' :- MergeConfig(m, fragments[0]);
      MergeAll(m', fragments[1..])
  }

  /** Whether fragment `f` writes key `k`. */
  predicate Writes(f: Value, k: string) {
    f.PlainObj? && k in f.fields
  }

  /** No fragment after the `i`-th writes key `k`. */
  predicate NoLaterWrite(fragments: seq<Value>, i: int, k: string) {
    forall j :: 0 <= j < |fragments| && i < j ==> !Writes(fragments[j], k)
  }

  /**
   * Later fragments win: the value of a key after the merges is the value of
   * the last fragment that writes it; a key no fragment writes keeps its value.
   */
  lemma {:induction false} MergeAllLastWriterWins(m: map<string, Value>, fragments: seq<Value>, k: string)
    requires MergeAll(m, fragments).Ok?
    ensures var r := MergeAll(m, fragments).value;
      forall i :: 0 <= i < |fragments| && Writes(fragments[i], k) && NoLaterWrite(fragments, i, k) ==>
        k in r && r[k] == fragments[i].fields[k]
    ensures var r := MergeAll(m, fragments).value;
      (forall i :: 0 <= i < |fragments| ==> !Writes(fragments[i], k)) ==>
        (k in r <==> k in m) && (k in m ==> r[k] == m[k])
    decreases |fragments|
  {
    if fragments != [] {
      var m' := MergeConfig(m, fragments[0]).value;
      var rest := fragments[1..];
      MergeAllLastWriterWins(m', rest, k);
      forall i | 0 <= i < |fragments| && Writes(fragments[i], k) && NoLaterWrite(fragments, i, k)
        ensures k in MergeAll(m, fragments).value && MergeAll(m, fragments).value[k] == fragments[i].fields[k]
      {
        if i == 0 {
          assert forall q :: 0 <= q < |rest| ==> !Writes(rest[q], k) by {
            forall q | 0 <= q < |rest| ensures !Writes(rest[q], k) {
              assert rest[q] == fragments[q + 1];
            }
          }
        } else {
          assert rest[i - 1] == fragments[i];
          assert NoLaterWrite(rest, i - 1, k) by {
            forall j | i - 1 < j < |rest| ensures !Writes(rest[j], k) {
              assert rest[j] == fragments[j + 1];
            }
          }
        }
      }
      if forall i :: 0 <= i < |fragments| ==> !Writes(fragments[i], k) {
        assert !Writes(fragments[0], k);
        assert forall q :: 0 <= q < |rest| ==> !Writes(rest[q], k) by {
          forall q | 0 <= q < |rest| ensures !Writes(rest[q], k) {
            assert rest[q] == fragments[q + 1];
          }
        }
      }
    }
  }

  /**
   * One iteration of the module loop: the module runs against the shared
   * tables, and the fragment it returns is merged with `config(...)`.
   */
  function Step(host: Host, d: Descriptor, options: map<string, Value>, t: Tables): (r: Result<Tables, Error>)
    ensures host.exec(d, t, options).Threw? ==> r == Err(ModuleThrew)
    ensures var e := host.exec(d, t, options);
      e.Effect? ==> (r.Ok? <==> e.returned.PlainObj? || IsNullish(e.returned))
    ensures var e := host.exec(d, t, options);
      r.Ok? ==> e.Effect? && r.value.aliases == e.aliases && r.value.refs == e.refs
    ensures var e := host.exec(d, t, options);
      r.Ok? ==> Ok(r.value.config) == MergeConfig(t.config, e.returned)
    ensures r.Err? ==> r.error == ModuleThrew || r.error == InvalidConfigValue
  {
    var e := host.exec(d, t, options);
    if e.Threw? then Err(ModuleThrew)
    else
      var config :- MergeConfig(t.config, e.returned);
      Ok(Tables(config, e.aliases, e.refs))
  }

  /** The module loop: every module in order, each seeing the tables its predecessors left. */
  function ExecModules(host: Host, ds: seq<Descriptor>, options: map<string, Value>, t: Tables): (r: Result<Tables, Error>)
    ensures ds == [] ==> r == Ok(t)
    ensures r.Err? ==> r.error == ModuleThrew || r.error == InvalidConfigValue
    decreases |ds|
  {
    if ds == [] then Ok(t)
    else
      var t' :- Step(host, ds[0], options, t);
      ExecModules(host, ds[1..], options, t')
  }

  /** The fragments the modules return, in module order, up to the first fatal merge. */
  function Returned(host: Host, ds: seq<Descriptor>, options: map<string, Value>, t: Tables): seq<Value>
    decreases |ds|
  {
    if ds == [] then []
    else
      var e := host.exec(ds[0], t, options);
      if e.Threw? then []
      else [e.returned] + match Step(host, ds[0], options, t)
        case Ok(t') => Returned(host, ds[1..], options, t')
        case Err(_) => []
  }

  /** The module loop merges exactly the returned fragments, one per module, in module order. */
  lemma {:induction false} ExecModulesMergesReturned(host: Host, ds: seq<Descriptor>, options: map<string, Value>, t: Tables)
    requires ExecModules(host, ds, options, t).Ok?
    ensures |Returned(host, ds, options, t)| == |ds|
    ensures MergeAll(t.config, Returned(host, ds, options, t)) == Ok(ExecModules(host, ds, options, t).value.config)
    decreases |ds|
  {
    if ds != [] {
      var t' := Step(host, ds[0], options, t).value;
      ExecModulesMergesReturned(host, ds[1..], options, t');
      var fs := Returned(host, ds, options, t);
      assert fs[1..] == Returned(host, ds[1..], options, t');
    }
  }

  /** What the pipeline has gathered when it reaches `restore()`. */
  datatype Collected = Collected(modules: seq<Descriptor>, tables: Tables)

  /**
   * Lines 159-169: merge the override shim's flushed configuration, expand
   * the scans, then run the modules against fresh, empty alias and
   * reference tables.
   */
  function Collect(host: Host, config: map<string, Value>, scans: seq<Value>, options: map<string, Value>): (r: Result<Collected, Error>)
    ensures MergeConfig(config, host.flushed).Err? ==> r == Err(InvalidConfigValue)
    ensures r.Ok? ==> MergeConfig(config, host.flushed).Ok? && Discovery.Expansion(host, scans) == Ok(r.value.modules)
    ensures r.Ok? ==> |r.value.modules| == |Discovery.Matches(host, scans)|
  {
    var flushed :- MergeConfig(config, host.flushed);
    var modules :- Discovery.Expansion(host, scans);
    var t :- ExecModules(host, modules, options, Tables(flushed, map[], map[]));
    Ok(Collected(modules, t))
  }

  /**
   * Merge order: the flushed configuration first, then every module's
   * fragment in module order; so by MergeAllLastWriterWins a key a later
   * module returns overrides the same key from an earlier one.
   */
  lemma MergeOrder(host: Host, config: map<string, Value>, scans: seq<Value>, options: map<string, Value>)
    requires Collect(host, config, scans, options).Ok?
    ensures var c := Collect(host, config, scans, options).value;
      var start := Tables(MergeConfig(config, host.flushed).value, map[], map[]);
      MergeAll(config, [host.flushed] + Returned(host, c.modules, options, start)) == Ok(c.tables.config)
  {
    var c := Collect(host, config, scans, options).value;
    var start := Tables(MergeConfig(config, host.flushed).value, map[], map[]);
    ExecModulesMergesReturned(host, c.modules, options, start);
    var fs := [host.flushed] + Returned(host, c.modules, options, start);
    assert fs[0] == host.flushed && fs[1..] == Returned(host, c.modules, options, start);
  }

  /** `if (aliases.grunto == null) aliases.grunto = [];` */
  function WithReservedAlias(aliases: map<string, seq<string>>): (r: map<string, seq<string>>)
    ensures ReservedAlias in r
    ensures ReservedAlias !in aliases ==> r[ReservedAlias] == []
    ensures forall n :: n in aliases ==> n in r && r[n] == aliases[n]
    ensures forall n :: n in r ==> n in aliases || n == ReservedAlias
  {
    if ReservedAlias in aliases then aliases else aliases[ReservedAlias := []]
  }

  /** `refs[task]` is truthy: the task was declared, or is inherited from `Object.prototype`. */
  predicate IsDefined(refs: map<string, Value>, task: string) {
    Truthy(Lookup(refs, task))
  }

  /** Every task name listed under every alias is defined. */
  predicate AllDefined(aliases: map<string, seq<string>>, refs: map<string, Value>) {
    forall n, i :: n in aliases && 0 <= i < |aliases[n]| ==> IsDefined(refs, aliases[n][i])
  }

  /** `tasks[idx]` is the first task of the list that is not defined. */
  predicate FirstUndefinedAt(tasks: seq<string>, refs: map<string, Value>, idx: int) {
    0 <= idx < |tasks| && !IsDefined(refs, tasks[idx]) &&
    forall q :: 0 <= q < idx ==> IsDefined(refs, tasks[q])
  }

  /** Each recorded call registers an alias, all of whose tasks are defined, with exactly its own list. */
  predicate RegistersOwnLists(aliases: map<string, seq<string>>, refs: map<string, Value>, calls: seq<Call>) {
    && (forall c :: c in calls ==>
          c.RegisterTask? && c.name in aliases && c.tasks == aliases[c.name] &&
          forall i :: 0 <= i < |c.tasks| ==> IsDefined(refs, c.tasks[i]))
    && (forall a, b :: 0 <= a < b < |calls| ==> calls[a].name != calls[b].name)
  }

  /**
   * What lines 177-187 do: on success every alias is registered exactly once
   * with its own list and then `initConfig` is called once with the
   * configuration; otherwise the error names an alias and the first of its
   * tasks that is not defined, and `initConfig` is never reached.
   */
  ghost predicate Registration(aliases: map<string, seq<string>>, refs: map<string, Value>, config: map<string, Value>,
                         o: Outcome<Error>, calls: seq<Call>)
  {
    && (o.Pass? <==> AllDefined(aliases, refs))
    && (o.Pass? ==>
          && |calls| >= 1
          && calls[|calls| - 1] == InitConfig(config)
          && RegistersOwnLists(aliases, refs, calls[..|calls| - 1])
          && forall n :: n in aliases ==> RegisterTask(n, aliases[n]) in calls)
    && (o.Fail? ==>
          && o.error.UndefinedTask?
          && o.error.alias in aliases
          && (exists idx :: FirstUndefinedAt(aliases[o.error.alias], refs, idx) && aliases[o.error.alias][idx] == o.error.task)
          && RegistersOwnLists(aliases, refs, calls))
  }

  /**
   * The loop over the aliases (lines 177-185) and `initConfig` (line 187),
   * recording the host calls. The aliases are visited in the object's key
   * order, which the model leaves unspecified.
   */
  method RegisterAliases(aliases: map<string, seq<string>>, refs: map<string, Value>, config: map<string, Value>)
    returns (o: Outcome<Error>, calls: seq<Call>)
    ensures Registration(aliases, refs, config, o, calls)
  {
    calls := [];
    var left := aliases.Keys;
    while left != {}
      invariant left <= aliases.Keys
      invariant RegistersOwnLists(aliases, refs, calls)
      invariant forall c :: c in calls ==> c.name !in left
      invariant forall n :: n in aliases && n !in left ==> RegisterTask(n, aliases[n]) in calls
      invariant forall n, i :: n in aliases && n !in left && 0 <= i < |aliases[n]| ==> IsDefined(refs, aliases[n][i])
      decreases left
    {
      var name :| name in left;
      var tasks := aliases[name];
      var j := 0;
      while j < |tasks|
        invariant 0 <= j <= |tasks|
        invariant forall q :: 0 <= q < j ==> IsDefined(refs, tasks[q])
      {
        if !IsDefined(refs, tasks[j]) {
          assert FirstUndefinedAt(tasks, refs, j);
          o := Fail(UndefinedTask(name, tasks[j]));
          return;
        }
        j := j + 1;
      }
      calls := calls + [RegisterTask(name, tasks)];
      left := left - {name};
    }
    calls := calls + [InitConfig(config)];
    o := Pass;
  }
}
