/**
 * `_statistic`: the counts the run reports and the "loaded but unused"
 * tasks. The timings and the text of the message are not modelled.
 */
module Statistics {
  import opened Wrappers
  import opened Js
  import opened Grunt

  datatype Stats = Stats(
    modules: nat,                 // Modules(...)
    tasks: nat,                   // Tasks(...)
    subTasks: int,                // Sub-tasks(...)
    aliases: nat,                 // Aliases(...)
    unused: Option<seq<string>>)  // Unused Tasks, when the line is written

  /** `_.difference(xs, ys)`: the elements of `xs` not in `ys`, in the order of `xs`. */
  function Difference(xs: seq<string>, ys: set<string>): (r: seq<string>)
    ensures forall x :: x in r <==> x in xs && x !in ys
    ensures |r| <= |xs|
    decreases |xs|
  {
    if xs == [] then []
    else (if xs[0] in ys then [] else [xs[0]]) + Difference(xs[1..], ys)
  }

  /** The difference keeps the order of its first argument: it distributes over concatenation. */
  lemma {:induction false} DifferenceKeepsOrder(a: seq<string>, b: seq<string>, ys: set<string>)
    ensures Difference(a + b, ys) == Difference(a, ys) + Difference(b, ys)
    decreases |a|
  {
    if a == [] {
      assert a + b == b;
    } else {
      assert (a + b)[0] == a[0] && (a + b)[1..] == a[1..] + b;
      DifferenceKeepsOrder(a[1..], b, ys);
    }
  }

  /**
   * The counts of lines 205-226: the modules, the keys of the final
   * configuration, the aliases, the references that are not aliases, and the
   * registered keys missing from the configuration, reported only when there
   * are more registered keys than configuration keys.
   */
  function Statistic(aliases: map<string, seq<string>>, refs: map<string, Value>, modules: seq<Descriptor>,
                     config: map<string, Value>, registered: seq<string>): (s: Stats)
    ensures s.modules == |modules| && s.tasks == |config| && s.aliases == |aliases|
    ensures s.subTasks == |refs| - |aliases|
    ensures s.unused.Some? <==> |registered| > |config|
    ensures s.unused.Some? ==> forall x :: x in s.unused.value <==> x in registered && x !in config
  {
    Stats(|modules|, |config|, |refs| - |aliases|, |aliases|,
          if |registered| > |config| then Some(Difference(registered, config.Keys)) else None)
  }

  predicate Distinct(xs: seq<string>) {
    forall i, j :: 0 <= i < j < |xs| ==> xs[i] != xs[j]
  }

  lemma {:induction false} DistinctCardinality(xs: seq<string>)
    requires Distinct(xs)
    ensures |set x | x in xs| == |xs|
    decreases |xs|
  {
    if xs != [] {
      var rest := xs[1..];
      assert Distinct(rest) by {
        forall i, j | 0 <= i < j < |rest| ensures rest[i] != rest[j] {
          assert rest[i] == xs[i + 1] && rest[j] == xs[j + 1];
        }
      }
      DistinctCardinality(rest);
      assert xs[0] !in rest by {
        forall i | 0 <= i < |rest| ensures rest[i] != xs[0] {
          assert rest[i] == xs[i + 1];
        }
      }
      assert (set x | x in xs) == (set x | x in rest) + {xs[0]};
    }
  }

  /**
   * The registered keys are the keys of an object, hence distinct; so when the
   * "Unused Tasks" line is written it names at least one task.
   */
  lemma ReportedUnusedIsNonEmpty(aliases: map<string, seq<string>>, refs: map<string, Value>, modules: seq<Descriptor>,
                                 config: map<string, Value>, registered: seq<string>)
    requires Distinct(registered)
    requires |registered| > |config|
    ensures Statistic(aliases, refs, modules, config, registered).unused.value != []
  {
    var unused := Statistic(aliases, refs, modules, config, registered).unused.value;
    if unused == [] {
      var names := set x | x in registered;
      DistinctCardinality(registered);
      assert names <= config.Keys;
      SubsetCardinality(names, config.Keys);
      assert false;
    }
  }

  lemma {:induction false} SubsetCardinality(a: set<string>, b: set<string>)
    requires a <= b
    ensures |a| <= |b|
  {
    assert b == a + (b - a);
  }

  /**
   * The guard compares counts, not sets: a registered task missing from the
   * configuration goes unreported when the configuration has as many keys.
   */
  lemma UnusedCanGoUnreported()
    ensures var s := Statistic(map[], map[], [], map["b" := Null], ["a"]);
      s.unused.None? && "a" in Difference(["a"], {"b"})
  {
    assert Difference(["a"], {"b"}) == ["a"];
  }
}
