/**
 * `_searchGruntOModules`: expanding the scan requests into module
 * descriptors, in scan order and then match order.
 */
module Discovery {
  import opened Wrappers
  import opened Js
  import opened Grunt
  import Prefix

  predicate StartsWithDotSlash(s: string) {
    |s| >= 2 && s[0] == '.' && s[1] == '/'
  }

  /**
   * `(scan.cwd || '').replace(/^\.\//, '') || ''`: a falsy cwd gives "",
   * a string loses one leading "./", and any other truthy value has no
   * string `replace`, which throws.
   */
  function NormaliseCwd(cwd: Value): (r: Result<string, Error>)
    ensures !Truthy(cwd) ==> r == Ok("")
    ensures cwd.Str? && StartsWithDotSlash(cwd.s) ==> r.Ok? && "./" + r.value == cwd.s
    ensures cwd.Str? && !StartsWithDotSlash(cwd.s) ==> r == Ok(cwd.s)
    ensures Truthy(cwd) && !cwd.Str? ==> r == Err(TypeError)
  {
    if !Truthy(cwd) then Ok("")
    else match cwd
      case Str(s) => Ok(if StartsWithDotSlash(s) then s[2..] else s)
      case _ => Err(TypeError)
  }

  /** `utils.joinPaths(cwd, fPath)`, made absolute with `process.cwd()` when it is not. */
  function ModulePath(host: Host, cwd: string, fPath: string): (r: string)
    ensures host.isPathAbsolute(host.joinPaths(cwd, fPath)) ==> r == host.joinPaths(cwd, fPath)
    ensures !host.isPathAbsolute(host.joinPaths(cwd, fPath)) ==> r == host.processCwd + "/" + host.joinPaths(cwd, fPath)
  {
    var joined := host.joinPaths(cwd, fPath);
    if host.isPathAbsolute(joined) then joined else host.processCwd + "/" + joined
  }

  /** The module path always ends with the joined path. */
  lemma ModulePathEndsWithJoined(host: Host, cwd: string, fPath: string)
    ensures Prefix.EndsWith(ModulePath(host, cwd, fPath), host.joinPaths(cwd, fPath))
  {
    var joined := host.joinPaths(cwd, fPath);
    var r := ModulePath(host, cwd, fPath);
    assert r == joined || r == host.processCwd + "/" + joined;
    assert r[|r| - |joined|..] == joined;
  }

  /**
   * The prefix strategy of a scan: a falsy or absent prefix derives one with
   * `getPrefix`; a regular expression is applied to the path; a string is used
   * verbatim; a function is called with `(fPath, cwd)`; anything else is fatal.
   */
  function ChoosePrefix(host: Host, prefix: Value, fPath: string, cwd: string): (r: Result<Value, Error>)
    ensures !Truthy(prefix) ==> r == Ok(Str(Prefix.GetPrefix(fPath, cwd)))
    ensures Truthy(prefix) && prefix.RegExp? ==> r == Ok(Str(host.regexReplace(prefix, fPath)))
    ensures Truthy(prefix) && prefix.Str? ==> r == Ok(prefix)
    ensures prefix.Func? ==> r == Ok(host.callPrefix(prefix, fPath, cwd))
    ensures r.Err? <==> Truthy(prefix) && !(prefix.RegExp? || prefix.Str? || prefix.Func?)
    ensures r.Err? ==> r.error == InvalidPrefixType
  {
    if !Truthy(prefix) then Ok(Str(Prefix.GetPrefix(fPath, cwd)))
    else match prefix
      case RegExp(_) => Ok(Str(host.regexReplace(prefix, fPath)))
      case Str(_) => Ok(prefix)
      case Func(_, _) => Ok(host.callPrefix(prefix, fPath, cwd))
      case _ => Err(InvalidPrefixType)
  }

  /** `scan[key]` for a scan that is not null or undefined. */
  function Field(scan: Value, key: string): Value
    requires !IsNullish(scan)
  {
    Get(scan, key).value
  }

  /**
   * The descriptor the inner loop builds for one matched path of one scan:
   * the cwd is normalised first (its TypeError wins), then the module path is
   * computed, then the prefix strategy is applied.
   */
  function Describe(host: Host, scan: Value, fPath: string): (r: Result<Descriptor, Error>)
    ensures r.Ok? ==> r.value.path == fPath
    ensures r.Ok? ==> !IsNullish(scan) && NormaliseCwd(Field(scan, "cwd")) == Ok(r.value.cwd)
    ensures r.Ok? ==> r.value.modulePath == ModulePath(host, r.value.cwd, fPath)
    ensures r.Err? <==> (IsNullish(scan) || NormaliseCwd(Field(scan, "cwd")).Err? ||
      ChoosePrefix(host, Field(scan, "prefix"), fPath, NormaliseCwd(Field(scan, "cwd")).value).Err?)
    ensures !IsNullish(scan) && NormaliseCwd(Field(scan, "cwd")).Err? ==> r == Err(TypeError)
  {
    if IsNullish(scan) then Err(TypeError)
    else
      var cwd :- NormaliseCwd(Field(scan, "cwd"));
      var modulePath := ModulePath(host, cwd, fPath);
      var prefix :- ChoosePrefix(host, Field(scan, "prefix"), fPath, cwd);
      Ok(Descriptor(fPath, modulePath, cwd, prefix))
  }

  /** The prefix a descriptor carries is the one the scan's strategy chooses for its path and cwd. */
  lemma DescribedPrefix(host: Host, scan: Value, fPath: string)
    requires Describe(host, scan, fPath).Ok?
    ensures !IsNullish(scan)
    ensures var d := Describe(host, scan, fPath).value;
      ChoosePrefix(host, Field(scan, "prefix"), fPath, d.cwd) == Ok(d.prefix)
  {
  }

  /**
   * The descriptors of the paths one scan matched, in match order; the first
   * path whose description fails stops the expansion with its error.
   */
  function DescribeAll(host: Host, scan: Value, paths: seq<string>): (r: Result<seq<Descriptor>, Error>)
    ensures r.Ok? ==> |r.value| == |paths|
    ensures r.Ok? ==> forall k :: 0 <= k < |paths| ==> r.value[k].path == paths[k]
    decreases |paths|
  {
    if paths == [] then Ok([])
    else
      var init :- DescribeAll(host, scan, paths[..|paths| - 1]);
      var last :- Describe(host, scan, paths[|paths| - 1]);
      Ok(init + [last])
  }

  /** The `k`-th descriptor of a scan is the description of its `k`-th match. */
  lemma {:induction false} DescribeAllElements(host: Host, scan: Value, paths: seq<string>)
    requires DescribeAll(host, scan, paths).Ok?
    ensures forall k :: 0 <= k < |paths| ==> Describe(host, scan, paths[k]) == Ok(DescribeAll(host, scan, paths).value[k])
    decreases |paths|
  {
    if paths != [] {
      DescribeAllElements(host, scan, paths[..|paths| - 1]);
    }
  }

  /** When every matched path can be described, so can the scan. */
  lemma {:induction false} DescribeAllSucceeds(host: Host, scan: Value, paths: seq<string>)
    requires forall k :: 0 <= k < |paths| ==> Describe(host, scan, paths[k]).Ok?
    ensures DescribeAll(host, scan, paths).Ok?
    decreases |paths|
  {
    if paths != [] {
      DescribeAllSucceeds(host, scan, paths[..|paths| - 1]);
    }
  }

  /** The first path whose description fails decides the scan's error. */
  lemma {:induction false} DescribeAllFirstError(host: Host, scan: Value, paths: seq<string>, k: nat)
    requires k < |paths|
    requires forall q :: 0 <= q < k ==> Describe(host, scan, paths[q]).Ok?
    requires Describe(host, scan, paths[k]).Err?
    ensures DescribeAll(host, scan, paths) == Err(Describe(host, scan, paths[k]).error)
    decreases |paths|
  {
    var init := paths[..|paths| - 1];
    if k == |paths| - 1 {
      DescribeAllSucceeds(host, scan, init);
    } else {
      DescribeAllFirstError(host, scan, init, k);
    }
  }

  /**
   * Describing the `j`-th match after the first `j` succeeded: a failure is
   * the scan's error, a success extends the descriptors by one.
   */
  lemma DescribeAllNext(host: Host, scan: Value, paths: seq<string>, j: nat)
    requires j < |paths|
    requires DescribeAll(host, scan, paths[..j]).Ok?
    ensures Describe(host, scan, paths[j]).Err? ==>
      DescribeAll(host, scan, paths) == Err(Describe(host, scan, paths[j]).error)
    ensures Describe(host, scan, paths[j]).Ok? ==>
      DescribeAll(host, scan, paths[..j + 1])
        == Ok(DescribeAll(host, scan, paths[..j]).value + [Describe(host, scan, paths[j]).value])
  {
    if Describe(host, scan, paths[j]).Err? {
      DescribeAllElements(host, scan, paths[..j]);
      DescribeAllFirstError(host, scan, paths, j);
    }
    assert paths[..j + 1][..j] == paths[..j];
  }

  /** One scan: reading `scan.src` throws on null or undefined; otherwise its matches are described. */
  function ExpandScan(host: Host, scan: Value): (r: Result<seq<Descriptor>, Error>)
    ensures IsNullish(scan) ==> r == Err(TypeError)
    ensures r.Ok? ==> |r.value| == |host.expand(scan)|
    ensures r.Ok? ==> forall k :: 0 <= k < |r.value| ==> r.value[k].path == host.expand(scan)[k]
  {
    if IsNullish(scan) then Err(TypeError) else DescribeAll(host, scan, host.expand(scan))
  }

  /** Two results in sequence: the first error, or both values concatenated. */
  function Then(x: Result<seq<Descriptor>, Error>, y: Result<seq<Descriptor>, Error>): Result<seq<Descriptor>, Error> {
    match x
    case Err(e) => Err(e)
    case Ok(u) =>
      match y
      case Err(e) => Err(e)
      case Ok(v) => Ok(u + v)
  }

  /** All scans, in scan order; the first failing scan stops the expansion with its error. */
  function Expansion(host: Host, scans: seq<Value>): (r: Result<seq<Descriptor>, Error>)
    ensures r.Ok? ==> |r.value| == |Matches(host, scans)|
    decreases |scans|
  {
    if scans == [] then Ok([])
    else Then(Expansion(host, scans[..|scans| - 1]), ExpandScan(host, scans[|scans| - 1]))
  }

  lemma ThenAssociative(x: Result<seq<Descriptor>, Error>, y: Result<seq<Descriptor>, Error>, z: Result<seq<Descriptor>, Error>)
    ensures Then(Then(x, y), z) == Then(x, Then(y, z))
  {
    if x.Ok? && y.Ok? && z.Ok? {
      assert (x.value + y.value) + z.value == x.value + (y.value + z.value);
    }
  }

  /**
   * Descriptor order is scan order: the descriptors of `a + b` are those of
   * `a` followed by those of `b`, and an error in `a` comes before any in `b`.
   */
  lemma {:induction false} ExpansionConcat(host: Host, a: seq<Value>, b: seq<Value>)
    ensures Expansion(host, a + b) == Then(Expansion(host, a), Expansion(host, b))
    decreases |b|
  {
    if b == [] {
      assert a + b == a;
      if Expansion(host, a).Ok? {
        assert Expansion(host, a).value + [] == Expansion(host, a).value;
      }
    } else {
      var b' := b[..|b| - 1];
      var last := b[|b| - 1];
      assert (a + b)[..|a + b| - 1] == a + b';
      assert (a + b)[|a + b| - 1] == last;
      ExpansionConcat(host, a, b');
      ThenAssociative(Expansion(host, a), Expansion(host, b'), ExpandScan(host, last));
    }
  }

  /** The descriptors of a single scan are its matches, described one by one. */
  lemma ExpansionOfOneScan(host: Host, scan: Value)
    ensures Expansion(host, [scan]) == ExpandScan(host, scan)
  {
    assert [scan][..0] == [];
    if ExpandScan(host, scan).Ok? {
      assert [] + ExpandScan(host, scan).value == ExpandScan(host, scan).value;
    }
  }

  /** A scan whose cwd is usable: not null or undefined, and its cwd falsy or a string. */
  predicate HasUsableCwd(scan: Value) {
    !IsNullish(scan) && NormaliseCwd(Field(scan, "cwd")).Ok?
  }

  /** A non-empty string prefix is used verbatim for every file the scan matches. */
  lemma VerbatimPrefix(host: Host, scan: Value)
    requires HasUsableCwd(scan)
    requires Field(scan, "prefix").Str? && Truthy(Field(scan, "prefix"))
    ensures ExpandScan(host, scan).Ok?
    ensures forall d :: d in ExpandScan(host, scan).value ==> d.prefix == Field(scan, "prefix")
  {
    DescribeAllSucceeds(host, scan, host.expand(scan));
    DescribeAllElements(host, scan, host.expand(scan));
  }

  /**
   * A falsy or absent prefix derives each file's prefix with `getPrefix`
   * from its relative path, and every descriptor carries the normalised cwd.
   */
  lemma DerivedPrefix(host: Host, scan: Value)
    requires HasUsableCwd(scan)
    requires !Truthy(Field(scan, "prefix"))
    ensures ExpandScan(host, scan).Ok?
    ensures var ds := ExpandScan(host, scan).value;
      |ds| == |host.expand(scan)| &&
      forall k :: 0 <= k < |ds| ==>
        && ds[k].path == host.expand(scan)[k]
        && ds[k].cwd == NormaliseCwd(Field(scan, "cwd")).value
        && ds[k].prefix == Str(Prefix.GetPrefix(ds[k].path, ds[k].cwd))
  {
    DescribeAllSucceeds(host, scan, host.expand(scan));
    DescribeAllElements(host, scan, host.expand(scan));
  }

  /**
   * A truthy prefix that is not a regular expression, a string or a function
   * is fatal as soon as the scan matches a file, and harmless when it matches none.
   */
  lemma InvalidPrefixIsFatal(host: Host, scan: Value)
    requires HasUsableCwd(scan)
    requires var p := Field(scan, "prefix"); Truthy(p) && !(p.RegExp? || p.Str? || p.Func?)
    ensures |host.expand(scan)| > 0 ==> ExpandScan(host, scan) == Err(InvalidPrefixType)
    ensures |host.expand(scan)| == 0 ==> ExpandScan(host, scan) == Ok([])
  {
    if |host.expand(scan)| > 0 {
      DescribeAllFirstError(host, scan, host.expand(scan), 0);
    }
  }

  /** The relative paths all scans match, in scan order and then match order. */
  function Matches(host: Host, scans: seq<Value>): seq<string>
    decreases |scans|
  {
    if scans == [] then [] else Matches(host, scans[..|scans| - 1]) + host.expand(scans[|scans| - 1])
  }

  /** One descriptor per match, in scan order and then match order. */
  lemma {:induction false} ExpansionFollowsMatches(host: Host, scans: seq<Value>)
    requires Expansion(host, scans).Ok?
    ensures var ds := Expansion(host, scans).value;
      |ds| == |Matches(host, scans)| &&
      forall k :: 0 <= k < |ds| ==> ds[k].path == Matches(host, scans)[k]
    decreases |scans|
  {
    if scans != [] {
      var init := scans[..|scans| - 1];
      var last := scans[|scans| - 1];
      var x := Expansion(host, init);
      var y := ExpandScan(host, last);
      assert Expansion(host, scans) == Then(x, y);
      assert x.Ok? && y.Ok?;
      ExpansionFollowsMatches(host, init);
      assert Matches(host, scans) == Matches(host, init) + host.expand(last);
      PathsConcat(x.value, y.value, Matches(host, init), host.expand(last));
    }
  }

  /** Descriptors carrying paths `p` and `q`, concatenated, carry `p + q`. */
  lemma PathsConcat(u: seq<Descriptor>, v: seq<Descriptor>, p: seq<string>, q: seq<string>)
    requires |u| == |p| && forall k :: 0 <= k < |u| ==> u[k].path == p[k]
    requires |v| == |q| && forall k :: 0 <= k < |v| ==> v[k].path == q[k]
    ensures |u + v| == |p + q| && forall k :: 0 <= k < |u + v| ==> (u + v)[k].path == (p + q)[k]
  {
    forall k | 0 <= k < |u + v|
      ensures (u + v)[k].path == (p + q)[k]
    {
      if k >= |u| {
        assert (u + v)[k] == v[k - |u|] && (p + q)[k] == q[k - |u|];
      }
    }
  }

  /** The inner loop of `_searchGruntOModules`: one descriptor per matched path of one scan. */
  method DescribeMatches(host: Host, scan: Value, paths: seq<string>) returns (r: Result<seq<Descriptor>, Error>)
    ensures r == DescribeAll(host, scan, paths)
  {
    var found: seq<Descriptor> := [];
    var j := 0;
    while j < |paths|
      invariant 0 <= j <= |paths|
      invariant DescribeAll(host, scan, paths[..j]) == Ok(found)
    {
      var d := Describe(host, scan, paths[j]);
      DescribeAllNext(host, scan, paths, j);
      if d.Err? {
        return Err(d.error);
      }
      found := found + [d.value];
      j := j + 1;
    }
    assert paths[..j] == paths;
    return Ok(found);
  }

  /** One more scan extends the expansion of a prefix of the scans. */
  lemma ExpansionStep(host: Host, scans: seq<Value>, i: nat)
    requires i < |scans|
    ensures Expansion(host, scans[..i + 1]) == Then(Expansion(host, scans[..i]), ExpandScan(host, scans[i]))
  {
    assert scans[..i + 1][..i] == scans[..i];
  }

  /** An error in the expansion of a prefix of the scans is the error of the whole expansion. */
  lemma ExpansionStopsAt(host: Host, scans: seq<Value>, n: nat)
    requires n <= |scans|
    requires Expansion(host, scans[..n]).Err?
    ensures Expansion(host, scans) == Expansion(host, scans[..n])
  {
    ExpansionConcat(host, scans[..n], scans[n..]);
    assert scans[..n] + scans[n..] == scans;
  }

  /** `_searchGruntOModules`: the loop over the scans, in order. */
  method SearchModules(host: Host, scans: seq<Value>) returns (r: Result<seq<Descriptor>, Error>)
    ensures r == Expansion(host, scans)
  {
    var modules: seq<Descriptor> := [];
    var i := 0;
    while i < |scans|
      invariant 0 <= i <= |scans|
      invariant Expansion(host, scans[..i]) == Ok(modules)
    {
      var scan := scans[i];
      ExpansionStep(host, scans, i);
      var found: Result<seq<Descriptor>, Error>;
      if IsNullish(scan) {
        found := Err(TypeError);
      } else {
        found := DescribeMatches(host, scan, host.expand(scan));
      }
      if found.Err? {
        ExpansionStopsAt(host, scans, i + 1);
        return Err(found.error);
      }
      modules := modules + found.value;
      i := i + 1;
    }
    assert scans[..i] == scans;
    return Ok(modules);
  }
}
