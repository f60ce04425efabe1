/** The records a path-scoped registrar collects, and what a configuration
    module contributes to them.

    A configuration module is written by the application: its
    `registerConfigurables` makes calls on the registrar it is handed.  Here a
    module is the list of those calls, in order; `Expand` is what they append
    to the pending list when the module runs under a given path prefix.  An
    import is itself a call carrying the imported module, so modules nest. */
module KonfigBindings {
  import opened KonfigPaths

  /** A Java class descriptor (`Class<*>`), identified by its name. */
  datatype Klass = Klass(name: string)

  /** One pending record: deserialise the subtree at `path` into `klass`. */
  datatype KonfigureClassAtPath = KonfigureClassAtPath(path: string, klass: Klass)

  /** The calls a module's `registerConfigurables` makes, in order. */
  datatype KonfigModule = KonfigModule(calls: seq<RegistrarCall>)

  datatype RegistrarCall =
    | Import(atPath: string, imported: KonfigModule)
    | BindRoot(klass: Klass)
    | BindPath(configPath: string, klass: Klass)

  /** The prefix of the registrar an import hands to the imported module. */
  function ChildPrefix(prefix: seq<string>, atPath: string): (r: seq<string>)
    ensures AllDotFree(prefix) ==> AllDotFree(r)
    ensures |r| > |prefix| && r[..|prefix|] == prefix
  {
    SplitDotFree(atPath);
    var r := prefix + Split(atPath);
    assert AllDotFree(prefix) ==> AllDotFree(r) by {
      if AllDotFree(prefix) {
        forall k | 0 <= k < |r| ensures DotFree(r[k]) {
          if k >= |prefix| { assert r[k] == Split(atPath)[k - |prefix|]; }
        }
      }
    }
    r
  }

  /** The path of a root binding under `prefix`. */
  function RootPath(prefix: seq<string>): string {
    FullPath(prefix)
  }

  /** The path of a binding at `configPath` under `prefix`. */
  function PathAt(prefix: seq<string>, configPath: string): string {
    FullPath(prefix + Split(configPath))
  }

  /** The records a module appends, in order, when run under `prefix`. */
  function Expand(prefix: seq<string>, m: KonfigModule): seq<KonfigureClassAtPath>
    decreases m
  {
    ExpandCalls(prefix, m.calls)
  }

  function ExpandCalls(prefix: seq<string>, cs: seq<RegistrarCall>): seq<KonfigureClassAtPath>
    decreases cs
  {
    if cs == [] then [] else ExpandCall(prefix, cs[0]) + ExpandCalls(prefix, cs[1..])
  }

  function ExpandCall(prefix: seq<string>, c: RegistrarCall): seq<KonfigureClassAtPath>
    decreases c
  {
    match c
    case Import(atPath, m) => Expand(ChildPrefix(prefix, atPath), m)
    case BindRoot(klass) => [KonfigureClassAtPath(RootPath(prefix), klass)]
    case BindPath(configPath, klass) => [KonfigureClassAtPath(PathAt(prefix, configPath), klass)]
  }

  /** Every record's path is normalised: no empty or blank segment, no stray '.'. */
  ghost predicate AllPathsNormalized(bs: seq<KonfigureClassAtPath>) {
    forall i :: 0 <= i < |bs| ==> IsNormalizedPath(bs[i].path) && NoStrayDots(bs[i].path)
  }

  lemma AllPathsNormalizedConcat(a: seq<KonfigureClassAtPath>, b: seq<KonfigureClassAtPath>)
    requires AllPathsNormalized(a) && AllPathsNormalized(b)
    ensures AllPathsNormalized(a + b)
  {
    var ab := a + b;
    forall i | 0 <= i < |ab| ensures IsNormalizedPath(ab[i].path) && NoStrayDots(ab[i].path) {
      if i < |a| { assert ab[i] == a[i]; } else { assert ab[i] == b[i - |a|]; }
    }
  }

  /** The records of a module mounted below `base`. */
  function Mount(base: string, bs: seq<KonfigureClassAtPath>): (r: seq<KonfigureClassAtPath>)
    ensures |r| == |bs|
    ensures forall i :: 0 <= i < |bs| ==> r[i] == KonfigureClassAtPath(JoinPath(base, bs[i].path), bs[i].klass)
  {
    if bs == [] then []
    else [KonfigureClassAtPath(JoinPath(base, bs[0].path), bs[0].klass)] + Mount(base, bs[1..])
  }

  // ---------------------------------------------------------------------

  /** Running two call lists one after the other appends both contributions. */
  lemma {:induction false} ExpandCallsConcat(prefix: seq<string>, a: seq<RegistrarCall>, b: seq<RegistrarCall>)
    ensures ExpandCalls(prefix, a + b) == ExpandCalls(prefix, a) + ExpandCalls(prefix, b)
  {
    if a == [] {
      assert a + b == b;
    } else {
      assert (a + b)[0] == a[0];
      assert (a + b)[1..] == a[1..] + b;
      ExpandCallsConcat(prefix, a[1..], b);
    }
  }

  /** A root binding and a binding at a path each add exactly one record, and
      an import adds exactly what the imported module adds under the child
      prefix: the call list is processed in order. */
  lemma ExpandCallsSnoc(prefix: seq<string>, cs: seq<RegistrarCall>, c: RegistrarCall)
    ensures ExpandCalls(prefix, cs + [c]) == ExpandCalls(prefix, cs) + ExpandCall(prefix, c)
  {
    ExpandCallsConcat(prefix, cs, [c]);
    assert [c][1..] == [];
  }

  /** Importing a module at `atPath` whose only call binds at the root records
      the same path as binding at `atPath` directly. */
  lemma ImportedRootIsBindAtPath(prefix: seq<string>, atPath: string, klass: Klass)
    ensures ExpandCall(prefix, Import(atPath, KonfigModule([BindRoot(klass)])))
         == ExpandCall(prefix, BindPath(atPath, klass))
  {
    var child := ChildPrefix(prefix, atPath);
    assert [BindRoot(klass)][1..] == [];
    assert ExpandCalls(child, [BindRoot(klass)]) == ExpandCall(child, BindRoot(klass)) + ExpandCalls(child, []);
  }

  /** Nested imports compose by concatenating prefixes: importing at "a" a
      module that imports at "b" a module binding `klass` at its root records
      the path "a.b" under an empty prefix. */
  lemma NestedImportsCompose(klass: Klass)
    ensures ExpandCall([], Import("a", KonfigModule([Import("b", KonfigModule([BindRoot(klass)]))])))
         == [KonfigureClassAtPath("a.b", klass)]
  {
    assert DotFree("a") && DotFree("b");
    SplitDotFreeWhole("a");
    SplitDotFreeWhole("b");
    var inner := KonfigModule([BindRoot(klass)]);
    assert [Import("b", inner)][1..] == [] && [BindRoot(klass)][1..] == [];
    var pa := ChildPrefix([], "a");
    var pab := ChildPrefix(pa, "b");
    assert pa == ["a"];
    assert pab == ["a", "b"];
    var outer := KonfigModule([Import("b", inner)]);
    assert ExpandCall([], Import("a", outer)) == Expand(pa, outer) == ExpandCalls(pa, outer.calls);
    assert ExpandCalls(pa, outer.calls) == ExpandCall(pa, Import("b", inner)) + ExpandCalls(pa, []);
    assert ExpandCall(pa, Import("b", inner)) == Expand(pab, inner) == ExpandCalls(pab, inner.calls);
    assert ExpandCalls(pab, inner.calls) == ExpandCall(pab, BindRoot(klass)) + ExpandCalls(pab, []);
    FullPathDotFree(["a", "b"]);
    assert !IsBlank("a") by { assert "a"[0] == 'a'; }
    assert !IsBlank("b") by { assert "b"[0] == 'b'; }
    assert ["a", "b"][1..] == ["b"] && ["b"][1..] == [];
    assert KeepNotBlank(["a", "b"]) == ["a", "b"];
    assert Join(["a", "b"]) == "a.b";
  }

  // ---------------------------------------------------------------------
  // Every recorded path is normalised.

  lemma {:induction false} ExpandNormalized(prefix: seq<string>, m: KonfigModule)
    requires AllDotFree(prefix)
    ensures AllPathsNormalized(Expand(prefix, m))
    decreases m, 2
  {
    ExpandCallsNormalized(prefix, m.calls);
  }

  lemma {:induction false} ExpandCallsNormalized(prefix: seq<string>, cs: seq<RegistrarCall>)
    requires AllDotFree(prefix)
    ensures AllPathsNormalized(ExpandCalls(prefix, cs))
    decreases cs, 1
  {
    if cs != [] {
      ExpandCallNormalized(prefix, cs[0]);
      ExpandCallsNormalized(prefix, cs[1..]);
      var a, b := ExpandCall(prefix, cs[0]), ExpandCalls(prefix, cs[1..]);
      var ab: seq<KonfigureClassAtPath> := a + b;
      forall i | 0 <= i < |ab| ensures IsNormalizedPath(ab[i].path) && NoStrayDots(ab[i].path) {
        if i < |a| { assert ab[i] == a[i]; } else { assert ab[i] == b[i - |a|]; }
      }
    }
  }

  lemma {:induction false} ExpandCallNormalized(prefix: seq<string>, c: RegistrarCall)
    requires AllDotFree(prefix)
    ensures AllPathsNormalized(ExpandCall(prefix, c))
    decreases c, 0
  {
    match c
    case Import(atPath, m) =>
      ExpandNormalized(ChildPrefix(prefix, atPath), m);
    case BindRoot(klass) =>
      FullPathNormalized(prefix);
      FullPathNoStrayDots(prefix);
    case BindPath(configPath, klass) =>
      var p := ChildPrefix(prefix, configPath);
      FullPathNormalized(p);
      FullPathNoStrayDots(p);
  }

  // ---------------------------------------------------------------------
  // A module written once can be mounted anywhere: its records under a
  // prefix are its records under the empty prefix, moved below that prefix.

  lemma {:induction false} MountConcat(base: string, a: seq<KonfigureClassAtPath>, b: seq<KonfigureClassAtPath>)
    ensures Mount(base, a + b) == Mount(base, a) + Mount(base, b)
  {
    var l, r := Mount(base, a + b), Mount(base, a) + Mount(base, b);
    assert |l| == |r|;
    forall i | 0 <= i < |l| ensures l[i] == r[i] {
      if i < |a| { assert (a + b)[i] == a[i]; } else { assert (a + b)[i] == b[i - |a|]; }
    }
  }

  lemma JoinPathAssoc(a: string, b: string, p: string)
    ensures JoinPath(a, JoinPath(b, p)) == JoinPath(JoinPath(a, b), p)
  {
    if a != "" && b != "" && p != "" {
      assert a + "." + (b + "." + p) == a + "." + b + "." + p;
    }
  }

  lemma MountMount(a: string, b: string, bs: seq<KonfigureClassAtPath>)
    ensures Mount(a, Mount(b, bs)) == Mount(JoinPath(a, b), bs)
  {
    var l, r := Mount(a, Mount(b, bs)), Mount(JoinPath(a, b), bs);
    forall i | 0 <= i < |bs| ensures l[i] == r[i] {
      JoinPathAssoc(a, b, bs[i].path);
    }
  }

  lemma {:induction false} ExpandMounted(prefix: seq<string>, m: KonfigModule)
    requires AllDotFree(prefix)
    ensures Expand(prefix, m) == Mount(RootPath(prefix), Expand([], m))
    decreases m, 2
  {
    ExpandCallsMounted(prefix, m.calls);
  }

  lemma {:induction false} ExpandCallsMounted(prefix: seq<string>, cs: seq<RegistrarCall>)
    requires AllDotFree(prefix)
    ensures ExpandCalls(prefix, cs) == Mount(RootPath(prefix), ExpandCalls([], cs))
    decreases cs, 1
  {
    if cs != [] {
      ExpandCallMounted(prefix, cs[0]);
      ExpandCallsMounted(prefix, cs[1..]);
      MountConcat(RootPath(prefix), ExpandCall([], cs[0]), ExpandCalls([], cs[1..]));
    }
  }

  lemma {:induction false} ExpandCallMounted(prefix: seq<string>, c: RegistrarCall)
    requires AllDotFree(prefix)
    ensures ExpandCall(prefix, c) == Mount(RootPath(prefix), ExpandCall([], c))
    decreases c, 0
  {
    var base := RootPath(prefix);
    assert AllDotFree([]);
    match c
    case Import(atPath, m) =>
      var child := ChildPrefix(prefix, atPath);
      var sub := ChildPrefix([], atPath);
      assert sub == Split(atPath);
      SplitDotFree(atPath);
      ExpandMounted(child, m);
      ExpandMounted(sub, m);
      FullPathConcat(prefix, sub);
      MountMount(base, RootPath(sub), Expand([], m));
    case BindRoot(klass) =>
      assert RootPath([]) == "" by { assert KeepNotBlank([]) == []; }
    case BindPath(configPath, klass) =>
      SplitDotFree(configPath);
      FullPathConcat(prefix, Split(configPath));
      assert [] + Split(configPath) == Split(configPath);
  }
}
