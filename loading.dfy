/** What loading the pending records does to the singleton store.

    For each record, in list order: look up the object subtree at the record's
    path (a missing path is an error), render it as concise JSON, deserialise
    that JSON into the record's class, and store the instance as the singleton
    for that class, replacing any earlier one.  The first failure stops the
    walk; what was stored before it stays stored. */
module KonfigLoading {
  import opened Wrappers
  import opened KonfigBindings

  /** A resolved configuration object, carried by its concise JSON rendering. */
  datatype ConfigObject = ConfigObject(json: string)

  /** A resolved configuration: the object found at each dotted path. */
  datatype Config = Config(objects: map<string, ConfigObject>)

  datatype KonfigError =
    | MissingConfigPath(path: string)
    | DeserializationFailed(path: string, klass: Klass)
    | ConfigFactoryFailed

  /** `root().render(ConfigRenderOptions.concise().setJson(true))`. */
  function Render(o: ConfigObject): string {
    o.json
  }

  /** Lookup, rendering and deserialisation of one record.  `readValue`
      stands for the object mapper; `None` is any failure of it, a `null`
      result included. */
  function LoadOne<I>(b: KonfigureClassAtPath, config: Config, readValue: (string, Klass) -> Option<I>): (r: Result<I, KonfigError>)
    ensures r.Failure? <==>
      b.path !in config.objects || readValue(Render(config.objects[b.path]), b.klass).None?
    ensures b.path !in config.objects ==> r == Failure(MissingConfigPath(b.path))
    ensures r.Success? ==> Some(r.value) == readValue(Render(config.objects[b.path]), b.klass)
  {
    if b.path !in config.objects then Failure(MissingConfigPath(b.path))
    else
      match readValue(Render(config.objects[b.path]), b.klass)
      case None => Failure(DeserializationFailed(b.path, b.klass))
      case Some(instance) => Success(instance)
  }

  /** The store after a walk, and the error that stopped it, if any. */
  datatype LoadResult<I> = LoadResult(singletons: map<Klass, I>, error: Option<KonfigError>)

  /** The walk over `items`, starting from `store`. */
  function InjectAll<I>(store: map<Klass, I>, items: seq<KonfigureClassAtPath>, config: Config,
                        readValue: (string, Klass) -> Option<I>): LoadResult<I>
    decreases |items|
  {
    if items == [] then LoadResult(store, None)
    else
      match LoadOne(items[0], config, readValue)
      case Failure(e) => LoadResult(store, Some(e))
      case Success(instance) => InjectAll(store[items[0].klass := instance], items[1..], config, readValue)
  }

  /** The index of the first record that fails to load, or `|items|`. */
  function FirstFailure<I>(items: seq<KonfigureClassAtPath>, config: Config, readValue: (string, Klass) -> Option<I>): (n: nat)
    ensures n <= |items|
    ensures forall j :: 0 <= j < n ==> LoadOne(items[j], config, readValue).Success?
    ensures n < |items| ==> LoadOne(items[n], config, readValue).Failure?
    decreases |items|
  {
    if items == [] then 0
    else if LoadOne(items[0], config, readValue).Failure? then 0
    else 1 + FirstFailure(items[1..], config, readValue)
  }

  /** The classes bound by some record of `bs`. */
  function Klasses(bs: seq<KonfigureClassAtPath>): set<Klass> {
    set j | 0 <= j < |bs| :: bs[j].klass
  }

  /** Record `j` is the last one of `bs` for its class. */
  ghost predicate IsLastFor(bs: seq<KonfigureClassAtPath>, j: int)
    requires 0 <= j < |bs|
  {
    forall j' :: j < j' < |bs| ==> bs[j'].klass != bs[j].klass
  }

  /** `after` is `before` with exactly the records of `done` injected, each
      class bound to the instance of the last record for it. */
  ghost predicate InjectedExactly<I>(before: map<Klass, I>, after: map<Klass, I>, done: seq<KonfigureClassAtPath>,
                                     config: Config, readValue: (string, Klass) -> Option<I>)
    requires forall j :: 0 <= j < |done| ==> LoadOne(done[j], config, readValue).Success?
  {
    && after.Keys == before.Keys + Klasses(done)
    && (forall c :: c in before && c !in Klasses(done) ==> after[c] == before[c])
    && (forall j :: 0 <= j < |done| && IsLastFor(done, j) ==>
          after[done[j].klass] == LoadOne(done[j], config, readValue).value)
  }

  // ---------------------------------------------------------------------

  lemma KlassesCons(bs: seq<KonfigureClassAtPath>)
    requires bs != []
    ensures Klasses(bs) == {bs[0].klass} + Klasses(bs[1..])
  {
    forall c | c in Klasses(bs) ensures c in {bs[0].klass} + Klasses(bs[1..]) {
      var j :| 0 <= j < |bs| && bs[j].klass == c;
      if j > 0 { assert bs[1..][j - 1] == bs[j]; }
    }
    forall c | c in Klasses(bs[1..]) ensures c in Klasses(bs) {
      var j :| 0 <= j < |bs[1..]| && bs[1..][j].klass == c;
      assert bs[j + 1] == bs[1..][j];
    }
  }

  /** The walk visits the records in order, stops at the first that fails to
      load and reports that record's error; the store then holds exactly the
      records before it, the later of two records for one class winning. */
  lemma {:induction false} InjectAllCharacterized<I>(store: map<Klass, I>, items: seq<KonfigureClassAtPath>,
                                                     config: Config, readValue: (string, Klass) -> Option<I>)
    ensures var n := FirstFailure(items, config, readValue);
            var r := InjectAll(store, items, config, readValue);
            && r.error == (if n < |items| then Some(LoadOne(items[n], config, readValue).error) else None)
            && InjectedExactly(store, r.singletons, items[..n], config, readValue)
    decreases |items|
  {
    var n := FirstFailure(items, config, readValue);
    var r := InjectAll(store, items, config, readValue);
    if items == [] {
      assert items[..n] == [];
    } else if LoadOne(items[0], config, readValue).Failure? {
      assert n == 0 && items[..n] == [];
      assert Klasses([]) == {};
    } else {
      var b := items[0];
      var v := LoadOne(b, config, readValue).value;
      var store' := store[b.klass := v];
      var rest := items[1..];
      InjectAllCharacterized(store', rest, config, readValue);
      var n' := FirstFailure(rest, config, readValue);
      assert n == n' + 1;
      assert r == InjectAll(store', rest, config, readValue);
      var done := items[..n];
      var done' := rest[..n'];
      assert done[1..] == done' && done[0] == b;
      if n < |items| { assert items[n] == rest[n']; }
      KlassesCons(done);
      assert r.singletons.Keys == store.Keys + Klasses(done);
      forall c | c in store && c !in Klasses(done) ensures r.singletons[c] == store[c] {
        assert c != b.klass;
      }
      forall j | 0 <= j < |done| && IsLastFor(done, j)
        ensures r.singletons[done[j].klass] == LoadOne(done[j], config, readValue).value
      {
        if j == 0 {
          assert b.klass !in Klasses(done');
        } else {
          assert done[j] == done'[j - 1];
          assert IsLastFor(done', j - 1) by {
            forall j' | j - 1 < j' < |done'| ensures done'[j'].klass != done'[j - 1].klass {
              assert done'[j'] == done[j' + 1];
            }
          }
        }
      }
    }
  }

  /** A record whose path is absent stops the walk with a missing-path error:
      the records before it are injected, it and the later ones are not (a
      class bound only after it keeps its old singleton, or stays unbound). */
  lemma LoadStopsAtMissingPath<I>(store: map<Klass, I>, items: seq<KonfigureClassAtPath>, k: nat,
                                  config: Config, readValue: (string, Klass) -> Option<I>)
    requires k < |items|
    requires forall j :: 0 <= j < k ==> LoadOne(items[j], config, readValue).Success?
    requires items[k].path !in config.objects
    ensures InjectAll(store, items, config, readValue).error == Some(MissingConfigPath(items[k].path))
    ensures InjectedExactly(store, InjectAll(store, items, config, readValue).singletons, items[..k], config, readValue)
    ensures forall c :: c !in Klasses(items[..k]) ==>
              (c in InjectAll(store, items, config, readValue).singletons <==> c in store)
  {
    var n := FirstFailure(items, config, readValue);
    assert n == k;
    InjectAllCharacterized(store, items, config, readValue);
  }

  /** When every record loads, the walk succeeds and injects all of them. */
  lemma LoadAllPresent<I>(store: map<Klass, I>, items: seq<KonfigureClassAtPath>,
                          config: Config, readValue: (string, Klass) -> Option<I>)
    requires forall j :: 0 <= j < |items| ==> LoadOne(items[j], config, readValue).Success?
    ensures InjectAll(store, items, config, readValue).error == None
    ensures InjectedExactly(store, InjectAll(store, items, config, readValue).singletons, items, config, readValue)
  {
    var n := FirstFailure(items, config, readValue);
    assert n == |items| && items[..n] == items;
    InjectAllCharacterized(store, items, config, readValue);
  }

  /** Binding a class again later in the list overwrites the earlier
      singleton: the class ends up bound to the later record's instance. */
  lemma LaterBindingOverwrites<I>(store: map<Klass, I>, items: seq<KonfigureClassAtPath>, i: nat, j: nat,
                                  config: Config, readValue: (string, Klass) -> Option<I>)
    requires i < j < |items| && items[i].klass == items[j].klass
    requires forall j' :: j < j' < |items| ==> items[j'].klass != items[j].klass
    requires forall j' :: 0 <= j' < |items| ==> LoadOne(items[j'], config, readValue).Success?
    ensures items[i].klass in InjectAll(store, items, config, readValue).singletons
    ensures InjectAll(store, items, config, readValue).singletons[items[i].klass]
         == LoadOne(items[j], config, readValue).value
  {
    LoadAllPresent(store, items, config, readValue);
    assert IsLastFor(items, j);
  }
}
