/** What every uninstall pass and every run of passes guarantees. */
module UninstallRuns {
  import opened Options
  import opened Phases
  import opened Slices
  import opened Finalizers
  import opened Uninstall
  import Text

  // ---------------------------------------------------------------- lists without some finalizers

  function Keep(list: seq<string>, drop: set<string>): (r: seq<string>)
    ensures forall x :: x in r <==> x in list && x !in drop
  {
    if list == [] then []
    else if list[0] in drop then Keep(list[1..], drop)
    else [list[0]] + Keep(list[1..], drop)
  }

  lemma {:induction false} WithoutIsKeep(list: seq<string>, s: string)
    ensures Without(list, s) == Keep(list, {s})
  {
    if list != [] {
      WithoutIsKeep(list[1..], s);
    }
  }

  lemma {:induction false} KeepTwice(list: seq<string>, a: set<string>, b: set<string>)
    ensures Keep(Keep(list, a), b) == Keep(list, a + b)
  {
    if list != [] {
      KeepTwice(list[1..], a, b);
      if list[0] !in a {
        assert ([list[0]] + Keep(list[1..], a))[1..] == Keep(list[1..], a);
      }
    }
  }

  lemma {:induction false} KeepNothing(list: seq<string>)
    ensures Keep(list, {}) == list
  {
    if list != [] {
      KeepNothing(list[1..]);
    }
  }

  lemma {:induction false} KeepKeepsNoDuplicates(list: seq<string>, drop: set<string>)
    requires NoDuplicates(list)
    ensures NoDuplicates(Keep(list, drop))
  {
    if list != [] {
      KeepKeepsNoDuplicates(list[1..], drop);
      assert list[0] !in list[1..];
    }
  }

  lemma OnlyElement(list: seq<string>, x: string)
    requires NoDuplicates(list) && x in list && forall y | y in list :: y == x
    ensures list == [x]
  {
    assert |list| >= 2 ==> list[0] != list[1];
    forall i | 0 <= i < |list| ensures list[i] == x {
      assert list[i] in list;
    }
  }

  // ---------------------------------------------------------------- one product

  /** What becomes of a product in a pass, given only whether it still holds its finalizer: whether
      the finalizer is removed, and whether the product is left pending. */
  function Fate(held: bool, p: string, snapshot: seq<string>, n: nat, w: World): (bool, bool)
    decreases |snapshot|
  {
    if snapshot == [] then (false, false)
    else if !Text.Contains(snapshot[0], p) then Fate(held, p, snapshot[1..], n, w)
    else if Skips(p, w) then Fate(held, p, snapshot[1..], n + 1, w)
    else match w.answers(p, n)
      case EarlyFailure => (false, true)
      case Cleanup(o) =>
        if held && o == OK then (true, Fate(false, p, snapshot[1..], n + 1, w).1)
        else if held && o.phase != Completed then (false, true)
        else Fate(held, p, snapshot[1..], n + 1, w)
  }

  lemma {:induction false} NotHeldNotRemoved(p: string, snapshot: seq<string>, n: nat, w: World)
    ensures !Fate(false, p, snapshot, n, w).0
    decreases |snapshot|
  {
    if snapshot != [] {
      NotHeldNotRemoved(p, snapshot[1..], n, w);
      NotHeldNotRemoved(p, snapshot[1..], n + 1, w);
    }
  }

  lemma CalledOnNoDuplicates(st: Pass, p: string, n: nat, w: World)
    requires NoDuplicates(st.list)
    ensures var (st1, o) := Called(st, p, n, w);
      && o.Some? && NoDuplicates(st1.list)
      && (st1.list == st.list || st1.list == Without(st.list, Current(p)))
  {
    RemoveFromDuplicateFree(st.list, Current(p));
    WithoutKeepsNoDuplicates(st.list, Current(p));
  }

  function StandOf(pending: bool): Stand { if pending then Pending else Settled }

  lemma {:induction false} HandledIsFate(st: Pass, p: string, snapshot: seq<string>, n: nat, w: World)
    requires NoDuplicates(st.list)
    ensures var (removed, pending) := Fate(Current(p) in st.list, p, snapshot, n, w);
      var (st1, stand) := Handled(st, p, snapshot, n, w);
      && stand == StandOf(pending)
      && st1.list == (if removed then Without(st.list, Current(p)) else st.list)
    decreases |snapshot|
  {
    if snapshot != [] {
      if Text.Contains(snapshot[0], p) {
        var (st1, o) := Called(st, p, n, w);
        CalledOnNoDuplicates(st, p, n, w);
        RemoveFromDuplicateFree(st.list, Current(p));
        NotHeldNotRemoved(p, snapshot[1..], n + 1, w);
        HandledIsFate(st1, p, snapshot[1..], n + 1, w);
      } else {
        HandledIsFate(st, p, snapshot[1..], n, w);
      }
    }
  }

  /** No cleanup claims to be completed while it also returns an error. */
  ghost predicate Sound(w: World) { forall p :: SoundFor(w, p) }

  ghost predicate SoundFor(w: World, p: string) {
    forall n :: !(w.answers(p, n).Cleanup? && w.answers(p, n).outcome == Outcome(Completed, true))
  }

  lemma OwnFinalizerMatches(p: string)
    ensures Text.Contains(Current(p), p)
  {
    Text.ContainedInConcat("", p, ".integreatly.org/finalizer");
    assert "" + p + ".integreatly.org/finalizer" == Current(p);
  }

  // ---------------------------------------------------------------- one stage, in any order

  function Dropped(list: seq<string>, products: seq<string>, snapshot: seq<string>, w: World): set<string> {
    set p | p in products && Fate(Current(p) in list, p, snapshot, 0, w).0 :: Current(p)
  }

  predicate AnyPending(list: seq<string>, products: seq<string>, snapshot: seq<string>, w: World) {
    exists p | p in products :: Fate(Current(p) in list, p, snapshot, 0, w).1
  }

  lemma OthersUnaffected(
    list: seq<string>, p: string, drop: set<string>, rest: seq<string>, snapshot: seq<string>, w: World)
    requires drop <= {Current(p)} && p !in rest
    ensures Dropped(Keep(list, drop), rest, snapshot, w) == Dropped(list, rest, snapshot, w)
    ensures AnyPending(Keep(list, drop), rest, snapshot, w) == AnyPending(list, rest, snapshot, w)
  {
    forall q | q in rest ensures Current(q) in Keep(list, drop) <==> Current(q) in list {
      if Current(q) == Current(p) {
        CurrentInjective(q, p);
      }
    }
  }

  function OwnDrop(list: seq<string>, p: string, snapshot: seq<string>, w: World): set<string> {
    if Fate(Current(p) in list, p, snapshot, 0, w).0 then {Current(p)} else {}
  }

  lemma HandledKeeps(st: Pass, p: string, snapshot: seq<string>, w: World)
    requires NoDuplicates(st.list)
    ensures var (st1, stand) := Handled(st, p, snapshot, 0, w);
      && st1.list == Keep(st.list, OwnDrop(st.list, p, snapshot, w)) && NoDuplicates(st1.list)
      && stand == StandOf(Fate(Current(p) in st.list, p, snapshot, 0, w).1)
  {
    HandledIsFate(st, p, snapshot, 0, w);
    WithoutIsKeep(st.list, Current(p));
    KeepNothing(st.list);
    KeepKeepsNoDuplicates(st.list, OwnDrop(st.list, p, snapshot, w));
  }

  lemma TakenTogether(list: seq<string>, p: string, rest: seq<string>, snapshot: seq<string>, w: World)
    ensures Dropped(list, [p] + rest, snapshot, w) == OwnDrop(list, p, snapshot, w) + Dropped(list, rest, snapshot, w)
    ensures AnyPending(list, [p] + rest, snapshot, w)
       <==> (Fate(Current(p) in list, p, snapshot, 0, w).1 || AnyPending(list, rest, snapshot, w))
  {
    var all := [p] + rest;
    assert forall q :: q in all <==> q == p || q in rest;
  }

  /** Dropping one product's finalizer and then the others' is dropping all of them at once. */
  lemma DroppedInTurn(list: seq<string>, p: string, rest: seq<string>, snapshot: seq<string>, w: World)
    requires p !in rest
    ensures var kept := Keep(list, OwnDrop(list, p, snapshot, w));
      && Keep(kept, Dropped(kept, rest, snapshot, w)) == Keep(list, Dropped(list, [p] + rest, snapshot, w))
      && (AnyPending(list, [p] + rest, snapshot, w)
          <==> Fate(Current(p) in list, p, snapshot, 0, w).1 || AnyPending(kept, rest, snapshot, w))
  {
    var drop := OwnDrop(list, p, snapshot, w);
    OthersUnaffected(list, p, drop, rest, snapshot, w);
    KeepTwice(list, drop, Dropped(list, rest, snapshot, w));
    TakenTogether(list, p, rest, snapshot, w);
  }

  /** A stage drops the finalizers of exactly the products whose own fate is removal, and is pending
      exactly when some product is: neither mentions the order. */
  lemma {:induction false} StageClosedForm(st: Pass, products: seq<string>, snapshot: seq<string>, w: World)
    requires NoDuplicates(products) && NoDuplicates(st.list)
    ensures var (st1, stand) := StageHandled(st, products, snapshot, w);
      && st1.list == Keep(st.list, Dropped(st.list, products, snapshot, w))
      && stand == StandOf(AnyPending(st.list, products, snapshot, w))
    decreases |products|
  {
    if products == [] {
      KeepNothing(st.list);
      assert Dropped(st.list, products, snapshot, w) == {};
    } else {
      var p, rest := products[0], products[1..];
      var st1 := Handled(st, p, snapshot, 0, w).0;
      HandledKeeps(st, p, snapshot, w);
      StageClosedForm(st1, rest, snapshot, w);
      DroppedInTurn(st.list, p, rest, snapshot, w);
      assert products == [p] + rest;
    }
  }

  /** Confluence: the remaining finalizers and the pending flag of a stage are the same whatever
      order Go visits its products in. */
  lemma StageOrderIrrelevant(st: Pass, ps: seq<string>, qs: seq<string>, snapshot: seq<string>, w: World)
    requires NoDuplicates(ps) && NoDuplicates(qs) && (forall p :: p in ps <==> p in qs) && NoDuplicates(st.list)
    ensures var (st1, stand1) := StageHandled(st, ps, snapshot, w);
      var (st2, stand2) := StageHandled(st, qs, snapshot, w);
      st1.list == st2.list && stand1 == stand2
  {
    StageClosedForm(st, ps, snapshot, w);
    StageClosedForm(st, qs, snapshot, w);
    assert Dropped(st.list, ps, snapshot, w) == Dropped(st.list, qs, snapshot, w);
  }

  // ---------------------------------------------------------------- what the log shows

  ghost predicate CleanupSucceeded(log: seq<Uninstall.Event>, p: string) {
    exists e | e in log :: e.CleanedUp? && e.product == p && e.outcome == OK
  }

  /** `st1` is a later moment of the pass at `st`: finalizers only leave, one leaves only after its
      product's cleanup completed, and cleanups only run for the given products and see no finalizer
      that was not there before. */
  ghost predicate Progress(st: Pass, st1: Pass, products: set<string>) {
    && st.log <= st1.log
    && (forall f | f in st1.list :: f in st.list)
    && (forall f | f in st.list && f !in st1.list ::
          exists p | p in products :: f == Current(p) && CleanupSucceeded(st1.log, p))
    && (forall i | |st.log| <= i < |st1.log| :: st1.log[i].CleanedUp? && st1.log[i].product in products
          && forall f | f in st1.log[i].held :: f in st.list)
  }

  lemma ProgressTrans(a: Pass, b: Pass, c: Pass, ps: set<string>, qs: set<string>)
    requires Progress(a, b, ps) && Progress(b, c, qs)
    ensures Progress(a, c, ps + qs)
  {
    forall f | f in a.list && f !in c.list
      ensures exists p | p in ps + qs :: f == Current(p) && CleanupSucceeded(c.log, p)
    {
      if f in b.list {
        var p :| p in qs && f == Current(p) && CleanupSucceeded(c.log, p);
        assert p in ps + qs;
      } else {
        var p :| p in ps && f == Current(p) && CleanupSucceeded(b.log, p);
        assert p in ps + qs;
        var e :| e in b.log && e.CleanedUp? && e.product == p && e.outcome == OK;
        assert e in c.log;
      }
    }
    forall i | |a.log| <= i < |c.log|
      ensures c.log[i].CleanedUp? && c.log[i].product in ps + qs && forall f | f in c.log[i].held :: f in a.list
    {
      if i < |b.log| {
        assert c.log[i] == b.log[i];
      }
    }
  }

  lemma CalledProgress(st: Pass, p: string, n: nat, w: World)
    ensures Progress(st, Called(st, p, n, w).0, {p})
  {
    var st1 := Called(st, p, n, w).0;
    if |st1.log| > |st.log| {
      var e := st1.log[|st.log|];
      assert e in st1.log;
    }
    forall f ensures (f in st1.list ==> f in st.list) && (f in st.list && f != Current(p) ==> f in st1.list) {
      SkipScanMembers(st.list, Current(p), f);
    }
  }

  lemma {:induction false} HandledProgress(st: Pass, p: string, snapshot: seq<string>, n: nat, w: World)
    ensures Progress(st, Handled(st, p, snapshot, n, w).0, {p})
    decreases |snapshot|
  {
    if snapshot != [] {
      if Text.Contains(snapshot[0], p) {
        var st1 := Called(st, p, n, w).0;
        CalledProgress(st, p, n, w);
        HandledProgress(st1, p, snapshot[1..], n + 1, w);
        ProgressTrans(st, st1, Handled(st1, p, snapshot[1..], n + 1, w).0, {p}, {p});
        assert {p} + {p} == {p};
      } else {
        HandledProgress(st, p, snapshot[1..], n, w);
      }
    }
  }

  function Elements(list: seq<string>): set<string> { set x | x in list }

  lemma {:induction false} StageProgress(st: Pass, products: seq<string>, snapshot: seq<string>, w: World)
    ensures Progress(st, StageHandled(st, products, snapshot, w).0, Elements(products))
    decreases |products|
  {
    if products != [] {
      var st1 := Handled(st, products[0], snapshot, 0, w).0;
      HandledProgress(st, products[0], snapshot, 0, w);
      assert Progress(st1, st1, Elements(products[1..]));
      StageProgress(st1, products[1..], snapshot, w);
      ProgressTrans(st, st1, st1, {products[0]}, Elements(products[1..]));
      ProgressTrans(st, st1, StageHandled(st1, products[1..], snapshot, w).0, {products[0]}, Elements(products[1..]));
      assert products == [products[0]] + products[1..];
      assert {products[0]} + Elements(products[1..]) == Elements(products);
    }
  }

  function AllProducts(stages: seq<Stage>): set<string> {
    if stages == [] then {} else Elements(stages[0].products) + AllProducts(stages[1..])
  }

  lemma {:induction false} WalkProgress(st: Pass, stages: seq<Stage>, snapshot: seq<string>, w: World)
    ensures Progress(st, Walked(st, stages, snapshot, w).0, AllProducts(stages))
    decreases |stages|
  {
    if stages != [] {
      var products := Elements(stages[0].products);
      StageProgress(st, stages[0].products, snapshot, w);
      var st1 := if stages[0].name == BOOTSTRAP then st else StageHandled(st, stages[0].products, snapshot, w).0;
      WalkProgress(st1, stages[1..], snapshot, w);
      ProgressTrans(st, st1, Walked(st1, stages[1..], snapshot, w).0, products, AllProducts(stages[1..]));
      ProgressTrans(st, st, st1, {}, products);
    }
  }

  // ---------------------------------------------------------------- a whole pass

  /** Everything after the walk is about the CR, the config maps and the operator. */
  lemma PassAfterWalk(list: seq<string>, stages: seq<Stage>, w: World)
    ensures var st := Walked(Pass(list, []), stages, list, w).0;
      var r := Uninstalled(list, stages, w);
      && st.log <= r.log
      && (forall i | |st.log| <= i < |r.log| :: !r.log[i].CleanedUp?)
      && (r.list == st.list || (st.list == [DELETION] && r.list == []))
  {
  }

  /** What a pass makes of its walk, whatever happens: the controller's own finalizer goes exactly when it
      is the last one and both config maps are gone or absent; the list left is written once; the
      operator goes only after that write. */
  lemma PassOutcome(list: seq<string>, stages: seq<Stage>, w: World)
    ensures var (st, stand) := Walked(Pass(list, []), stages, list, w);
      var r := Uninstalled(list, stages, w);
      var last := stand == Settled && st.list == [DELETION];
      var configGone := last && w.configMap in {Deleted, Absent};
      var allGone := configGone && w.cloudConfig in {Deleted, Absent};
      && (stand == Panicked ==> r == st)
      && (stand != Panicked ==>
            (&& r.list == (if allGone then [] else st.list)
             && r.log == st.log
                         + Only(configGone, ConfigMapGone) + Only(allGone, CloudConfigGone)
                         + Only(w.writeOk, Wrote(r.list))
                         + Only(allGone && w.writeOk && w.operatorOk, OperatorRemoved)))
  {
  }

  function Only(happens: bool, e: Uninstall.Event): seq<Uninstall.Event> { if happens then [e] else [] }

  /** How many finalizers of the snapshot mention observability. */
  function Mentions(snapshot: seq<string>): nat {
    if snapshot == [] then 0
    else Mentions(snapshot[1..]) + if Text.Contains(snapshot[0], "observability") then 1 else 0
  }

  /** The bootstrap reconciler is called once for each of them until it does not complete. */
  lemma {:induction false} BootstrapPendingIff(snapshot: seq<string>, n: nat, w: World)
    ensures BootstrapPending(snapshot, n, w)
       <==> exists k: nat | n <= k < n + Mentions(snapshot) :: w.bootstrap(k).phase != Completed
    decreases |snapshot|
  {
    if snapshot != [] {
      BootstrapPendingIff(snapshot[1..], n, w);
      BootstrapPendingIff(snapshot[1..], n + 1, w);
    }
  }

  /** A stage that does carry the bootstrap name leaves the list alone and waits for those calls. */
  lemma BootstrapStageWalk(st: Pass, products: seq<string>, snapshot: seq<string>, w: World)
    ensures var pending := exists k: nat | k < Mentions(snapshot) :: w.bootstrap(k).phase != Completed;
      Walked(st, [Stage("bootstrap", products)], snapshot, w) == (st, StandOf(pending))
  {
    BootstrapPendingIff(snapshot, 0, w);
    assert [Stage("bootstrap", products)][1..] == [];
  }

  /** A pass never adds a finalizer, and a product's finalizer leaves the CR only after that
      product's cleanup completed without an error; the only other one to leave is the controller's. */
  lemma FinalizerLeavesAfterCleanup(list: seq<string>, stages: seq<Stage>, w: World)
    ensures var r := Uninstalled(list, stages, w);
      && (forall f | f in r.list :: f in list)
      && (forall f | f in list && f !in r.list && f != DELETION ::
            exists p | p in AllProducts(stages) :: f == Current(p) && CleanupSucceeded(r.log, p))
  {
    var st0 := Pass(list, []);
    var st := Walked(st0, stages, list, w).0;
    var r := Uninstalled(list, stages, w);
    WalkProgress(st0, stages, list, w);
    PassAfterWalk(list, stages, w);
    forall f | f in list && f !in r.list && f != DELETION
      ensures exists p | p in AllProducts(stages) :: f == Current(p) && CleanupSucceeded(r.log, p)
    {
      var p :| p in AllProducts(stages) && f == Current(p) && CleanupSucceeded(st.log, p);
      var e :| e in st.log && e.CleanedUp? && e.product == p && e.outcome == OK;
      assert e in r.log;
    }
  }

  /** The operator goes last: both config maps are gone and the empty list is persisted before. */
  lemma OperatorGoesLast(list: seq<string>, stages: seq<Stage>, w: World)
    ensures OperatorRemoved in Uninstalled(list, stages, w).log ==>
      && Uninstalled(list, stages, w).log ==
           Walked(Pass(list, []), stages, list, w).0.log + [ConfigMapGone, CloudConfigGone, Wrote([]), OperatorRemoved]
      && w.configMap != Stuck && w.cloudConfig != Stuck && w.writeOk
      && Uninstalled(list, stages, w).list == []
  {
    var st0 := Pass(list, []);
    var st := Walked(st0, stages, list, w).0;
    WalkProgress(st0, stages, list, w);
    assert OperatorRemoved !in st.log;
  }

  // ---------------------------------------------------------------- the two stage tables

  const MANAGED: set<string> := {"rhsso", "3scale", "rhssouser", "marin3r", "grafana"}
  const MULTITENANT: set<string> := {"rhsso", "3scale", "marin3r", "grafana"}

  /** The uninstall stages of an installation type, its products visited in any order. */
  ghost predicate IsTable(stages: seq<Stage>, products: set<string>) {
    && |stages| == 3
    && stages[0].name == "uninstall - products"
    && NoDuplicates(stages[0].products)
    && Elements(stages[0].products) == products
    && stages[1] == Stage("uninstall - cloud-resources", [CLOUD_RESOURCES])
    && stages[2] == Stage("uninstall - bootstrap", [])
  }

  /** The two stages that do something, run one after the other. */
  lemma WalkOfTable(list: seq<string>, stages: seq<Stage>, products: set<string>, w: World)
    requires IsTable(stages, products)
    ensures var (st1, stand1) := StageHandled(Pass(list, []), stages[0].products, list, w);
      var (st2, stand2) := StageHandled(st1, [CLOUD_RESOURCES], list, w);
      Walked(Pass(list, []), stages, list, w) == if stand1 != Settled then (st1, stand1) else (st2, stand2)
  {
    var st0 := Pass(list, []);
    var st1 := StageHandled(st0, stages[0].products, list, w).0;
    assert stages[1..][0] == stages[1] && stages[1..][1..] == stages[2..] && stages[2..][0] == stages[2];
    assert stages[2..][1..] == [];
    var st2 := StageHandled(st1, [CLOUD_RESOURCES], list, w).0;
    assert Walked(st2, stages[2..], list, w) == (st2, Settled);
  }

  function Copies(list: seq<string>, p: string): nat { multiset(list)[Current(p)] }

  lemma NoCopies(list: seq<string>, p: string)
    ensures Copies(list, p) == 0 <==> Current(p) !in list
  {
    assert Current(p) in list <==> Current(p) in multiset(list);
  }

  /** A call never adds a copy of any product's finalizer, and a completed cleanup without an error
      takes one of its own. */
  lemma CalledCopies(st: Pass, p: string, n: nat, w: World, q: string)
    ensures Copies(Called(st, p, n, w).0.list, q) <= Copies(st.list, q)
    ensures !Skips(p, w) && Current(p) in st.list && w.answers(p, n) == Cleanup(OK) && Called(st, p, n, w).1.Some? ==>
      Copies(Called(st, p, n, w).0.list, p) < Copies(st.list, p)
  {
    SkipScanCounts(st.list, Current(p), Current(q));
  }

  lemma {:induction false} HandledCopies(st: Pass, p: string, snapshot: seq<string>, n: nat, w: World, q: string)
    ensures Copies(Handled(st, p, snapshot, n, w).0.list, q) <= Copies(st.list, q)
    decreases |snapshot|
  {
    if snapshot != [] {
      if Text.Contains(snapshot[0], p) {
        CalledCopies(st, p, n, w, q);
        HandledCopies(Called(st, p, n, w).0, p, snapshot[1..], n + 1, w, q);
      } else {
        HandledCopies(st, p, snapshot[1..], n, w, q);
      }
    }
  }

  /** A settled product has lost every copy of its finalizer that the snapshot shows: each copy asks
      for a call of its own. */
  lemma {:induction false} SettledMeansGone(st: Pass, p: string, snapshot: seq<string>, n: nat, w: World)
    requires SoundFor(w, p) && !Skips(p, w) && Copies(st.list, p) <= Copies(snapshot, p)
    requires Handled(st, p, snapshot, n, w).1 == Settled
    ensures Current(p) !in Handled(st, p, snapshot, n, w).0.list
    decreases |snapshot|
  {
    NoCopies(st.list, p);
    if snapshot != [] {
      assert snapshot == [snapshot[0]] + snapshot[1..];
      OwnFinalizerMatches(p);
      if Text.Contains(snapshot[0], p) {
        CalledCopies(st, p, n, w, p);
        var st1 := Called(st, p, n, w).0;
        assert Current(p) in st.list ==> w.answers(p, n) == Cleanup(OK);
        SettledMeansGone(st1, p, snapshot[1..], n + 1, w);
      } else {
        SettledMeansGone(st, p, snapshot[1..], n, w);
      }
    }
  }

  /** A settled stage has shed the finalizers of all its products, whatever duplicates there were. */
  lemma {:induction false} SettledStageHoldsNothing(
    st: Pass, products: seq<string>, snapshot: seq<string>, w: World, p: string)
    requires SoundFor(w, p) && p in products && !Skips(p, w) && Copies(st.list, p) <= Copies(snapshot, p)
    requires StageHandled(st, products, snapshot, w).1 == Settled
    ensures Current(p) !in StageHandled(st, products, snapshot, w).0.list
    decreases |products|
  {
    var st1 := Handled(st, products[0], snapshot, 0, w).0;
    if p == products[0] {
      SettledMeansGone(st, p, snapshot, 0, w);
      StageProgress(st1, products[1..], snapshot, w);
    } else {
      HandledCopies(st, products[0], snapshot, 0, w, p);
      SettledStageHoldsNothing(st1, products[1..], snapshot, w, p);
    }
  }

  /** When the cleanup of cloud resources runs, no product of the first stage holds its finalizer,
      unless that product is Grafana in prow. */
  ghost predicate Gated(list: seq<string>, stages: seq<Stage>, products: set<string>, w: World) {
    forall e, p | e in Uninstalled(list, stages, w).log && e.CleanedUp? && e.product == CLOUD_RESOURCES
      && p in products && !Skips(p, w) :: Current(p) !in e.held
  }

  /** No cleanup of cloud resources starts while a product of the first stage still holds its
      finalizer, unless that product is Grafana in prow. */
  lemma CloudResourcesLast(list: seq<string>, stages: seq<Stage>, products: set<string>, w: World)
    requires IsTable(stages, products) && products in {MANAGED, MULTITENANT} && Sound(w)
    ensures Gated(list, stages, products, w)
  {
    var r := Uninstalled(list, stages, w);
    var (st1, stand1) := StageHandled(Pass(list, []), stages[0].products, list, w);
    var st2 := StageHandled(st1, [CLOUD_RESOURCES], list, w).0;
    WalkOfTable(list, stages, products, w);
    PassAfterWalk(list, stages, w);
    StageProgress(Pass(list, []), stages[0].products, list, w);
    StageProgress(st1, [CLOUD_RESOURCES], list, w);
    forall e, p | e in r.log && e.CleanedUp? && e.product == CLOUD_RESOURCES && p in products && !Skips(p, w)
      ensures Current(p) !in e.held
    {
      var i :| 0 <= i < |r.log| && r.log[i] == e;
      assert i >= |st1.log| && stand1 == Settled && e == st2.log[i];
      assert p in Elements(stages[0].products);
      SettledStageHoldsNothing(Pass(list, []), stages[0].products, list, w, p);
    }
  }

  // ---------------------------------------------------------------- why cleanups must not lie

  /** Every cleanup reports completion, that of `liar` together with an error. */
  ghost predicate Lies(w: World, liar: string) {
    && !w.inProw
    && (forall p, n :: w.answers(p, n).Cleanup? && w.answers(p, n).outcome.phase == Completed)
    && (forall n :: w.answers(liar, n).outcome.failed)
  }

  lemma {:induction false} FateWithLiar(held: bool, p: string, snapshot: seq<string>, n: nat, w: World, liar: string)
    requires Lies(w, liar)
    ensures !Fate(held, p, snapshot, n, w).1
    ensures p == liar ==> !Fate(held, p, snapshot, n, w).0
    decreases |snapshot|
  {
    if snapshot != [] {
      FateWithLiar(held, p, snapshot[1..], n, w, liar);
      FateWithLiar(held, p, snapshot[1..], n + 1, w, liar);
      FateWithLiar(false, p, snapshot[1..], n + 1, w, liar);
    }
  }

  /** A held product whose reconciler gets as far as its cleanup shows up in the log. */
  lemma {:induction false} CleanupLogged(st: Pass, p: string, snapshot: seq<string>, n: nat, w: World)
    requires !Skips(p, w) && Current(p) in st.list && Current(p) in snapshot && forall n :: w.answers(p, n).Cleanup?
    ensures exists e | e in Handled(st, p, snapshot, n, w).0.log ::
      e.CleanedUp? && e.product == p && e.held == st.list
    decreases |snapshot|
  {
    OwnFinalizerMatches(p);
    if Text.Contains(snapshot[0], p) {
      var st1 := Called(st, p, n, w).0;
      var e := st1.log[|st.log|];
      HandledProgress(st1, p, snapshot[1..], n + 1, w);
      assert e in st1.log && e.CleanedUp? && e.product == p && e.held == st.list;
      assert st1.log <= Handled(st, p, snapshot, n, w).0.log;
    } else {
      CleanupLogged(st, p, snapshot[1..], n, w);
    }
  }

  lemma FirstStageWithLiar(list: seq<string>, ps: seq<string>, w: World, liar: string)
    requires Lies(w, liar) && NoDuplicates(ps) && CLOUD_RESOURCES !in ps && NoDuplicates(list)
    requires Current(liar) in list && Current(CLOUD_RESOURCES) in list
    ensures var (st1, stand) := StageHandled(Pass(list, []), ps, list, w);
      stand == Settled && Current(liar) in st1.list && Current(CLOUD_RESOURCES) in st1.list
  {
    forall p ensures !Fate(Current(p) in list, p, list, 0, w).1 {
      FateWithLiar(Current(p) in list, p, list, 0, w, liar);
    }
    forall p | p in ps && (Current(p) == Current(liar) || Current(p) == Current(CLOUD_RESOURCES))
      ensures !Fate(Current(p) in list, p, list, 0, w).0
    {
      if Current(p) == Current(liar) {
        CurrentInjective(p, liar);
      } else {
        CurrentInjective(p, CLOUD_RESOURCES);
      }
      FateWithLiar(Current(p) in list, p, list, 0, w, liar);
    }
    StageClosedForm(Pass(list, []), ps, list, w);
  }

  /** The gate between the stages looks at the phase alone: one first-stage cleanup that reports
      completion together with an error lets cloud resources go while its finalizer is still held. */
  lemma LyingCleanupBreaksGate(list: seq<string>, stages: seq<Stage>, products: set<string>, w: World, liar: string)
    requires IsTable(stages, products) && products in {MANAGED, MULTITENANT} && Lies(w, liar)
    requires liar in products && Current(liar) in list && Current(CLOUD_RESOURCES) in list && NoDuplicates(list)
    ensures exists e | e in Uninstalled(list, stages, w).log ::
      e.CleanedUp? && e.product == CLOUD_RESOURCES && Current(liar) in e.held
  {
    assert CLOUD_RESOURCES !in Elements(stages[0].products);
    FirstStageWithLiar(list, stages[0].products, w, liar);
    var st1 := StageHandled(Pass(list, []), stages[0].products, list, w).0;
    CleanupLogged(st1, CLOUD_RESOURCES, list, 0, w);
    var h := Handled(st1, CLOUD_RESOURCES, list, 0, w).0;
    assert StageHandled(st1, [CLOUD_RESOURCES], list, w).0 == h by {
      assert [CLOUD_RESOURCES][1..] == [];
      assert StageHandled(h, [], list, w) == (h, Settled);
    }
    WalkOfTable(list, stages, products, w);
    PassAfterWalk(list, stages, w);
    var e :| e in h.log && e.CleanedUp? && e.product == CLOUD_RESOURCES && e.held == st1.list;
    assert e in Uninstalled(list, stages, w).log;
  }

  ghost predicate Within(w: World, allowed: set<Outcome>) {
    forall p, n :: w.answers(p, n).Cleanup? ==> w.answers(p, n).outcome in allowed
  }

  ghost predicate AlwaysGated(products: set<string>, allowed: set<Outcome>) {
    forall list, stages, w | IsTable(stages, products) && Within(w, allowed) :: Gated(list, stages, products, w)
  }

  lemma SomeTable(products: set<string>) returns (stages: seq<Stage>)
    requires products in {MANAGED, MULTITENANT}
    ensures IsTable(stages, products)
  {
    var ps := if products == MANAGED then ["rhsso", "3scale", "rhssouser", "marin3r", "grafana"]
              else ["rhsso", "3scale", "marin3r", "grafana"];
    stages := [Stage("uninstall - products", ps), Stage("uninstall - cloud-resources", [CLOUD_RESOURCES]),
               Stage("uninstall - bootstrap", [])];
    assert Elements(ps) == products;
  }

  /** If cleanups report only outcomes of some set, the gate holds in every pass exactly when
      "completed, with an error" is not one of them: every other outcome is harmless. */
  lemma GateHoldsIff(products: set<string>, allowed: set<Outcome>)
    requires products in {MANAGED, MULTITENANT}
    ensures AlwaysGated(products, allowed) <==> Outcome(Completed, true) !in allowed
  {
    if Outcome(Completed, true) in allowed {
      var stages := SomeTable(products);
      var w := World(false, (p, n) => Cleanup(Outcome(Completed, true)), n => OK, true, Absent, Absent, true);
      var list := [Current("rhsso"), Current(CLOUD_RESOURCES)];
      assert Within(w, allowed);
      assert NoDuplicates(list) by { assert Current("rhsso")[0] != Current(CLOUD_RESOURCES)[0]; }
      LyingCleanupBreaksGate(list, stages, products, w, "rhsso");
      assert !Gated(list, stages, products, w);
    } else {
      forall list, stages, w | IsTable(stages, products) && Within(w, allowed)
        ensures Gated(list, stages, products, w)
      {
        CloudResourcesLast(list, stages, products, w);
      }
    }
  }

  // ---------------------------------------------------------------- runs of passes

  /** What a pass leaves in the store; a panic ends the process before anything is written. */
  function Next(persisted: seq<string>, stages: seq<Stage>, w: World): seq<string> {
    if w.writeOk && !Panics(persisted, stages, w) then Uninstalled(persisted, stages, w).list else persisted
  }

  /** Passes over the persisted CR until it is gone; the log of the whole run. */
  function Passes(persisted: seq<string>, passes: seq<(seq<Stage>, World)>): (seq<string>, seq<Uninstall.Event>)
    decreases |passes|
  {
    if passes == [] || persisted == [] then (persisted, [])
    else
      var (stages, w) := passes[0];
      var r := Uninstalled(persisted, stages, w);
      var (last, log) := Passes(Next(persisted, stages, w), passes[1..]);
      (last, r.log + log)
  }

  /** Over any number of passes, with any order, any cleanup outcomes and any lost writes: a product
      whose finalizer is no longer persisted had a cleanup that completed without an error. */
  lemma {:induction false} NoFinalizerLostOverRun(persisted: seq<string>, passes: seq<(seq<Stage>, World)>, p: string)
    requires Current(p) in persisted && Current(p) !in Passes(persisted, passes).0
    ensures CleanupSucceeded(Passes(persisted, passes).1, p)
    decreases |passes|
  {
    var (stages, w) := passes[0];
    var r := Uninstalled(persisted, stages, w);
    var next := Next(persisted, stages, w);
    var rest := Passes(next, passes[1..]);
    if Current(p) in next {
      NoFinalizerLostOverRun(next, passes[1..], p);
      var e :| e in rest.1 && e.CleanedUp? && e.product == p && e.outcome == OK;
      assert e in r.log + rest.1;
    } else {
      SpellingsDistinct(p, p);
      FinalizerLeavesAfterCleanup(persisted, stages, w);
      var q :| q in AllProducts(stages) && Current(p) == Current(q) && CleanupSucceeded(r.log, q);
      CurrentInjective(p, q);
      var e :| e in r.log && e.CleanedUp? && e.product == p && e.outcome == OK;
      assert e in r.log + rest.1;
    }
  }

  // ---------------------------------------------------------------- duplicates

  lemma {:induction false} HandledOnNoDuplicates(st: Pass, p: string, snapshot: seq<string>, n: nat, w: World)
    requires NoDuplicates(st.list)
    ensures var (st1, stand) := Handled(st, p, snapshot, n, w); stand != Panicked && NoDuplicates(st1.list)
    decreases |snapshot|
  {
    HandledIsFate(st, p, snapshot, n, w);
    WithoutKeepsNoDuplicates(st.list, Current(p));
  }

  lemma {:induction false} StageOnNoDuplicates(st: Pass, products: seq<string>, snapshot: seq<string>, w: World)
    requires NoDuplicates(st.list)
    ensures var (st1, stand) := StageHandled(st, products, snapshot, w); stand != Panicked && NoDuplicates(st1.list)
    decreases |products|
  {
    if products != [] {
      HandledOnNoDuplicates(st, products[0], snapshot, 0, w);
      StageOnNoDuplicates(Handled(st, products[0], snapshot, 0, w).0, products[1..], snapshot, w);
    }
  }

  lemma {:induction false} WalkOnNoDuplicates(st: Pass, stages: seq<Stage>, snapshot: seq<string>, w: World)
    requires NoDuplicates(st.list)
    ensures var (st1, stand) := Walked(st, stages, snapshot, w); stand != Panicked && NoDuplicates(st1.list)
    decreases |stages|
  {
    if stages != [] {
      StageOnNoDuplicates(st, stages[0].products, snapshot, w);
      var st1 := if stages[0].name == BOOTSTRAP then st else StageHandled(st, stages[0].products, snapshot, w).0;
      WalkOnNoDuplicates(st1, stages[1..], snapshot, w);
    }
  }

  /** A pass over a duplicate-free list does not panic and leaves a duplicate-free list. */
  lemma PassKeepsNoDuplicates(list: seq<string>, stages: seq<Stage>, w: World)
    requires NoDuplicates(list)
    ensures !Panics(list, stages, w) && NoDuplicates(Uninstalled(list, stages, w).list)
  {
    WalkOnNoDuplicates(Pass(list, []), stages, list, w);
    PassAfterWalk(list, stages, w);
  }

  /** Nor does any run of passes that starts from one. */
  lemma {:induction false} PassesKeepNoDuplicates(persisted: seq<string>, passes: seq<(seq<Stage>, World)>)
    requires NoDuplicates(persisted)
    ensures NoDuplicates(Passes(persisted, passes).0) && !EverPanics(persisted, passes)
    decreases |passes|
  {
    if passes != [] && persisted != [] {
      PassKeepsNoDuplicates(persisted, passes[0].0, passes[0].1);
      PassesKeepNoDuplicates(Next(persisted, passes[0].0, passes[0].1), passes[1..]);
    }
  }

  predicate EverPanics(persisted: seq<string>, passes: seq<(seq<Stage>, World)>)
    decreases |passes|
  {
    passes != [] && persisted != [] &&
    (Panics(persisted, passes[0].0, passes[0].1) || EverPanics(Next(persisted, passes[0].0, passes[0].1), passes[1..]))
  }

  // ---------------------------------------------------------------- the pass in which all goes well

  ghost predicate AllGoesWell(w: World) {
    && (forall p, n :: w.answers(p, n) == Cleanup(OK))
    && w.writeOk && w.operatorOk && w.configMap != Stuck && w.cloudConfig != Stuck
  }

  lemma {:induction false} FateWhenAllGoesWell(held: bool, p: string, snapshot: seq<string>, n: nat, w: World)
    requires AllGoesWell(w)
    ensures !Fate(held, p, snapshot, n, w).1
    ensures held && Current(p) in snapshot && !Skips(p, w) ==> Fate(held, p, snapshot, n, w).0
    ensures Skips(p, w) || !held ==> !Fate(held, p, snapshot, n, w).0
    decreases |snapshot|
  {
    OwnFinalizerMatches(p);
    if snapshot != [] {
      FateWhenAllGoesWell(held, p, snapshot[1..], n, w);
      FateWhenAllGoesWell(held, p, snapshot[1..], n + 1, w);
      FateWhenAllGoesWell(false, p, snapshot[1..], n + 1, w);
    }
  }

  lemma StageWhenAllGoesWell(st: Pass, products: seq<string>, snapshot: seq<string>, w: World)
    requires AllGoesWell(w) && NoDuplicates(products) && NoDuplicates(st.list)
    requires forall f | f in st.list :: f in snapshot
    ensures var (st1, stand) := StageHandled(st, products, snapshot, w);
      && stand == Settled
      && (forall f :: f in st1.list <==> f in st.list && !exists p | p in products :: !Skips(p, w) && f == Current(p))
      && NoDuplicates(st1.list)
  {
    StageClosedForm(st, products, snapshot, w);
    var drop := Dropped(st.list, products, snapshot, w);
    forall p ensures !Fate(Current(p) in st.list, p, snapshot, 0, w).1 {
      FateWhenAllGoesWell(Current(p) in st.list, p, snapshot, 0, w);
    }
    forall f | f in st.list
      ensures f in drop <==> exists p | p in products :: !Skips(p, w) && f == Current(p)
    {
      forall p | p in products ensures Fate(Current(p) in st.list, p, snapshot, 0, w).0 ==> !Skips(p, w) {
        FateWhenAllGoesWell(Current(p) in st.list, p, snapshot, 0, w);
      }
      forall p | p in products && !Skips(p, w) && f == Current(p)
        ensures Fate(Current(p) in st.list, p, snapshot, 0, w).0
      {
        FateWhenAllGoesWell(Current(p) in st.list, p, snapshot, 0, w);
      }
    }
    KeepKeepsNoDuplicates(st.list, drop);
  }

  /** The finalizers a fully successful pass gets rid of. */
  ghost predicate Removable(f: string, products: set<string>, w: World) {
    exists p | p in products + {CLOUD_RESOURCES} :: !Skips(p, w) && f == Current(p)
  }

  /** When every cleanup and every write succeeds, one pass ends with the CR empty and the operator
      removed exactly when the CR held the controller's finalizer and, besides it, only current
      finalizers of products in the table (Grafana's only outside prow). */
  lemma OnePassSufficesIff(list: seq<string>, stages: seq<Stage>, products: set<string>, w: World)
    requires NoDuplicates(list) && IsTable(stages, products) && AllGoesWell(w)
    ensures OperatorRemoved in Uninstalled(list, stages, w).log
       <==> DELETION in list && forall f | f in list :: f == DELETION || Removable(f, products, w)
    ensures OperatorRemoved in Uninstalled(list, stages, w).log ==> Uninstalled(list, stages, w).list == []
  {
    var st0 := Pass(list, []);
    var st1 := StageHandled(st0, stages[0].products, list, w).0;
    var st2 := StageHandled(st1, [CLOUD_RESOURCES], list, w).0;
    WalkOfTable(list, stages, products, w);
    StageWhenAllGoesWell(st0, stages[0].products, list, w);
    StageWhenAllGoesWell(st1, [CLOUD_RESOURCES], list, w);
    OperatorGoesLast(list, stages, w);
    forall f ensures f in st2.list <==> f in list && !Removable(f, products, w) {
      RemovedByEitherStage(f, stages[0].products, products, w);
    }
    assert !Removable(DELETION, products, w) by {
      forall p ensures DELETION != Current(p) { SpellingsDistinct(p, p); }
    }
    if DELETION in list && forall f | f in list :: f == DELETION || Removable(f, products, w) {
      OnlyElement(st2.list, DELETION);
    }
    WalkProgress(st0, stages, list, w);
    assert st2.list == [DELETION] ==> DELETION in st2.list;
    assert st2.list == [DELETION] ==> forall f | f in list && !Removable(f, products, w) :: f in st2.list;
  }

  lemma RemovedByEitherStage(f: string, first: seq<string>, products: set<string>, w: World)
    requires Elements(first) == products
    ensures Removable(f, products, w) <==>
      ((exists p | p in first :: !Skips(p, w) && f == Current(p))
       || (exists p | p in [CLOUD_RESOURCES] :: !Skips(p, w) && f == Current(p)))
  {
    assert forall p :: p in first <==> p in products;
    assert forall p :: p in [CLOUD_RESOURCES] <==> p == CLOUD_RESOURCES;
  }

  lemma PassKeepsDeletion(list: seq<string>, stages: seq<Stage>, w: World)
    requires DELETION in list
    ensures var next := Next(list, stages, w); next == [] || DELETION in next
  {
    WalkProgress(Pass(list, []), stages, list, w);
    PassAfterWalk(list, stages, w);
    forall p ensures Current(p) != DELETION { SpellingsDistinct(p, p); }
  }

  /** However many passes fail before, in whatever way and over whatever stages: from a duplicate-free
      list of the controller's finalizer and current finalizers of the table, the first pass in which
      all goes well leaves nothing. */
  lemma {:induction false} RunCompletes(
    list: seq<string>, passes: seq<(seq<Stage>, World)>, stages: seq<Stage>, products: set<string>, w: World)
    requires NoDuplicates(list) && IsTable(stages, products) && AllGoesWell(w)
    requires list == [] || DELETION in list
    requires forall f | f in list :: f == DELETION || Removable(f, products, w)
    ensures Passes(list, passes + [(stages, w)]).0 == []
    decreases |passes|
  {
    var all := passes + [(stages, w)];
    if list != [] {
      var next := Next(list, all[0].0, all[0].1);
      if passes == [] {
        PassKeepsNoDuplicates(list, stages, w);
        OnePassSufficesIff(list, stages, products, w);
        assert all[1..] == [];
      } else {
        PassKeepsNoDuplicates(list, passes[0].0, passes[0].1);
        PassKeepsDeletion(list, passes[0].0, passes[0].1);
        FinalizerLeavesAfterCleanup(list, passes[0].0, passes[0].1);
        RunCompletes(next, passes[1..], stages, products, w);
        assert all[1..] == passes[1..] + [(stages, w)];
      }
    }
  }
}
