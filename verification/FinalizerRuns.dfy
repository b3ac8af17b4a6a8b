/** What installing and uninstalling products does to the finalizers of the CR, call by call and over
    every run: a product that was installed holds its finalizer until its own cleanup completed. */
module FinalizerRuns {
  import opened Options
  import opened Phases
  import opened Slices
  import opened Finalizers

  /** The list without the finalizers of one product. */
  function Others(list: seq<string>, p: string): seq<string> { Without(Without(list, Current(p)), Legacy(p)) }

  lemma {:induction false} OthersOfReplaced(list: seq<string>, p: string)
    ensures Others(Replaced(list, Legacy(p), Current(p)), p) == Others(list, p)
  {
    if list != [] {
      var r := Replaced(list, Legacy(p), Current(p));
      assert r[1..] == Replaced(list[1..], Legacy(p), Current(p));
      OthersOfReplaced(list[1..], p);
      SpellingsDistinct(p, p);
      OthersCons(list, p);
      OthersCons(r, p);
    }
  }

  lemma OthersCons(list: seq<string>, p: string)
    requires list != []
    ensures Others(list, p) ==
      if list[0] == Current(p) || list[0] == Legacy(p) then Others(list[1..], p)
      else [list[0]] + Others(list[1..], p)
  {
    var rest := Without(list[1..], Current(p));
    assert list[0] != Current(p) ==> Without(list, Current(p)) == [list[0]] + rest && ([list[0]] + rest)[1..] == rest;
  }

  lemma {:induction false} OthersOfAppended(list: seq<string>, p: string)
    ensures Others(list + [Current(p)], p) == Others(list, p)
  {
    var r := list + [Current(p)];
    OthersCons(r, p);
    if list != [] {
      assert r[1..] == list[1..] + [Current(p)];
      OthersOfAppended(list[1..], p);
      OthersCons(list, p);
    } else {
      assert r[1..] == [] && Others([], p) == [];
    }
  }

  // ---------------------------------------------------------------- one install

  /** Whether an install has something to write. */
  predicate Writes(cr: CR, p: string) { Legacy(p) in cr.finalizers || Current(p) !in cr.finalizers }

  /** Installing a product, on any CR that is not being deleted: it completes exactly when what it has to
      write is written; the product then holds its finalizer in its current spelling only, everything
      else is where it was, and what changed is persisted. */
  lemma InstallOutcome(cr: CR, p: string, cleanup: Outcome, migrateOk: bool, addOk: bool)
    requires !cr.deleting
    ensures var r := Reconciled(cr, p, false, cleanup, migrateOk, addOk);
      && r.Some?
      && var (cr', o) := r.value;
      && (o == Outcome(Completed, false) || o == Outcome(Failed, true))
      && (o.phase == Completed <==>
            (if Legacy(p) in cr.finalizers then migrateOk else Current(p) in cr.finalizers || addOk))
      && !cr'.deleting && Others(cr'.finalizers, p) == Others(cr.finalizers, p)
      && (o.phase == Completed ==>
            (&& Current(p) in cr'.finalizers && Legacy(p) !in cr'.finalizers
             && (if Writes(cr, p) then cr'.persisted == cr'.finalizers else cr' == cr)))
      && (o.phase != Completed ==> cr'.persisted == cr.persisted)
  {
    SpellingsDistinct(p, p);
    ReplacedMembers(cr.finalizers, Legacy(p), Current(p), Legacy(p));
    ReplacedMembers(cr.finalizers, Legacy(p), Current(p), Current(p));
    OthersOfReplaced(cr.finalizers, p);
    OthersOfAppended(cr.finalizers, p);
  }

  /** While the CR is being deleted an install changes nothing. */
  lemma InstallWhileDeleting(cr: CR, p: string, cleanup: Outcome, migrateOk: bool, addOk: bool)
    requires cr.deleting
    ensures Reconciled(cr, p, false, cleanup, migrateOk, addOk) == Some((cr, Outcome(Completed, false)))
  {
  }

  // ---------------------------------------------------------------- one uninstall

  /** Uninstalling a product, on any CR: its cleanup runs only if it holds its finalizer, and what the
      cleanup reports is what is reported; nothing is written. */
  lemma UninstallOutcome(cr: CR, p: string, cleanup: Outcome, migrateOk: bool, addOk: bool)
    ensures var r := Reconciled(cr, p, true, cleanup, migrateOk, addOk);
      var held, done := Current(p) in cr.finalizers, cleanup == Outcome(Completed, false);
      && (r.None? <==> held && done && RunsOff(cr.finalizers, Current(p)))
      && (r.Some? ==>
            (&& r.value.1 == (if held then cleanup else Outcome(Completed, false))
             && r.value.0.persisted == cr.persisted && r.value.0.deleting == cr.deleting
             && (!(held && done) ==> r.value.0 == cr)
             && (held && done ==>
                   multiset(r.value.0.finalizers)[Current(p)] < multiset(cr.finalizers)[Current(p)])
             && forall x | x != Current(p) ::
                  multiset(r.value.0.finalizers)[x] == multiset(cr.finalizers)[x]))
  {
    forall x { SkipScanCounts(cr.finalizers, Current(p), x); }
  }

  // ---------------------------------------------------------------- over runs

  ghost predicate Holds(cr: CR, p: string) { Current(p) in cr.finalizers && Current(p) in cr.persisted }

  predicate CleansUp(e: Event, p: string) {
    e.Product? && e.name == p && e.uninstall && e.cleanup == Outcome(Completed, false)
  }

  lemma AfterHolds(cr: CR, e: Event, p: string)
    requires Holds(cr, p) && !CleansUp(e, p) && After(cr, e).Some?
    ensures Holds(After(cr, e).value, p)
  {
    SpellingsDistinct(p, p);
    match e {
      case SetUpOwn(ok) =>
        ReplacedMembers(cr.finalizers, PREVIOUS_DELETION, DELETION, Current(p));
      case Product(q, uninstall, c, m, a) =>
        SpellingsDistinct(p, q);
        ReplacedMembers(cr.finalizers, Legacy(q), Current(q), Current(p));
        SkipScanMembers(cr.finalizers, Current(q), Current(p));
        if Current(p) == Current(q) {
          CurrentInjective(p, q);
        }
      case _ =>
    }
  }

  /** A product that holds its finalizer, in memory and in the store, keeps both over every run that
      does not panic until its own cleanup completes. */
  lemma {:induction false} HoldsUntilCleanup(cr: CR, events: seq<Event>, p: string)
    requires Holds(cr, p) && Run(cr, events).Some? && forall e | e in events :: !CleansUp(e, p)
    ensures Holds(Run(cr, events).value, p)
    decreases |events|
  {
    if events != [] {
      AfterHolds(cr, events[0], p);
      HoldsUntilCleanup(After(cr, events[0]).value, events[1..], p);
    }
  }

  /** In particular one that was installed on a CR as it had been read. */
  lemma InstalledHoldsUntilCleanup(cr: CR, p: string, c: Outcome, migrateOk: bool, addOk: bool, events: seq<Event>)
    requires !cr.deleting && cr.persisted == cr.finalizers
    requires var r := Reconciled(cr, p, false, c, migrateOk, addOk); r.Some? && r.value.1.phase == Completed
    requires Run(Reconciled(cr, p, false, c, migrateOk, addOk).value.0, events).Some?
    requires forall e | e in events :: !CleansUp(e, p)
    ensures Holds(Run(Reconciled(cr, p, false, c, migrateOk, addOk).value.0, events).value, p)
  {
    InstallOutcome(cr, p, c, migrateOk, addOk);
    HoldsUntilCleanup(Reconciled(cr, p, false, c, migrateOk, addOk).value.0, events, p);
  }

  /** The controller's own finalizer: held after every set-up on a CR that is not being deleted that goes
      on, in place of its old spelling or at the end, and persisted only in the first case. */
  lemma SetUpOutcome(cr: CR, ok: bool)
    requires !cr.deleting
    ensures var (cr', goesOn) := SetUp(cr, ok);
      var old' := PREVIOUS_DELETION in cr.finalizers && DELETION !in cr.finalizers;
      && DELETION in cr'.finalizers && (goesOn <==> (old' ==> ok))
      && (old' ==> |cr'.finalizers| == |cr.finalizers| && PREVIOUS_DELETION !in cr'.finalizers
                   && Without(cr'.finalizers, DELETION) == Without(cr.finalizers, PREVIOUS_DELETION))
      && (!old' ==> Without(cr'.finalizers, DELETION) == Without(cr.finalizers, DELETION))
      && cr'.persisted == (if old' && ok then cr'.finalizers else cr.persisted)
  {
    ReplacedMembers(cr.finalizers, PREVIOUS_DELETION, DELETION, DELETION);
    ReplacedMembers(cr.finalizers, PREVIOUS_DELETION, DELETION, PREVIOUS_DELETION);
    if DELETION !in cr.finalizers {
      WithoutOfReplaced(cr.finalizers, PREVIOUS_DELETION, DELETION);
      WithoutOfAppended(cr.finalizers, DELETION);
    }
  }

  lemma SetUpWhileDeleting(cr: CR, ok: bool)
    requires cr.deleting
    ensures SetUp(cr, ok) == (cr, true)
  {
  }

  lemma {:induction false} WithoutOfReplaced(list: seq<string>, from: string, to: string)
    requires to !in list
    ensures Without(Replaced(list, from, to), to) == Without(list, from)
  {
    if list != [] {
      assert Replaced(list, from, to)[1..] == Replaced(list[1..], from, to);
      WithoutOfReplaced(list[1..], from, to);
    }
  }

  lemma {:induction false} WithoutOfAppended(list: seq<string>, s: string)
    ensures Without(list + [s], s) == Without(list, s)
  {
    var r := list + [s];
    if list == [] {
      assert r[1..] == [];
    } else {
      assert r[1..] == list[1..] + [s];
      WithoutOfAppended(list[1..], s);
    }
  }
}
