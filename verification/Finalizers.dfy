/** The finalizers of the installation CR: pkg/resources/finalizers.go, `ReconcileFinalizer` in
    pkg/resources/reconciler.go and the finalizer set-up at the head of the controller's reconcile. */
module Finalizers {
  import opened Phases
  import opened Options
  import opened Slices

  const DELETION := "configmaps/finalizer"
  const PREVIOUS_DELETION := "finalizer/configmaps"

  function Current(product: string): string { product + ".integreatly.org/finalizer" }

  function Legacy(product: string): string { "finalizer." + product + ".integreatly.org" }

  /** The CR in memory, what of its finalizers is persisted, and whether deletion was requested. */
  datatype CR = CR(finalizers: seq<string>, persisted: seq<string>, deleting: bool)

  /** The list `Remove` leaves, or nothing when it panics. */
  function Removed(list: seq<string>, s: string): Option<seq<string>> {
    if RunsOff(list, s) then None else Some(SkipScan(list, s))
  }

  function Saved(cr: CR, ok: bool): CR { if ok then cr.(persisted := cr.finalizers) else cr }

  /** `AddFinalizer`. */
  function Added(cr: CR, f: string, ok: bool): (CR, bool) {
    if f !in cr.finalizers && !cr.deleting
    then (Saved(cr.(finalizers := cr.finalizers + [f]), ok), ok)
    else (cr, true)
  }

  /** `UpdateFinalizer`: the legacy finalizer of a product becomes its current one. */
  function Migrated(cr: CR, product: string, ok: bool): (CR, bool) {
    if Legacy(product) in cr.finalizers && !cr.deleting
    then (Saved(cr.(finalizers := Replaced(cr.finalizers, Legacy(product), Current(product))), ok), ok)
    else (cr, true)
  }

  /** `ReconcileFinalizer`; nothing when the process panics. */
  function Reconciled(cr: CR, product: string, uninstall: bool, cleanup: Outcome, migrateOk: bool, addOk: bool)
    : Option<(CR, Outcome)>
  {
    var f := Current(product);
    if uninstall then
      if f !in cr.finalizers then Some((cr, Outcome(Completed, false)))
      else if cleanup.failed || cleanup.phase != Completed then Some((cr, cleanup))
      else match Removed(cr.finalizers, f)
        case None => None
        case Some(list) => Some((cr.(finalizers := list), Outcome(Completed, false)))
    else
      var (cr1, ok1) := Migrated(cr, product, migrateOk);
      if !ok1 then Some((cr1, Outcome(Failed, true)))
      else
        var (cr2, ok2) := Added(cr1, f, addOk);
        Some((cr2, if ok2 then Outcome(Completed, false) else Outcome(Failed, true)))
  }

  /** The controller's own finalizer: taken over from its old spelling, or appended in memory only.
      The flag tells whether the reconcile goes on. */
  function SetUp(cr: CR, ok: bool): (CR, bool) {
    if DELETION in cr.finalizers || cr.deleting then (cr, true)
    else if PREVIOUS_DELETION in cr.finalizers then
      (Saved(cr.(finalizers := Replaced(cr.finalizers, PREVIOUS_DELETION, DELETION)), ok), ok)
    else (cr.(finalizers := cr.finalizers + [DELETION]), true)
  }

  class Installation {
    var finalizers: seq<string>
    var persisted: seq<string>
    var deleting: bool

    ghost function View(): CR
      reads this
    {
      CR(finalizers, persisted, deleting)
    }

    constructor (cr: CR)
      ensures View() == cr
    {
      finalizers, persisted, deleting := cr.finalizers, cr.persisted, cr.deleting;
    }

    /** `client.Update`: persisted, or lost with an error. */
    method Update(ok: bool)
      modifies this
      ensures View() == Saved(old(View()), ok)
    {
      if ok {
        persisted := finalizers;
      }
    }

    method AddFinalizer(f: string, ok: bool) returns (success: bool)
      modifies this
      ensures (View(), success) == Added(old(View()), f, ok)
    {
      var present := Contains(finalizers, f);
      success := true;
      if !present && !deleting {
        finalizers := finalizers + [f];
        Update(ok);
        success := ok;
      }
    }

    method ReplaceInList(from: string, to: string)
      modifies this
      ensures View() == old(View()).(finalizers := Replaced(old(finalizers), from, to))
    {
      var list := finalizers;
      var a := new string[|list|](i requires 0 <= i < |list| => list[i]);
      assert a[..] == list;
      Replace(a, from, to);
      finalizers := a[..];
    }

    method RemoveFromList(f: string) returns (panicked: bool)
      modifies this
      ensures panicked <==> Removed(old(finalizers), f).None?
      ensures panicked ==> View() == old(View())
      ensures !panicked ==> View() == old(View()).(finalizers := Removed(old(finalizers), f).value)
    {
      var list := finalizers;
      var a := new string[|list|](i requires 0 <= i < |list| => list[i]);
      assert a[..] == list;
      var n := Remove(a, f);
      panicked := n.None?;
      if n.Some? {
        finalizers := a[..n.value];
      }
    }

    method UpdateFinalizer(product: string, ok: bool) returns (success: bool)
      modifies this
      ensures (View(), success) == Migrated(old(View()), product, ok)
    {
      var legacy := Contains(finalizers, Legacy(product));
      success := true;
      if legacy && !deleting {
        ReplaceInList(Legacy(product), Current(product));
        Update(ok);
        success := ok;
      }
    }

    method ReconcileFinalizer(product: string, uninstall: bool, cleanup: Outcome, migrateOk: bool, addOk: bool)
      returns (r: Option<Outcome>)
      modifies this
      ensures var spec := Reconciled(old(View()), product, uninstall, cleanup, migrateOk, addOk);
        if spec.None? then r == None && View() == old(View()) else (View(), r) == (spec.value.0, Some(spec.value.1))
    {
      var f := Current(product);
      if uninstall {
        var held := Contains(finalizers, f);
        if held {
          if cleanup.failed || cleanup.phase != Completed {
            return Some(cleanup);
          }
          var panicked := RemoveFromList(f);
          if panicked {
            return None;
          }
        }
        return Some(Outcome(Completed, false));
      }
      var ok := UpdateFinalizer(product, migrateOk);
      if !ok {
        return Some(Outcome(Failed, true));
      }
      ok := AddFinalizer(f, addOk);
      if !ok {
        return Some(Outcome(Failed, true));
      }
      return Some(Outcome(Completed, false));
    }

    method SetUpFinalizer(ok: bool) returns (proceed: bool)
      modifies this
      ensures (View(), proceed) == SetUp(old(View()), ok)
    {
      var present := Contains(finalizers, DELETION);
      proceed := true;
      if !present && !deleting {
        var previous := Contains(finalizers, PREVIOUS_DELETION);
        if previous {
          ReplaceInList(PREVIOUS_DELETION, DELETION);
          Update(ok);
          proceed := ok;
        } else {
          finalizers := finalizers + [DELETION];
        }
      }
    }
  }

  // ---------------------------------------------------------------- the invariant of the list

  /** No duplicates, and no product with both spellings of its finalizer. */
  ghost predicate Clean(list: seq<string>) {
    && NoDuplicates(list)
    && forall p :: !(Legacy(p) in list && Current(p) in list)
  }

  lemma CurrentInjective(p: string, q: string)
    requires Current(p) == Current(q)
    ensures p == q
  {
    assert Current(p)[..|p|] == p && Current(q)[..|q|] == q;
  }

  /** The spellings in use never collide. */
  lemma SpellingsDistinct(p: string, q: string)
    ensures Current(p) != Legacy(q)
    ensures Current(p) != DELETION && Legacy(p) != DELETION
    ensures Current(p) != PREVIOUS_DELETION && Legacy(p) != PREVIOUS_DELETION
  {
    assert Current(p)[|Current(p)| - 1] == 'r' && Legacy(q)[|Legacy(q)| - 1] == 'g' == Legacy(p)[|Legacy(p)| - 1];
    assert |Current(p)| > |DELETION| && |Current(p)| > |PREVIOUS_DELETION|;
    assert DELETION[|DELETION| - 1] == 'r' && PREVIOUS_DELETION[|PREVIOUS_DELETION| - 1] == 's';
  }

  lemma ReplacedMembers(list: seq<string>, from: string, to: string, x: string)
    ensures x in Replaced(list, from, to) <==> (x == to && from in list) || (x != from && x in list)
  {
    var r := Replaced(list, from, to);
    if from in list {
      var i :| 0 <= i < |list| && list[i] == from;
      assert r[i] == to;
    }
    if x != from && x in list {
      var i :| 0 <= i < |list| && list[i] == x;
      assert r[i] == x;
    }
  }

  lemma MigratedClean(cr: CR, product: string, ok: bool)
    requires Clean(cr.finalizers) && Clean(cr.persisted)
    ensures var cr1 := Migrated(cr, product, ok).0;
      Clean(cr1.finalizers) && Clean(cr1.persisted) && (!cr.deleting ==> Legacy(product) !in cr1.finalizers)
  {
    var legacy, current := Legacy(product), Current(product);
    SpellingsDistinct(product, product);
    var r := Replaced(cr.finalizers, legacy, current);
    if legacy in cr.finalizers {
      ReplaceNoDuplicatesIff(cr.finalizers, legacy, current);
      ReplacedMembers(cr.finalizers, legacy, current, legacy);
      forall p ensures !(Legacy(p) in r && Current(p) in r) {
        ReplacedMembers(cr.finalizers, legacy, current, Legacy(p));
        ReplacedMembers(cr.finalizers, legacy, current, Current(p));
        SpellingsDistinct(product, p);
        SpellingsDistinct(p, product);
        if Current(p) == current {
          CurrentInjective(p, product);
        }
      }
    }
  }

  lemma AddedClean(cr: CR, product: string, ok: bool)
    requires Clean(cr.finalizers) && Clean(cr.persisted) && (!cr.deleting ==> Legacy(product) !in cr.finalizers)
    ensures var cr1 := Added(cr, Current(product), ok).0; Clean(cr1.finalizers) && Clean(cr1.persisted)
  {
    var list := cr.finalizers + [Current(product)];
    forall p ensures !cr.deleting ==> !(Legacy(p) in list && Current(p) in list && Current(product) !in cr.finalizers) {
      SpellingsDistinct(product, p);
      if Current(p) == Current(product) {
        CurrentInjective(p, product);
      }
    }
  }

  lemma SetUpClean(cr: CR, ok: bool)
    requires Clean(cr.finalizers) && Clean(cr.persisted)
    ensures var cr1 := SetUp(cr, ok).0; Clean(cr1.finalizers) && Clean(cr1.persisted)
  {
    if DELETION !in cr.finalizers && !cr.deleting {
      var cr1 := SetUp(cr, ok).0;
      if PREVIOUS_DELETION in cr.finalizers {
        ReplaceNoDuplicatesIff(cr.finalizers, PREVIOUS_DELETION, DELETION);
      }
      forall p ensures !(Legacy(p) in cr1.finalizers && Current(p) in cr1.finalizers) {
        SpellingsDistinct(p, p);
        ReplacedMembers(cr.finalizers, PREVIOUS_DELETION, DELETION, Legacy(p));
        ReplacedMembers(cr.finalizers, PREVIOUS_DELETION, DELETION, Current(p));
      }
    }
  }

  function Remaining(list: seq<string>, product: string, cleanup: Outcome): seq<string> {
    if cleanup == Outcome(Completed, false) then Without(list, Current(product)) else list
  }

  /** `ReconcileFinalizer` never panics on a clean CR, leaves it clean in memory and in the store,
      and when uninstalling removes exactly the finalizer of a product whose cleanup completed. */
  lemma ReconciledClean(cr: CR, product: string, uninstall: bool, cleanup: Outcome, migrateOk: bool, addOk: bool)
    requires Clean(cr.finalizers) && Clean(cr.persisted)
    ensures var r := Reconciled(cr, product, uninstall, cleanup, migrateOk, addOk);
      && r.Some? && Clean(r.value.0.finalizers) && Clean(r.value.0.persisted)
      && (uninstall ==> r.value.0.finalizers == Remaining(cr.finalizers, product, cleanup))
  {
    var f := Current(product);
    if uninstall {
      RemoveFromDuplicateFree(cr.finalizers, f);
      WithoutKeepsNoDuplicates(cr.finalizers, f);
      WithoutAbsent(cr.finalizers, f);
    } else {
      MigratedClean(cr, product, migrateOk);
      AddedClean(Migrated(cr, product, migrateOk).0, product, addOk);
    }
  }

  lemma WithoutAbsent(list: seq<string>, s: string)
    ensures s !in list ==> Without(list, s) == list
  {
  }

  // ---------------------------------------------------------------- over every run

  datatype Event =
    | Reload                    // a reconcile starts from the persisted CR
    | RequestDeletion
    | SetUpOwn(ok: bool)
    | Product(name: string, uninstall: bool, cleanup: Outcome, migrateOk: bool, addOk: bool)
    | Save(ok: bool)

  function After(cr: CR, e: Event): Option<CR> {
    match e
    case Reload => Some(cr.(finalizers := cr.persisted))
    case RequestDeletion => Some(cr.(deleting := true))
    case SetUpOwn(ok) => Some(SetUp(cr, ok).0)
    case Product(p, u, c, m, a) =>
      (match Reconciled(cr, p, u, c, m, a)
       case None => None
       case Some(r) => Some(r.0))
    case Save(ok) => Some(Saved(cr, ok))
  }

  function Run(cr: CR, events: seq<Event>): Option<CR>
    decreases |events|
  {
    if events == [] then Some(cr)
    else match After(cr, events[0])
      case None => None
      case Some(cr1) => Run(cr1, events[1..])
  }

  /** From a clean CR no run ever panics, and the list stays clean in memory and in the store. */
  lemma {:induction false} EveryRunClean(cr: CR, events: seq<Event>)
    requires Clean(cr.finalizers) && Clean(cr.persisted)
    ensures var r := Run(cr, events); r.Some? && Clean(r.value.finalizers) && Clean(r.value.persisted)
    decreases |events|
  {
    if events != [] {
      var e := events[0];
      match e {
        case SetUpOwn(ok) => SetUpClean(cr, ok);
        case Product(p, u, c, m, a) => ReconciledClean(cr, p, u, c, m, a);
        case _ =>
      }
      EveryRunClean(After(cr, e).value, events[1..]);
    }
  }

  /** Why the invariant is needed: with both spellings on the CR, migration makes a duplicate and
      the uninstall that follows panics, whenever the legacy spelling was the last entry. */
  lemma BothSpellingsPanic(prefix: seq<string>, product: string)
    requires Current(product) in prefix
    ensures var cr := CR(prefix + [Legacy(product)], [], false);
      var install := Product(product, false, Outcome(Completed, false), true, true);
      var uninstall := Product(product, true, Outcome(Completed, false), true, true);
      Run(cr, [install, uninstall]) == None
  {
    var list := prefix + [Legacy(product)];
    var cr := CR(list, [], false);
    var r := Replaced(list, Legacy(product), Current(product));
    SpellingsDistinct(product, product);
    var i :| 0 <= i < |prefix| && prefix[i] == Current(product);
    assert r[i] == Current(product) && r[..|r| - 1][i] == Current(product);
    assert RunsOff(r, Current(product));
    var cr1 := Migrated(cr, product, true).0;
    assert cr1.finalizers == r;
    var install := Product(product, false, Outcome(Completed, false), true, true);
    var uninstall := Product(product, true, Outcome(Completed, false), true, true);
    assert After(cr, install) == Some(cr1);
    assert After(cr1, uninstall) == None;
    assert [install, uninstall][1..] == [uninstall];
  }
}
