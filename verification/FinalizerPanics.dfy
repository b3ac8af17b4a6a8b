/** Exactly when some run of finalizer reconciles panics, for any products in any order. */
module FinalizerPanics {
  import opened Options
  import opened Phases
  import opened Slices
  import opened Finalizers

  /** A spelling of the product's finalizer that an uninstall can come to remove: the legacy one only
      while migration is still possible. */
  predicate OfProduct(x: string, p: string, deleting: bool) {
    x == Current(p) || (!deleting && x == Legacy(p))
  }

  ghost predicate OfSomeProduct(x: string, deleting: bool) { exists p :: OfProduct(x, p, deleting) }

  /** Two finalizers of one product with nothing after the second that cannot be removed. */
  ghost predicate BrittleAt(list: seq<string>, deleting: bool, p: string, i: nat) {
    && i < |list| && OfProduct(list[i], p, deleting)
    && (exists j | 0 <= j < i :: OfProduct(list[j], p, deleting))
    && (forall j | i < j < |list| :: OfSomeProduct(list[j], deleting))
  }

  ghost predicate Brittle(list: seq<string>, deleting: bool) {
    exists p, i: nat :: BrittleAt(list, deleting, p, i)
  }

  ghost predicate Sturdy(cr: CR) { !Brittle(cr.finalizers, cr.deleting) && !Brittle(cr.persisted, cr.deleting) }

  lemma LegacyInjective(p: string, q: string)
    requires Legacy(p) == Legacy(q)
    ensures p == q
  {
    var n := |"finalizer."|;
    assert Legacy(p)[n..n + |p|] == p && Legacy(q)[n..n + |q|] == q;
  }

  lemma OneProduct(x: string, p: string, q: string, deleting: bool)
    requires OfProduct(x, p, deleting) && OfProduct(x, q, deleting)
    ensures p == q
  {
    SpellingsDistinct(p, q);
    SpellingsDistinct(q, p);
    if x == Current(p) {
      CurrentInjective(p, q);
    } else {
      LegacyInjective(p, q);
    }
  }

  // ---------------------------------------------------------------- sturdy lists stay sturdy

  lemma ScanKeepsNotBrittle(list: seq<string>, s: string, deleting: bool)
    requires !Brittle(list, deleting) && OfSomeProduct(s, deleting)
    ensures !Brittle(SkipScan(list, s), deleting)
  {
    var r := SkipScan(list, s);
    var at := SkipScanEmbeds(list, s);
    if p, i: nat :| BrittleAt(r, deleting, p, i) {
      EmbeddedBrittle(r, list, s, at, deleting, p, i);
    }
  }

  lemma EmbeddedBrittle(
    r: seq<string>, list: seq<string>, s: string, at: seq<nat>, deleting: bool, p: string, i: nat)
    requires Embeds(r, list, s, at) && OfSomeProduct(s, deleting) && BrittleAt(r, deleting, p, i)
    ensures BrittleAt(list, deleting, p, at[i])
  {
    var j :| 0 <= j < i && OfProduct(r[j], p, deleting);
    assert at[j] < at[i] && OfProduct(list[at[j]], p, deleting);
    forall m | at[i] < m < |list| ensures OfSomeProduct(list[m], deleting) {
      EmbeddedAfter(r, list, s, at, i, m);
    }
  }

  /** What a list says of every product decides whether it is brittle. */
  lemma SameSpellings(list: seq<string>, r: seq<string>, deleting: bool)
    requires |list| == |r| && !Brittle(list, deleting)
    requires forall j, p | 0 <= j < |r| && OfProduct(r[j], p, deleting) :: OfProduct(list[j], p, deleting)
    ensures !Brittle(r, deleting)
  {
    if p, i: nat :| BrittleAt(r, deleting, p, i) {
      forall j | i < j < |list| ensures OfSomeProduct(list[j], deleting) {
        var q :| OfProduct(r[j], q, deleting);
        assert OfProduct(list[j], q, deleting);
      }
      assert BrittleAt(list, deleting, p, i);
    }
  }

  lemma MigratedSpelling(list: seq<string>, q: string, j: nat, p: string)
    requires j < |list|
    ensures OfProduct(Replaced(list, Legacy(q), Current(q))[j], p, false) <==> OfProduct(list[j], p, false)
  {
    if list[j] == Legacy(q) {
      if OfProduct(Current(q), p, false) {
        OneProduct(Current(q), p, q, false);
      }
      if OfProduct(Legacy(q), p, false) {
        OneProduct(Legacy(q), p, q, false);
      }
    }
  }

  lemma MigrateKeepsNotBrittle(list: seq<string>, q: string)
    requires !Brittle(list, false)
    ensures !Brittle(Replaced(list, Legacy(q), Current(q)), false)
  {
    var r := Replaced(list, Legacy(q), Current(q));
    forall j, p | 0 <= j < |r| && OfProduct(r[j], p, false) ensures OfProduct(list[j], p, false) {
      MigratedSpelling(list, q, j, p);
    }
    SameSpellings(list, r, false);
  }

  lemma AppendKeepsNotBrittle(list: seq<string>, x: string)
    requires !Brittle(list, false)
    requires forall j, p | 0 <= j < |list| && OfProduct(x, p, false) :: !OfProduct(list[j], p, false)
    ensures !Brittle(list + [x], false)
  {
    var r := list + [x];
    if p, i: nat :| BrittleAt(r, false, p, i) {
      var j :| 0 <= j < i && OfProduct(r[j], p, false);
      assert OfProduct(list[j], p, false);
      if i < |list| {
        forall m | i < m < |list| ensures OfSomeProduct(list[m], false) { assert r[m] == list[m]; }
        assert BrittleAt(list, false, p, i);
      }
    }
  }

  lemma InstallKeepsSturdy(cr: CR, q: string, cleanup: Outcome, migrateOk: bool, addOk: bool)
    requires Sturdy(cr)
    ensures var r := Reconciled(cr, q, false, cleanup, migrateOk, addOk); r.Some? && Sturdy(r.value.0)
  {
    if !cr.deleting {
      MigrateKeepsNotBrittle(cr.finalizers, q);
      var cr1 := Migrated(cr, q, migrateOk).0;
      var list := cr1.finalizers;
      SpellingsDistinct(q, q);
      ReplacedMembers(cr.finalizers, Legacy(q), Current(q), Legacy(q));
      assert Legacy(q) !in list;
      if Current(q) !in list {
        forall j, p | 0 <= j < |list| && OfProduct(Current(q), p, false) ensures !OfProduct(list[j], p, false) {
          OneProduct(Current(q), p, q, false);
          assert list[j] in list;
        }
        AppendKeepsNotBrittle(list, Current(q));
      }
    }
  }

  lemma NotOfProduct(p: string, deleting: bool)
    ensures !OfProduct(DELETION, p, deleting) && !OfProduct(PREVIOUS_DELETION, p, deleting)
  {
    SpellingsDistinct(p, p);
  }

  lemma SetUpKeepsSturdy(cr: CR, ok: bool)
    requires Sturdy(cr)
    ensures Sturdy(SetUp(cr, ok).0)
  {
    forall p ensures !OfProduct(DELETION, p, false) { NotOfProduct(p, false); }
    if DELETION !in cr.finalizers && !cr.deleting {
      if PREVIOUS_DELETION in cr.finalizers {
        SameSpellings(cr.finalizers, Replaced(cr.finalizers, PREVIOUS_DELETION, DELETION), false);
      } else {
        AppendKeepsNotBrittle(cr.finalizers, DELETION);
      }
    }
  }

  lemma UninstallKeepsSturdy(cr: CR, q: string, cleanup: Outcome, migrateOk: bool, addOk: bool)
    requires Sturdy(cr)
    ensures var r := Reconciled(cr, q, true, cleanup, migrateOk, addOk); r.Some? && Sturdy(r.value.0)
  {
    var list, f := cr.finalizers, Current(q);
    assert OfProduct(f, q, cr.deleting);
    ScanKeepsNotBrittle(list, f, cr.deleting);
    if RunsOff(list, f) {
      var j :| 0 <= j < |list| - 1 && list[..|list| - 1][j] == f;
      assert OfProduct(list[j], q, cr.deleting);
      assert BrittleAt(list, cr.deleting, q, |list| - 1);
    }
  }

  lemma DeletionKeepsNotBrittle(list: seq<string>, deleting: bool)
    requires !Brittle(list, deleting)
    ensures !Brittle(list, true)
  {
    if p, i: nat :| BrittleAt(list, true, p, i) {
      forall j | i < j < |list| ensures OfSomeProduct(list[j], deleting) {
        var q :| OfProduct(list[j], q, true);
        assert OfProduct(list[j], q, deleting);
      }
      var j :| 0 <= j < i && OfProduct(list[j], p, true);
      assert OfProduct(list[j], p, deleting);
      assert BrittleAt(list, deleting, p, i);
    }
  }

  lemma AfterSturdy(cr: CR, e: Event)
    requires Sturdy(cr)
    ensures After(cr, e).Some? && Sturdy(After(cr, e).value)
  {
    match e {
      case SetUpOwn(ok) => SetUpKeepsSturdy(cr, ok);
      case Product(q, uninstall, c, m, a) =>
        InstallKeepsSturdy(cr, q, c, m, a);
        UninstallKeepsSturdy(cr, q, c, m, a);
      case RequestDeletion =>
        DeletionKeepsNotBrittle(cr.finalizers, cr.deleting);
        DeletionKeepsNotBrittle(cr.persisted, cr.deleting);
      case _ =>
    }
  }

  lemma {:induction false} RunSturdy(cr: CR, events: seq<Event>)
    requires Sturdy(cr)
    ensures Run(cr, events).Some?
    decreases |events|
  {
    if events != [] {
      AfterSturdy(cr, events[0]);
      RunSturdy(After(cr, events[0]).value, events[1..]);
    }
  }

  // ---------------------------------------------------------------- brittle lists can panic

  const DONE := Outcome(Completed, false)

  function Installing(q: string): Event { Product(q, false, DONE, true, true) }

  function Uninstalling(q: string): Event { Product(q, true, DONE, true, true) }

  lemma RunCons(cr: CR, e: Event, events: seq<Event>)
    ensures Run(cr, [e] + events) == match After(cr, e) case None => None case Some(cr1) => Run(cr1, events)
  {
    assert ([e] + events)[1..] == events;
  }

  /** `r` is `list` with every finalizer of `q` in its current spelling. */
  ghost predicate Respelled(list: seq<string>, r: seq<string>, q: string, deleting: bool) {
    && |r| == |list|
    && forall j | 0 <= j < |list| :: r[j] == if OfProduct(list[j], q, deleting) then Current(q) else list[j]
  }

  /** Installing a product that has a finalizer only respells it. */
  lemma InstallRespells(cr: CR, q: string, n: nat)
    requires n < |cr.finalizers| && OfProduct(cr.finalizers[n], q, cr.deleting)
    ensures var r := After(cr, Installing(q));
      && r.Some? && r.value.deleting == cr.deleting
      && Respelled(cr.finalizers, r.value.finalizers, q, cr.deleting)
  {
    SpellingsDistinct(q, q);
    var list := cr.finalizers;
    var r := Replaced(list, Legacy(q), Current(q));
    assert !cr.deleting ==> r[n] == Current(q);
    assert Legacy(q) !in list ==> r == list;
    assert cr.deleting ==> list[n] == Current(q);
  }

  lemma UninstallRemoves(cr: CR, q: string)
    requires Current(q) in cr.finalizers
    ensures After(cr, Uninstalling(q)) ==
      match Removed(cr.finalizers, Current(q))
      case None => None
      case Some(list) => Some(cr.(finalizers := list))
  {
  }

  /** Removing another product's finalizer leaves a brittle list brittle. */
  lemma ScanKeepsBrittle(list: seq<string>, s: string, deleting: bool, p: string, i: nat) returns (k: nat)
    requires BrittleAt(list, deleting, p, i) && !OfProduct(s, p, deleting)
    ensures BrittleAt(SkipScan(list, s), deleting, p, k)
  {
    var r := SkipScan(list, s);
    var at := SkipScanEmbeds(list, s);
    var j: nat :| j < i && OfProduct(list[j], p, deleting);
    assert i in at && j in at;
    k :| 0 <= k < |at| && at[k] == i;
    var l :| 0 <= l < |at| && at[l] == j;
    assert l < k && OfProduct(r[l], p, deleting);
    forall m | k < m < |r| ensures OfSomeProduct(r[m], deleting) {
      assert at[m] > i && r[m] == list[at[m]];
    }
  }

  lemma MigrateKeepsBrittle(list: seq<string>, r: seq<string>, deleting: bool, q: string, p: string, i: nat)
    requires BrittleAt(list, deleting, p, i) && p != q && Respelled(list, r, q, deleting)
    ensures BrittleAt(r, deleting, p, i)
  {
    forall j | 0 <= j < |list| && OfProduct(list[j], p, deleting) ensures OfProduct(r[j], p, deleting) {
      if OfProduct(list[j], q, deleting) {
        OneProduct(list[j], p, q, deleting);
      }
    }
    var j :| 0 <= j < i && OfProduct(list[j], p, deleting);
    assert OfProduct(r[j], p, deleting);
    assert OfProduct(Current(q), q, deleting);
  }

  /** An install and an uninstall of one product at the head of a run. */
  lemma RunOfBoth(cr: CR, q: string, cr1: CR, events: seq<Event>)
    requires After(cr, Installing(q)) == Some(cr1)
    ensures Run(cr, [Installing(q)] + ([Uninstalling(q)] + events))
         == match After(cr1, Uninstalling(q)) case None => None case Some(cr2) => Run(cr2, events)
  {
    RunCons(cr1, Uninstalling(q), events);
    RunCons(cr, Installing(q), [Uninstalling(q)] + events);
  }

  /** Two finalizers of the product of the last one: respelled, the last one cannot be removed. */
  lemma LastRunsOff(list: seq<string>, r: seq<string>, deleting: bool, p: string)
    requires list != [] && BrittleAt(list, deleting, p, |list| - 1) && Respelled(list, r, p, deleting)
    ensures RunsOff(r, Current(p))
  {
    var j :| 0 <= j < |list| - 1 && OfProduct(list[j], p, deleting);
    RunsOffAt(r, Current(p), j);
  }

  lemma RunsOffAt(r: seq<string>, f: string, j: nat)
    requires j < |r| - 1 && r[j] == f && r[|r| - 1] == f
    ensures RunsOff(r, f)
  {
    assert r[..|r| - 1][j] == f;
  }

  /** Another product's last finalizer is respelled and removed: the list gets shorter and stays
      brittle. */
  lemma LastGoes(list: seq<string>, r: seq<string>, deleting: bool, q: string, p: string, i: nat) returns (k: nat)
    requires BrittleAt(list, deleting, p, i) && p != q && Respelled(list, r, q, deleting) && Current(q) in r
    ensures |SkipScan(r, Current(q))| < |list| && BrittleAt(SkipScan(r, Current(q)), deleting, p, k)
  {
    MigrateKeepsBrittle(list, r, deleting, q, p, i);
    assert OfProduct(Current(q), q, deleting);
    if OfProduct(Current(q), p, deleting) {
      OneProduct(Current(q), p, q, deleting);
    }
    k := ScanKeepsBrittle(r, Current(q), deleting, p, i);
    SkipScanShortens(r, Current(q));
  }

  lemma LastProduct(list: seq<string>, deleting: bool, p: string, i: nat) returns (q: string)
    requires BrittleAt(list, deleting, p, i)
    ensures OfProduct(list[|list| - 1], q, deleting)
    ensures q == p ==> BrittleAt(list, deleting, p, |list| - 1)
  {
    var n := |list| - 1;
    assert i < n ==> OfSomeProduct(list[n], deleting);
    q :| OfProduct(list[n], q, deleting);
    if q == p {
      var j :| 0 <= j < i && OfProduct(list[j], p, deleting);
      assert 0 <= j < n;
    }
  }

  /** Products behind the repeated one are migrated and removed until it is last. */
  lemma {:induction false} BrittlePanics(cr: CR, p: string, i: nat) returns (events: seq<Event>)
    requires BrittleAt(cr.finalizers, cr.deleting, p, i)
    ensures Run(cr, events) == None
    decreases |cr.finalizers|
  {
    var list := cr.finalizers;
    var q := LastProduct(list, cr.deleting, p, i);
    InstallRespells(cr, q, |list| - 1);
    var cr1 := After(cr, Installing(q)).value;
    assert cr1.finalizers[|list| - 1] == Current(q);
    UninstallRemoves(cr1, q);
    events := [];
    if q == p {
      LastRunsOff(list, cr1.finalizers, cr.deleting, p);
    } else if !RunsOff(cr1.finalizers, Current(q)) {
      var k := LastGoes(list, cr1.finalizers, cr.deleting, q, p, i);
      events := BrittlePanics(cr1.(finalizers := SkipScan(cr1.finalizers, Current(q))), p, k);
    }
    RunOfBoth(cr, q, cr1, events);
    events := [Installing(q)] + ([Uninstalling(q)] + events);
  }

  /** No run of finalizer reconciles, set-ups, deletion requests, reloads and lost writes panics exactly
      when neither the list in memory nor the persisted one is brittle. */
  lemma NoRunPanicsIff(cr: CR)
    ensures (forall events :: Run(cr, events).Some?) <==> Sturdy(cr)
  {
    if p, i: nat :| BrittleAt(cr.finalizers, cr.deleting, p, i) {
      var events := BrittlePanics(cr, p, i);
    } else if p, i: nat :| BrittleAt(cr.persisted, cr.deleting, p, i) {
      var events := BrittlePanics(cr.(finalizers := cr.persisted), p, i);
      RunCons(cr, Reload, events);
    } else {
      forall events ensures Run(cr, events).Some? {
        RunSturdy(cr, events);
      }
    }
  }
}
