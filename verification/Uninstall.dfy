/** `handleUninstall` and `handleUninstallProduct` of the RHMI controller: one pass over the
    uninstall stages, product by product, until only the controller's own finalizer is left. */
module Uninstall {
  import opened Options
  import opened Phases
  import opened Slices
  import opened Finalizers
  import Text

  const CLOUD_RESOURCES := "cloud-resources"
  const OK := Outcome(Completed, false)

  /** What a product reconciler does when called to uninstall: fail before it looks at its
      finalizer, or run its cleanup (if it still holds its finalizer) with some outcome. */
  datatype Answer = EarlyFailure | Cleanup(outcome: Outcome)

  datatype Deletion = Deleted | Absent | Stuck

  /** Everything outside the controller during one pass. `answers(p, n)` is the n-th call of product
      `p`; `writeOk` is the one update of the CR that a pass makes. */
  datatype World = World(
    inProw: bool,
    answers: (string, nat) -> Answer,
    bootstrap: nat -> Outcome,
    writeOk: bool, configMap: Deletion, cloudConfig: Deletion, operatorOk: bool)

  /** How far a product, a stage or a whole walk got. */
  datatype Stand = Settled | Pending | Panicked

  /** What an observer of the cluster sees, in order. */
  datatype Event =
    | CleanedUp(product: string, outcome: Outcome, held: seq<string>)
    | Wrote(finalizers: seq<string>)
    | ConfigMapGone
    | CloudConfigGone
    | OperatorRemoved

  /** The finalizers in memory and the events so far. */
  datatype Pass = Pass(list: seq<string>, log: seq<Event>)

  // ---------------------------------------------------------------- one pass, as a function

  /** Grafana's reconciler returns at once when the operator runs in prow. */
  predicate Skips(p: string, w: World) { p == GRAFANA && w.inProw }

  /** One call; nothing is returned when removing the finalizer panics. */
  function Called(st: Pass, p: string, n: nat, w: World): (Pass, Option<Outcome>) {
    if Skips(p, w) then (st, Some(OK))
    else match w.answers(p, n)
      case EarlyFailure => (st, Some(Outcome(Failed, true)))
      case Cleanup(o) =>
        if Current(p) !in st.list then (st, Some(OK))
        else
          var st1 := st.(log := st.log + [CleanedUp(p, o, st.list)]);
          if o != OK then (st1, Some(o))
          else match Removed(st.list, Current(p))
            case None => (st1, None)
            case Some(list) => (st1.(list := list), Some(OK))
  }

  /** `handleUninstallProduct`: one call for every finalizer of the snapshot that mentions the
      product's name, given up at the first phase other than completed. */
  function Handled(st: Pass, p: string, snapshot: seq<string>, n: nat, w: World): (Pass, Stand)
    decreases |snapshot|
  {
    if snapshot == [] then (st, Settled)
    else if !Text.Contains(snapshot[0], p) then Handled(st, p, snapshot[1..], n, w)
    else
      var (st1, o) := Called(st, p, n, w);
      if o.None? then (st1, Panicked)
      else if o.value.phase != Completed then (st1, Pending)
      else Handled(st1, p, snapshot[1..], n + 1, w)
  }

  function StageHandled(st: Pass, products: seq<string>, snapshot: seq<string>, w: World): (Pass, Stand)
    decreases |products|
  {
    if products == [] then (st, Settled)
    else
      var (st1, stand1) := Handled(st, products[0], snapshot, 0, w);
      if stand1 == Panicked then (st1, Panicked)
      else
        var (st2, stand2) := StageHandled(st1, products[1..], snapshot, w);
        (st2, Both(stand1, stand2))
  }

  /** A stage is pending as soon as one product is. */
  function Both(a: Stand, b: Stand): Stand { if b == Settled then a else b }

  function BootstrapPending(snapshot: seq<string>, n: nat, w: World): bool
    decreases |snapshot|
  {
    if snapshot == [] then false
    else if !Text.Contains(snapshot[0], "observability") then BootstrapPending(snapshot[1..], n, w)
    else w.bootstrap(n).phase != Completed || BootstrapPending(snapshot[1..], n + 1, w)
  }

  /** The stages in order; a stage with a pending product stops the walk. */
  function Walked(st: Pass, stages: seq<Stage>, snapshot: seq<string>, w: World): (Pass, Stand)
    decreases |stages|
  {
    if stages == [] then (st, Settled)
    else
      var (st1, stand) := if stages[0].name == BOOTSTRAP
                          then (st, if BootstrapPending(snapshot, 0, w) then Pending else Settled)
                          else StageHandled(st, stages[0].products, snapshot, w);
      if stand != Settled then (st1, stand) else Walked(st1, stages[1..], snapshot, w)
  }

  predicate Panics(list: seq<string>, stages: seq<Stage>, w: World) {
    Walked(Pass(list, []), stages, list, w).1 == Panicked
  }

  function Write(st: Pass, w: World): Pass {
    if w.writeOk then st.(log := st.log + [Wrote(st.list)]) else st
  }

  function TidiedUp(st: Pass, w: World): Pass
    requires st.list == [DELETION]
  {
    if w.configMap == Stuck then Write(st, w)
    else
      var st1 := st.(log := st.log + [ConfigMapGone]);
      if w.cloudConfig == Stuck then Write(st1, w)
      else
        var st2 := Write(Pass([], st1.log + [CloudConfigGone]), w);
        if w.writeOk && w.operatorOk then st2.(log := st2.log + [OperatorRemoved]) else st2
  }

  function Uninstalled(list: seq<string>, stages: seq<Stage>, w: World): Pass {
    var (st, stand) := Walked(Pass(list, []), stages, list, w);
    if stand == Panicked then st
    else if stand == Settled && st.list == [DELETION] then TidiedUp(st, w)
    else Write(st, w)
  }

  // ---------------------------------------------------------------- the controller

  class Uninstaller {
    const inst: Installation
    ghost var log: seq<Event>

    ghost function View(): Pass
      reads this, inst
    {
      Pass(inst.finalizers, log)
    }

    constructor (inst: Installation)
      ensures this.inst == inst && View() == Pass(inst.finalizers, [])
    {
      this.inst := inst;
      log := [];
    }

    /** `reconciler.Reconcile` with the uninstall flag set. */
    method Call(p: string, n: nat, w: World) returns (o: Option<Outcome>)
      modifies this, inst
      ensures (View(), o) == Called(old(View()), p, n, w)
      ensures inst.persisted == old(inst.persisted)
    {
      if p == GRAFANA && w.inProw {
        return Some(OK);
      }
      match w.answers(p, n) {
        case EarlyFailure => return Some(Outcome(Failed, true));
        case Cleanup(outcome) =>
          ghost var before := inst.finalizers;
          if Current(p) in before {
            log := log + [CleanedUp(p, outcome, before)];
          }
          o := inst.ReconcileFinalizer(p, true, outcome, true, true);
      }
    }

    method HandleUninstallProduct(p: string, snapshot: seq<string>, w: World) returns (stand: Stand)
      modifies this, inst
      ensures (View(), stand) == Handled(old(View()), p, snapshot, 0, w)
      ensures inst.persisted == old(inst.persisted)
    {
      var n := 0;
      ghost var result := Handled(View(), p, snapshot, 0, w);
      for i := 0 to |snapshot|
        invariant inst.persisted == old(inst.persisted)
        invariant result == Handled(View(), p, snapshot[i..], n, w)
      {
        assert snapshot[i..][1..] == snapshot[i + 1..];
        if Text.Contains(snapshot[i], p) {
          var o := Call(p, n, w);
          if o.None? {
            return Panicked;
          }
          if o.value.phase != Completed {
            return Pending;
          }
          n := n + 1;
        }
      }
      return Settled;
    }

    method HandleStage(products: seq<string>, snapshot: seq<string>, w: World) returns (stand: Stand)
      modifies this, inst
      ensures (View(), stand) == StageHandled(old(View()), products, snapshot, w)
      ensures inst.persisted == old(inst.persisted)
    {
      stand := Settled;
      ghost var result := StageHandled(View(), products, snapshot, w);
      for i := 0 to |products|
        invariant inst.persisted == old(inst.persisted) && stand != Panicked
        invariant var (st, rest) := StageHandled(View(), products[i..], snapshot, w); result == (st, Both(stand, rest))
      {
        assert products[i..][1..] == products[i + 1..];
        var productStand := HandleUninstallProduct(products[i], snapshot, w);
        if productStand == Panicked {
          return Panicked;
        }
        if productStand == Pending && stand == Settled {
          stand := Pending;
        }
      }
    }

    method HandleUninstallBootstrap(snapshot: seq<string>, w: World) returns (pending: bool)
      ensures pending == BootstrapPending(snapshot, 0, w)
    {
      var n := 0;
      for i := 0 to |snapshot|
        invariant BootstrapPending(snapshot, 0, w) == BootstrapPending(snapshot[i..], n, w)
      {
        assert snapshot[i..][1..] == snapshot[i + 1..];
        if Text.Contains(snapshot[i], "observability") {
          if w.bootstrap(n).phase != Completed {
            return true;
          }
          n := n + 1;
        }
      }
      return false;
    }

    method WalkStages(stages: seq<Stage>, snapshot: seq<string>, w: World) returns (stand: Stand)
      modifies this, inst
      ensures (View(), stand) == Walked(old(View()), stages, snapshot, w)
      ensures inst.persisted == old(inst.persisted)
    {
      ghost var result := Walked(View(), stages, snapshot, w);
      for i := 0 to |stages|
        invariant inst.persisted == old(inst.persisted)
        invariant result == Walked(View(), stages[i..], snapshot, w)
      {
        assert stages[i..][1..] == stages[i + 1..];
        stand := Settled;
        if stages[i].name == BOOTSTRAP {
          var pending := HandleUninstallBootstrap(snapshot, w);
          stand := if pending then Pending else Settled;
        } else {
          stand := HandleStage(stages[i].products, snapshot, w);
        }
        if stand != Settled {
          return;
        }
      }
      return Settled;
    }

    method UpdateInstallation(w: World)
      modifies this, inst
      ensures View() == Write(old(View()), w)
      ensures inst.persisted == if w.writeOk then inst.finalizers else old(inst.persisted)
    {
      inst.Update(w.writeOk);
      if w.writeOk {
        log := log + [Wrote(inst.finalizers)];
      }
    }

    method TidyUp(w: World)
      requires inst.finalizers == [DELETION]
      modifies this, inst
      ensures View() == TidiedUp(old(View()), w)
      ensures inst.persisted == if w.writeOk then inst.finalizers else old(inst.persisted)
    {
      if w.configMap == Stuck {
        UpdateInstallation(w);
        return;
      }
      log := log + [ConfigMapGone];
      if w.cloudConfig == Stuck {
        UpdateInstallation(w);
        return;
      }
      log := log + [CloudConfigGone];
      assert SkipScan([DELETION], DELETION) == [];
      var panicked := inst.RemoveFromList(DELETION);
      UpdateInstallation(w);
      if !w.writeOk {
        return;
      }
      if w.operatorOk {
        log := log + [OperatorRemoved];
      }
    }

    /** One pass of `handleUninstall`, starting from the CR as it was just read, whatever its list. */
    method HandleUninstall(stages: seq<Stage>, w: World) returns (panicked: bool)
      requires log == []
      modifies this, inst
      ensures panicked == Panics(old(inst.finalizers), stages, w)
      ensures View() == Uninstalled(old(inst.finalizers), stages, w)
      ensures inst.persisted == if w.writeOk && !panicked then inst.finalizers else old(inst.persisted)
    {
      var snapshot := inst.finalizers;
      var stand := WalkStages(stages, snapshot, w);
      if stand == Panicked {
        return true;
      }
      if stand == Pending {
        UpdateInstallation(w);
        return false;
      }
      if |inst.finalizers| == 1 && inst.finalizers[0] == DELETION {
        assert inst.finalizers == [DELETION];
        TidyUp(w);
        return false;
      }
      UpdateInstallation(w);
      return false;
    }
  }
}
