/** `ReconcileSubscription` of pkg/resources/reconciler.go: wait for an install plan, have it
    approved, check the CSVs it names, and reinstall when the plan or a CSV is broken. */
module Subscriptions {
  import opened Phases
  import opened Backups

  datatype PlanPhase = PlanFailed | PlanComplete | PlanOther

  /** A CSV: whether its install strategy is a deployment, and how many deployments it has. */
  datatype Csv = Csv(deploymentStrategy: bool, deployments: nat)

  datatype Read = Ok | NotFound | Error

  /** What the API server answers during one reconcile. */
  datatype Answers = Answers(
    installOk: bool,                  // created, or there already
    planRead: Read,                   // NotFound: plan or subscription missing
    updateOk: bool,
    csvReadOk: string -> bool,        // false: an error other than "not found"
    deleteCsv: Read, deleteSubscription: Read)

  /** An outcome and what was deleted on the way to it. */
  datatype Effect = Effect(outcome: Outcome, deletedCsv: set<string>, deletedSubscription: bool)

  predicate ValidCsv(c: Csv) { !(c.deploymentStrategy && c.deployments == 0) }

  const AWAITING := Outcome(AwaitingOperator, false)
  const FAILED := Outcome(Failed, true)

  /** `retryInstallation`; `csv` is empty or the one CSV to delete first. */
  function Retried(csv: set<string>, a: Answers): Effect {
    if csv != {} && a.deleteCsv == Error then Effect(FAILED, {}, false)
    else if a.deleteSubscription == Error then Effect(FAILED, csv, false)
    else Effect(AWAITING, csv, true)
  }

  /** The loop over the CSVs that the plan names. */
  function Checked(names: seq<string>, csvs: map<string, Csv>, a: Answers): Effect {
    if names == [] then Effect(Outcome(Completed, false), {}, false)
    else if !a.csvReadOk(names[0]) then Effect(FAILED, {}, false)
    else if names[0] !in csvs then Effect(Outcome(InProgress, false), {}, false)
    else if !ValidCsv(csvs[names[0]]) then Retried({names[0]}, a)
    else Checked(names[1..], csvs, a)
  }

  predicate Unapproved(plan: InstallPlan, phase: PlanPhase)
    reads plan
  {
    phase == PlanOther && !plan.approved
  }

  /** The approval of the plan is due. */
  predicate Due(plan: InstallPlan)
    reads plan
  {
    !plan.approved && plan.csvNames != []
  }

  ghost predicate BackedUp(plan: InstallPlan, backup: Executor) {
    plan.generation <= 1 || forall l | l in Leaves(backup) :: Succeeds(l, BACKUP_TIMEOUT)
  }

  /** The plan gets approved now, or cannot be. */
  ghost predicate Approves(plan: InstallPlan, backup: Executor, a: Answers)
    reads plan
  {
    Due(plan) && BackedUp(plan, backup) && a.updateOk
  }

  /** The plan can be read, and is or gets approved unless it names nothing. */
  ghost predicate Usable(plan: InstallPlan, backup: Executor, a: Answers)
    reads plan
  {
    a.installOk && a.planRead == Ok && !Unapprovable(plan, backup, a)
  }

  ghost predicate Unapprovable(plan: InstallPlan, backup: Executor, a: Answers)
    reads plan
  {
    Due(plan) && !(BackedUp(plan, backup) && a.updateOk)
  }

  class Subscription {
    var csvs: map<string, Csv>
    var present: bool
    var installedCsv: string

    constructor (csvs: map<string, Csv>, installedCsv: string)
      ensures this.csvs == csvs && present && this.installedCsv == installedCsv
    {
      this.csvs, present, this.installedCsv := csvs, true, installedCsv;
    }

    /** The deletions of `d` carried out. */
    twostate predicate Did(d: Effect)
      reads this
    {
      csvs == old(csvs) - d.deletedCsv && present == (old(present) && !d.deletedSubscription)
      && installedCsv == old(installedCsv)
    }

    twostate predicate Untouched()
      reads this
    {
      csvs == old(csvs) && present == old(present)
    }

    /** A reinstall: the CSV, if there is one to delete, and then the subscription; an error stops it. */
    twostate predicate Reinstalled(some: bool, csv: string, a: Answers, r: Outcome)
      reads this
    {
      if some && a.deleteCsv == Error then r == FAILED && Untouched()
      else
        && csvs == (if some then old(csvs) - {csv} else old(csvs))
        && (if a.deleteSubscription == Error then r == FAILED && present == old(present) else r == AWAITING && !present)
    }

    method RetryInstallation(csv: set<string>, a: Answers) returns (r: Outcome)
      modifies this
      ensures r == Retried(csv, a).outcome && Did(Retried(csv, a))
    {
      if csv != {} {
        if a.deleteCsv == Error {
          return FAILED;
        }
        csvs := csvs - csv;
      }
      if a.deleteSubscription == Error {
        return FAILED;
      }
      present := false;
      return AWAITING;
    }

    method CheckCsvs(names: seq<string>, a: Answers) returns (r: Outcome)
      modifies this
      ensures r == Checked(names, old(csvs), a).outcome && Did(Checked(names, old(csvs), a))
    {
      for i := 0 to |names|
        invariant csvs == old(csvs) && present == old(present) && installedCsv == old(installedCsv)
        invariant Checked(names, csvs, a) == Checked(names[i..], csvs, a)
      {
        assert names[i..][1..] == names[i + 1..];
        if !a.csvReadOk(names[i]) {
          return FAILED;
        }
        if names[i] !in csvs {
          return Outcome(InProgress, false);
        }
        if !ValidCsv(csvs[names[i]]) {
          r := RetryInstallation({names[i]}, a);
          return;
        }
      }
      return Outcome(Completed, false);
    }

    /** `plan` is null when the API server has none. */
    method ReconcileSubscription(plan: InstallPlan?, phase: PlanPhase, backup: Executor, a: Answers)
      returns (r: Outcome)
      requires Advances(backup) && (plan != null ==> plan.approved == plan.stored)
      modifies this, plan
      ensures installedCsv == old(installedCsv)
      // without a plan, or without its approval, nothing is deleted
      ensures !a.installOk || a.planRead == Error ==> r == FAILED && Untouched()
      ensures a.installOk && a.planRead == NotFound ==> r == AWAITING && Untouched()
      ensures a.installOk && a.planRead == Ok && plan == null ==> r == Outcome(InProgress, false) && Untouched()
      ensures plan != null && !(a.installOk && a.planRead == Ok) ==>
        plan.stored == old(plan.stored) && plan.approved == old(plan.approved)
      ensures a.installOk && a.planRead == Ok && plan != null ==>
        && plan.stored == (old(plan.stored) || old(Approves(plan, backup, a)))
        && (old(Unapprovable(plan, backup, a)) ==> r == FAILED && Untouched())
      // a failed plan: the installed CSV goes first, then the subscription
      ensures plan != null && old(Usable(plan, backup, a)) && phase == PlanFailed ==>
        Reinstalled(installedCsv != "", installedCsv, a, r)
      // an approved plan that is neither failed nor complete is waited for
      ensures plan != null && old(Usable(plan, backup, a)) && phase == PlanOther && plan.approved ==>
        r == Outcome(InProgress, false) && Untouched()
      // otherwise the first CSV in the plan's order that is not readable, there and valid decides
      ensures plan != null && old(Usable(plan, backup, a)) && (phase == PlanComplete || Unapproved(plan, phase)) ==>
        && ((forall n | n in plan.csvNames :: Sound(n, old(csvs), a)) ==> r == Outcome(Completed, false) && Untouched())
        && (forall i: nat | FirstUnsound(plan.csvNames, old(csvs), a, i) ::
              if !a.csvReadOk(plan.csvNames[i]) then r == FAILED && Untouched()
              else if plan.csvNames[i] !in old(csvs) then r == Outcome(InProgress, false) && Untouched()
              else Reinstalled(true, plan.csvNames[i], a, r))
      // so a plan that names CSVs is reported completed exactly when its approval is stored, it is complete
      // and every CSV is sound
      ensures a.installOk && a.planRead == Ok && plan != null && plan.csvNames != [] ==>
        (r == Outcome(Completed, false) <==>
           && plan.stored && phase == PlanComplete
           && forall n | n in plan.csvNames :: Sound(n, csvs, a))
      // and one that names none, which is never approved here, unless it failed or is approved and unfinished
      ensures a.installOk && a.planRead == Ok && plan != null && plan.csvNames == [] ==>
        (r == Outcome(Completed, false) <==> phase == PlanComplete || (phase == PlanOther && !plan.approved))
      ensures r.phase == Completed ==> plan != null && a.installOk && a.planRead == Ok && !r.failed && Untouched()
      // anything deleted belongs to a failed plan or is a broken CSV
      ensures old(present) && !present ==>
        && plan != null && r == AWAITING
        && (phase == PlanFailed || exists n | n in plan.csvNames :: n in old(csvs) && !Sound(n, old(csvs), a))
      ensures forall n | n in old(csvs) && n !in csvs ::
        (phase == PlanFailed && n == installedCsv) || !ValidCsv(old(csvs)[n])
    {
      if !a.installOk {
        return FAILED;
      }
      if a.planRead == NotFound {
        return AWAITING;
      }
      if a.planRead == Error {
        return FAILED;
      }
      if plan == null {
        return Outcome(InProgress, false);
      }
      var ok := plan.UpgradeApproval(backup, a.updateOk);
      if !ok {
        return FAILED;
      }
      if phase == PlanFailed {
        r := RetryInstallation(if installedCsv != "" then {installedCsv} else {}, a);
        return;
      }
      if phase != PlanComplete && plan.approved {
        return Outcome(InProgress, false);
      }
      CheckedCompleted(plan.csvNames, csvs, a);
      forall i: nat | FirstUnsound(plan.csvNames, csvs, a, i) { CheckedAt(plan.csvNames, csvs, a, i); }
      r := CheckCsvs(plan.csvNames, a);
    }
  }

  /** A CSV that can be read, is there and is valid. */
  predicate Sound(n: string, csvs: map<string, Csv>, a: Answers) {
    a.csvReadOk(n) && n in csvs && !(csvs[n].deploymentStrategy && csvs[n].deployments == 0)
  }

  predicate FirstUnsound(names: seq<string>, csvs: map<string, Csv>, a: Answers, i: nat) {
    i < |names| && !Sound(names[i], csvs, a) && forall n | n in names[..i] :: Sound(n, csvs, a)
  }

  /** The loop is decided by the first CSV that is not sound. */
  lemma {:induction false} CheckedAt(names: seq<string>, csvs: map<string, Csv>, a: Answers, i: nat)
    requires FirstUnsound(names, csvs, a, i)
    ensures Checked(names, csvs, a) ==
      if !a.csvReadOk(names[i]) then Effect(FAILED, {}, false)
      else if names[i] !in csvs then Effect(Outcome(InProgress, false), {}, false)
      else Retried({names[i]}, a)
  {
    if i > 0 {
      assert names[0] in names[..i];
      assert names[..i] == [names[0]] + names[1..][..i - 1];
      CheckedAt(names[1..], csvs, a, i - 1);
    }
  }

  lemma {:induction false} CheckedCompleted(names: seq<string>, csvs: map<string, Csv>, a: Answers)
    ensures var d := Checked(names, csvs, a);
      && (d.outcome == Outcome(Completed, false) <==> forall n | n in names :: Sound(n, csvs, a))
      && (d.outcome.phase == Completed ==> !d.outcome.failed && d.deletedCsv == {} && !d.deletedSubscription)
      && (d.deletedSubscription ==> d.outcome == AWAITING && exists n | n in names :: n in csvs && !ValidCsv(csvs[n]))
      && (forall n | n in d.deletedCsv :: n in csvs && !ValidCsv(csvs[n]))
  {
    if names != [] {
      CheckedCompleted(names[1..], csvs, a);
      assert forall n :: n in names <==> n == names[0] || n in names[1..] by {
        assert names == [names[0]] + names[1..];
      }
      assert (forall n | n in names :: Sound(n, csvs, a))
        <==> (Sound(names[0], csvs, a) && forall n | n in names[1..] :: Sound(n, csvs, a));
    }
  }
}
