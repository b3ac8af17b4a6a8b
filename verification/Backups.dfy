/** The pre-upgrade backups (pkg/resources/backup) and the approval of an install plan that waits
    for them (pkg/resources/installPlan.go). */
module Backups {

  /** What a polling loop is shown: the clock and the query result of every iteration. */
  datatype Feed<T> = Feed(clock: nat -> int, seen: nat -> T)

  /** The clock moves on between any two polls. */
  ghost predicate Advancing<T>(f: Feed<T>) {
    forall i: nat, j: nat | i < j :: f.clock(i) < f.clock(j)
  }

  datatype SnapshotKind = Postgres | Redis | Unsupported

  datatype SnapshotView = SnapshotQueryError | SnapshotFailed | SnapshotComplete | SnapshotOther

  datatype Condition = Condition(isFailed: bool, isTrue: bool)

  datatype JobView = JobQueryError | Job(completed: bool, conditions: seq<Condition>)

  datatype Executor =
    | Noop
    | Snapshot(kind: SnapshotKind, createOk: bool, started: int, snapshots: Feed<SnapshotView>)
    | CronJob(cronJobFound: bool, createOk: bool, started: int, jobs: Feed<JobView>)
    | Concurrent(executors: seq<Executor>)

  predicate JobFailed(conditions: seq<Condition>) {
    exists c | c in conditions :: c.isFailed && c.isTrue
  }

  // ---------------------------------------------------------------- when a backup has succeeded

  /** Poll `i` happens in time and sees neither completion nor a reason to stop. */
  predicate SnapshotWaitsAt(f: Feed<SnapshotView>, deadline: int, i: nat) {
    f.clock(i) <= deadline && f.seen(i) == SnapshotOther
  }

  ghost predicate SnapshotCompletesAt(f: Feed<SnapshotView>, deadline: int, i: nat) {
    && f.clock(i) <= deadline && f.seen(i) == SnapshotComplete
    && forall j: nat | j < i :: SnapshotWaitsAt(f, deadline, j)
  }

  ghost predicate SnapshotCompletes(f: Feed<SnapshotView>, deadline: int) {
    exists i: nat :: SnapshotCompletesAt(f, deadline, i)
  }

  predicate JobWaitsAt(f: Feed<JobView>, deadline: int, i: nat) {
    f.clock(i) <= deadline && f.seen(i).Job? && !f.seen(i).completed && !JobFailed(f.seen(i).conditions)
  }

  /** A job that is both completed and marked failed counts as completed. */
  ghost predicate JobCompletesAt(f: Feed<JobView>, deadline: int, i: nat) {
    && f.clock(i) <= deadline && f.seen(i).Job? && f.seen(i).completed
    && forall j: nat | j < i :: JobWaitsAt(f, deadline, j)
  }

  ghost predicate JobCompletes(f: Feed<JobView>, deadline: int) {
    exists i: nat :: JobCompletesAt(f, deadline, i)
  }

  ghost predicate Succeeds(e: Executor, timeout: int) {
    match e
    case Noop => true
    case Snapshot(kind, createOk, started, f) =>
      kind != Unsupported && createOk && SnapshotCompletes(f, started + timeout)
    case CronJob(found, createOk, started, f) =>
      found && createOk && JobCompletes(f, started + timeout)
    case Concurrent(es) => forall x | x in es :: Succeeds(x, timeout)
  }

  /** Every clock in the tree advances. */
  ghost predicate Advances(e: Executor) {
    match e
    case Noop => true
    case Snapshot(_, _, _, f) => Advancing(f)
    case CronJob(_, _, _, f) => Advancing(f)
    case Concurrent(es) => forall x | x in es :: Advances(x)
  }

  // ---------------------------------------------------------------- the executors

  method SnapshotBackup(kind: SnapshotKind, createOk: bool, started: int, f: Feed<SnapshotView>, timeout: int)
    returns (ok: bool)
    requires Advancing(f)
    ensures ok <==> Succeeds(Snapshot(kind, createOk, started, f), timeout)
  {
    if kind == Unsupported || !createOk {
      return false;
    }
    var deadline := started + timeout;
    var i: nat := 0;
    while true
      invariant forall j: nat | j < i :: SnapshotWaitsAt(f, deadline, j)
      decreases deadline - f.clock(i)
    {
      if f.clock(i) > deadline {
        NoSnapshotFrom(f, deadline, i);
        return false;
      }
      if f.seen(i) == SnapshotQueryError || f.seen(i) == SnapshotFailed {
        NoSnapshotFrom(f, deadline, i);
        return false;
      }
      if f.seen(i) == SnapshotComplete {
        assert SnapshotCompletesAt(f, deadline, i);
        return true;
      }
      assert f.clock(i) < f.clock(i + 1);
      i := i + 1;
    }
  }

  /** A poll that stops the loop without completion rules out completion altogether. */
  lemma NoSnapshotFrom(f: Feed<SnapshotView>, deadline: int, i: nat)
    requires forall j: nat | j < i :: SnapshotWaitsAt(f, deadline, j)
    requires !SnapshotWaitsAt(f, deadline, i) && !(f.clock(i) <= deadline && f.seen(i) == SnapshotComplete)
    ensures !SnapshotCompletes(f, deadline)
  {
    forall k: nat ensures !SnapshotCompletesAt(f, deadline, k) {
      if k < i {
        assert SnapshotWaitsAt(f, deadline, k);
      }
    }
  }

  method JobError(conditions: seq<Condition>) returns (failed: bool)
    ensures failed == JobFailed(conditions)
  {
    for i := 0 to |conditions|
      invariant forall c | c in conditions[..i] :: !(c.isFailed && c.isTrue)
    {
      if conditions[i].isFailed && conditions[i].isTrue {
        return true;
      }
    }
    assert conditions[..|conditions|] == conditions;
    return false;
  }

  method JobBackup(cronJobFound: bool, createOk: bool, started: int, f: Feed<JobView>, timeout: int)
    returns (ok: bool)
    requires Advancing(f)
    ensures ok <==> Succeeds(CronJob(cronJobFound, createOk, started, f), timeout)
  {
    if !cronJobFound || !createOk {
      return false;
    }
    var deadline := started + timeout;
    var i: nat := 0;
    while true
      invariant forall j: nat | j < i :: JobWaitsAt(f, deadline, j)
      decreases deadline - f.clock(i)
    {
      if f.clock(i) > deadline || f.seen(i).JobQueryError? {
        NoJobFrom(f, deadline, i);
        return false;
      }
      if f.seen(i).completed {
        assert JobCompletesAt(f, deadline, i);
        return true;
      }
      var failed := JobError(f.seen(i).conditions);
      if failed {
        NoJobFrom(f, deadline, i);
        return false;
      }
      assert f.clock(i) < f.clock(i + 1);
      i := i + 1;
    }
  }

  lemma NoJobFrom(f: Feed<JobView>, deadline: int, i: nat)
    requires forall j: nat | j < i :: JobWaitsAt(f, deadline, j)
    requires !JobWaitsAt(f, deadline, i) && !(f.clock(i) <= deadline && f.seen(i).Job? && f.seen(i).completed)
    ensures !JobCompletes(f, deadline)
  {
    forall k: nat ensures !JobCompletesAt(f, deadline, k) {
      if k < i {
        assert JobWaitsAt(f, deadline, k);
      }
    }
  }

  /** A concurrent executor starts all its executors, waits for all of them and fails if one did. */
  method PerformBackup(e: Executor, timeout: int) returns (ok: bool)
    requires Advances(e)
    ensures ok <==> Succeeds(e, timeout)
    decreases e
  {
    match e {
      case Noop => ok := true;
      case Snapshot(kind, createOk, started, f) => ok := SnapshotBackup(kind, createOk, started, f, timeout);
      case CronJob(found, createOk, started, f) => ok := JobBackup(found, createOk, started, f, timeout);
      case Concurrent(es) =>
        ok := true;
        for i := 0 to |es|
          invariant ok <==> forall x | x in es[..i] :: Succeeds(x, timeout)
        {
          var each := PerformBackup(es[i], timeout);
          assert es[..i + 1] == es[..i] + [es[i]];
          ok := ok && each;
        }
        assert es[..|es|] == es;
    }
  }

  // ---------------------------------------------------------------- the tree as its leaves

  function Leaves(e: Executor): seq<Executor>
    decreases e, 1
  {
    match e
    case Concurrent(es) => LeavesOf(es)
    case _ => [e]
  }

  function LeavesOf(es: seq<Executor>): seq<Executor>
    decreases es, 0
  {
    if es == [] then [] else Leaves(es[0]) + LeavesOf(es[1..])
  }

  /** However deeply executors are nested, the tree succeeds exactly when every leaf does. */
  lemma {:induction false} SucceedsIffLeavesDo(e: Executor, timeout: int)
    ensures Succeeds(e, timeout) <==> forall l | l in Leaves(e) :: Succeeds(l, timeout)
    decreases e, 1
  {
    if e.Concurrent? {
      AllSucceedIffLeavesDo(e.executors, timeout);
    }
  }

  lemma {:induction false} AllSucceedIffLeavesDo(es: seq<Executor>, timeout: int)
    ensures (forall x | x in es :: Succeeds(x, timeout)) <==> (forall l | l in LeavesOf(es) :: Succeeds(l, timeout))
    decreases es, 0
  {
    if es != [] {
      SucceedsIffLeavesDo(es[0], timeout);
      AllSucceedIffLeavesDo(es[1..], timeout);
      assert es == [es[0]] + es[1..];
    }
  }

  // ---------------------------------------------------------------- approving an install plan

  const BACKUP_TIMEOUT: int := 20 * 60 * 1_000_000_000

  /** `approved` is the copy at hand, `stored` what the API server holds. */
  class InstallPlan {
    var approved: bool
    var stored: bool
    const generation: int
    const csvNames: seq<string>

    constructor (approved: bool, generation: int, csvNames: seq<string>)
      ensures this.approved == this.stored == approved
      ensures this.generation == generation && this.csvNames == csvNames
    {
      this.approved, this.stored, this.generation, this.csvNames := approved, approved, generation, csvNames;
    }

    /** The copy at hand is marked first; the approval reaches the store only if the plan is that of
        a first install or every single backup succeeded. */
    method UpgradeApproval(e: Executor, updateOk: bool) returns (ok: bool)
      requires Advances(e)
      modifies this
      ensures var due := !old(approved) && csvNames != [];
        var backedUp := generation <= 1 || forall l | l in Leaves(e) :: Succeeds(l, BACKUP_TIMEOUT);
        && approved == (old(approved) || due)
        && stored == (old(stored) || (due && backedUp && updateOk))
        && ok == (!due || (backedUp && updateOk))
    {
      SucceedsIffLeavesDo(e, BACKUP_TIMEOUT);
      if !approved && |csvNames| > 0 {
        approved := true;
        if generation > 1 {
          var done := PerformBackup(e, BACKUP_TIMEOUT);
          if !done {
            return false;
          }
        }
        if !updateOk {
          return false;
        }
        stored := approved;
      }
      return true;
    }
  }
}
