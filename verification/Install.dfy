/** The install path of the RHMI controller's `Reconcile`: the stage loop, the promotion of the
    version and the adoption of the quota (with `processQuota` of the bootstrap reconciler). */
module Install {
  import opened Phases

  const INSTALLATION := "installation"

  /** The versions a product reports for itself and for its operator. */
  datatype Versions = Versions(product: string, operator: string)

  const NO_VERSIONS := Versions("", "")

  type Products = map<string, Versions>

  /** The part of the CR's status that the install path decides about. */
  datatype Status = Status(
    version: string, toVersion: string, quota: string, toQuota: string, recorded: map<string, Products>)

  /** What the bootstrap reconciler does: stop before the quota is looked at (only its very end
      reports completion), fail on the quota, or resolve a quota name and come to some outcome. */
  datatype Bootstrap =
    | StopsEarly(phase: Unfinished)
    | QuotaFails
    | Resolves(name: string, after: Outcome)

  datatype Tail = Fine | ConfigUnreadable | WatchFails

  /** What happens when a stage reaches a product. */
  datatype Answer =
    | BuildFails
    | ClientFails
    | Reconciles(outcome: Outcome, versions: Versions, tail: Tail)

  /** Everything outside the controller during one reconcile. */
  datatype World = World(
    proceeds: bool,                       // no earlier return, preflight checks passed
    operatorVersion: string,
    expected: string -> Versions,
    bootstrap: Bootstrap,
    answers: (string, string) -> Answer,  // by stage and product
    firstWriteOk: bool, finalWriteOk: bool)

  /** The controller's memory: the CR status at hand, the process-wide mismatch flag, the product
      maps of the stage tables (shared by all reconciles) and the quota of this reconcile. */
  datatype Memory = Memory(
    status: Status, mismatch: bool, tables: map<string, Products>, quotaName: string, quotaUpdated: bool)

  function Table(tables: map<string, Products>, stage: string): Products {
    if stage in tables then tables[stage] else map[]
  }

  predicate VersionMatches(s: Status, p: string, w: World) {
    p == GRAFANA ||
    w.expected(p) == (if p in Table(s.recorded, INSTALLATION) then Table(s.recorded, INSTALLATION)[p] else NO_VERSIONS)
  }

  predicate FirstInstall(s: Status) { s.version == "" && s.toVersion == "" }

  predicate FirstOfUpgrade(s: Status, v: string) { s.version != "" && s.toVersion == "" && s.version != v }

  // ---------------------------------------------------------------- one reconcile, as a function

  predicate QuotaChanges(s: Status, name: string) { (s.toQuota == "" && s.quota == "") || name != s.quota }

  /** `processQuota`. */
  function QuotaProcessed(m: Memory, name: string): Memory {
    var updated := QuotaChanges(m.status, name);
    m.(quotaName := name, quotaUpdated := updated,
       status := if updated then m.status.(toQuota := name) else m.status)
  }

  function BootstrapPhase(o: Outcome): Phase { if o.failed || o.phase == Failed then Failed else o.phase }

  function Bootstrapped(m: Memory, b: Bootstrap): (Memory, Phase) {
    match b
    case StopsEarly(phase) => (m, phase)
    case QuotaFails => (m, Failed)
    case Resolves(name, after) => (QuotaProcessed(m, name), BootstrapPhase(after))
  }

  /** The product loop of `processStage`. */
  function Visited(m: Memory, stage: string, products: seq<string>, w: World, incomplete: bool): (Memory, Phase)
    decreases |products|
  {
    if products == [] then (m, if incomplete then InProgress else Completed)
    else
      var p := products[0];
      match w.answers(stage, p)
      case BuildFails => (m, Failed)
      case ClientFails => (m.(mismatch := m.mismatch || !VersionMatches(m.status, p, w)), Failed)
      case Reconciles(o, versions, tail) =>
        var m1 := m.(mismatch := m.mismatch || !VersionMatches(m.status, p, w));
        if tail == ConfigUnreadable || (tail == WatchFails && o.phase == Completed) then (m1, Failed)
        else
          var m2 := m1.(tables := m1.tables[stage := Table(m1.tables, stage)[p := versions]]);
          Visited(m2, stage, products[1..], w, incomplete || o.phase != Completed)
  }

  function StageRun(m: Memory, stage: Stage, w: World): (Memory, Phase) {
    var (m1, phase) := if stage.name == BOOTSTRAP then Bootstrapped(m, w.bootstrap)
                       else Visited(m.(mismatch := false), stage.name, stage.products, w, false);
    (m1.(status := m1.status.(recorded := m1.status.recorded[stage.name := Table(m1.tables, stage.name)])), phase)
  }

  /** The stage loop; the flag tells whether the installation is still in progress. */
  function StagesRun(m: Memory, stages: seq<Stage>, w: World): (Memory, bool)
    decreases |stages|
  {
    if stages == [] then (m, false)
    else
      var (m1, phase) := StageRun(m, stages[0], w);
      if phase != Completed then (m1, true) else StagesRun(m1, stages[1..], w)
  }

  predicate Promotes(m: Memory, inProgress: bool, w: World) {
    m.status.toVersion == w.operatorVersion && !inProgress && !m.mismatch
  }

  function Concluded(m: Memory, inProgress: bool, w: World): Memory {
    var m1 := if Promotes(m, inProgress, w)
              then m.(status := m.status.(
                version := w.operatorVersion, toVersion := "", quota := m.quotaName, toQuota := ""))
              else m;
    if !inProgress && m1.quotaUpdated then m1.(status := m1.status.(quota := m1.quotaName, toQuota := "")) else m1
  }

  /** The controller between reconciles: what is persisted and what its process remembers. */
  datatype Process = Process(persisted: Status, mismatch: bool, tables: map<string, Products>)

  predicate FirstReconcile(s: Status, w: World) { FirstOfUpgrade(s, w.operatorVersion) || FirstInstall(s) }

  function Started(s: Status, w: World): Status {
    if FirstReconcile(s, w) then s.(toVersion := w.operatorVersion) else s
  }

  predicate Aborts(s: Status, w: World) { FirstReconcile(s, w) && !w.firstWriteOk }

  /** The memory when the stage loop ends. */
  function Looped(p: Process, stages: seq<Stage>, w: World): (Memory, bool) {
    StagesRun(Memory(Started(p.persisted, w), p.mismatch, p.tables, "", false), stages, w)
  }

  predicate Complete(p: Process, stages: seq<Stage>, w: World) {
    w.proceeds && !Aborts(p.persisted, w) && !Looped(p, stages, w).1
  }

  function Reconciled(p: Process, stages: seq<Stage>, w: World): Process {
    if !w.proceeds || Aborts(p.persisted, w) then p
    else
      var s0, s1 := p.persisted, Started(p.persisted, w);
      var (m, inProgress) := Looped(p, stages, w);
      var m1 := Concluded(m, inProgress, w);
      Process(if m1.status != s0 && w.finalWriteOk then m1.status else s1, m1.mismatch, m1.tables)
  }

  // ---------------------------------------------------------------- the controller

  class Controller {
    var persisted: Status
    var status: Status
    var mismatch: bool
    var tables: map<string, Products>
    var quotaName: string
    var quotaUpdated: bool

    ghost function View(): Memory
      reads this
    {
      Memory(status, mismatch, tables, quotaName, quotaUpdated)
    }

    ghost function Rest(): Process
      reads this
    {
      Process(persisted, mismatch, tables)
    }

    constructor (p: Process)
      ensures Rest() == p
    {
      persisted, status, mismatch, tables := p.persisted, p.persisted, p.mismatch, p.tables;
      quotaName, quotaUpdated := "", false;
    }

    method ProcessQuota(name: string)
      modifies this`status, this`quotaName, this`quotaUpdated
      ensures View() == QuotaProcessed(old(View()), name)
      ensures quotaUpdated <==> (old(status).toQuota == "" && old(status).quota == "") || name != old(status).quota
    {
      var isQuotaUpdated := false;
      quotaName := name;
      if (status.toQuota == "" && status.quota == "") || quotaName != status.quota {
        status := status.(toQuota := quotaName);
        isQuotaUpdated := true;
      }
      quotaUpdated := isQuotaUpdated;
    }

    method BootstrapStage(b: Bootstrap) returns (phase: Phase)
      modifies this`status, this`quotaName, this`quotaUpdated
      ensures (View(), phase) == Bootstrapped(old(View()), b)
    {
      match b {
        case StopsEarly(stopped) =>
          phase := stopped;
        case QuotaFails =>
          phase := Failed;
        case Resolves(name, after) =>
          ProcessQuota(name);
          phase := BootstrapPhase(after);
      }
    }

    method ProcessStage(stage: Stage, w: World) returns (phase: Phase)
      modifies this`mismatch, this`tables
      ensures (View(), phase) == Visited(old(View()).(mismatch := false), stage.name, stage.products, w, false)
    {
      var incomplete := false;
      mismatch := false;
      ghost var result := Visited(View(), stage.name, stage.products, w, false);
      for i := 0 to |stage.products|
        invariant result == Visited(View(), stage.name, stage.products[i..], w, incomplete)
      {
        var p := stage.products[i];
        assert stage.products[i..][0] == p && stage.products[i..][1..] == stage.products[i + 1..];
        match w.answers(stage.name, p) {
          case BuildFails => return Failed;
          case ClientFails =>
            if !VersionMatches(status, p, w) {
              mismatch := true;
            }
            return Failed;
          case Reconciles(o, versions, tail) =>
            if !VersionMatches(status, p, w) {
              mismatch := true;
            }
            if tail == ConfigUnreadable || (tail == WatchFails && o.phase == Completed) {
              return Failed;
            }
            if o.phase != Completed {
              incomplete := true;
            }
            tables := tables[stage.name := Table(tables, stage.name)[p := versions]];
        }
      }
      if incomplete {
        return InProgress;
      }
      return Completed;
    }

    method RunStage(stage: Stage, w: World) returns (phase: Phase)
      modifies this`status, this`mismatch, this`tables, this`quotaName, this`quotaUpdated
      ensures (View(), phase) == StageRun(old(View()), stage, w)
    {
      if stage.name == BOOTSTRAP {
        phase := BootstrapStage(w.bootstrap);
      } else {
        phase := ProcessStage(stage, w);
      }
      status := status.(recorded := status.recorded[stage.name := Table(tables, stage.name)]);
    }

    method RunStages(stages: seq<Stage>, w: World) returns (inProgress: bool)
      modifies this`status, this`mismatch, this`tables, this`quotaName, this`quotaUpdated
      ensures (View(), inProgress) == StagesRun(old(View()), stages, w)
    {
      ghost var result := StagesRun(View(), stages, w);
      for i := 0 to |stages|
        invariant result == StagesRun(View(), stages[i..], w)
      {
        assert stages[i..][1..] == stages[i + 1..];
        var phase := RunStage(stages[i], w);
        if phase != Completed {
          return true;
        }
      }
      return false;
    }

    method Conclude(inProgress: bool, w: World)
      modifies this`status
      ensures View() == Concluded(old(View()), inProgress, w)
    {
      if status.toVersion == w.operatorVersion && !inProgress && !mismatch {
        status := status.(version := w.operatorVersion, toVersion := "");
        status := status.(quota := quotaName, toQuota := "");
      }
      if !inProgress {
        if quotaUpdated {
          status := status.(quota := quotaName, toQuota := "");
        }
      }
    }

    method Reconcile(stages: seq<Stage>, w: World)
      modifies this
      ensures Rest() == Reconciled(old(Rest()), stages, w)
    {
      if !w.proceeds {
        return;
      }
      var original := persisted;
      status, quotaName, quotaUpdated := persisted, "", false;
      if FirstOfUpgrade(status, w.operatorVersion) || FirstInstall(status) {
        status := status.(toVersion := w.operatorVersion);
        if !w.firstWriteOk {
          return;
        }
        persisted := status;
      }
      var inProgress := RunStages(stages, w);
      Conclude(inProgress, w);
      if status != original && w.finalWriteOk {
        persisted := status;
      }
    }
  }
}
