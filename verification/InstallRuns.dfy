/** What every reconcile and every run of reconciles guarantees about versions and quotas. */
module InstallRuns {
  import opened Phases
  import opened Install

  /** The install stages of both installation types: bootstrap, then all products in any order. */
  function InstallTable(products: seq<string>): seq<Stage> {
    [Stage(BOOTSTRAP, []), Stage(INSTALLATION, products)]
  }

  // ---------------------------------------------------------------- what the stage loop leaves alone

  predicate SameDecisions(s: Status, s': Status) {
    s'.version == s.version && s'.toVersion == s.toVersion && s'.quota == s.quota
  }

  lemma {:induction false} VisitedKeepsStatus(
    m: Memory, stage: string, products: seq<string>, w: World, incomplete: bool)
    ensures var m1 := Visited(m, stage, products, w, incomplete).0;
      m1.status == m.status && m1.quotaName == m.quotaName && m1.quotaUpdated == m.quotaUpdated
    decreases |products|
  {
    if products != [] {
      match w.answers(stage, products[0]) {
        case Reconciles(o, versions, _) =>
          var m1 := m.(mismatch := m.mismatch || !VersionMatches(m.status, products[0], w));
          var m2 := m1.(tables := m1.tables[stage := Table(m1.tables, stage)[products[0] := versions]]);
          VisitedKeepsStatus(m2, stage, products[1..], w, incomplete || o.phase != Completed);
        case _ =>
      }
    }
  }

  /** No stage touches the version, the version under way or the adopted quota. */
  lemma {:induction false} StagesKeepDecisions(m: Memory, stages: seq<Stage>, w: World)
    ensures SameDecisions(m.status, StagesRun(m, stages, w).0.status)
    decreases |stages|
  {
    if stages != [] {
      var stage := stages[0];
      if stage.name != BOOTSTRAP {
        VisitedKeepsStatus(m.(mismatch := false), stage.name, stage.products, w, false);
      }
      StagesKeepDecisions(StageRun(m, stage, w).0, stages[1..], w);
    }
  }

  // ---------------------------------------------------------------- what the mismatch flag means

  ghost predicate AllMatch(s: Status, products: seq<string>, w: World) {
    forall p | p in products :: VersionMatches(s, p, w)
  }

  ghost predicate AllCompleted(stage: string, products: seq<string>, w: World) {
    forall p | p in products :: ProductCompletes(w.answers(stage, p))
  }

  predicate ProductCompletes(a: Answer) { a.Reconciles? && a.outcome.phase == Completed && a.tail == Fine }

  /** A product stage completes exactly when each of its products does. */
  lemma {:induction false} StageCompletesIff(
    m: Memory, stage: string, products: seq<string>, w: World, incomplete: bool)
    ensures Visited(m, stage, products, w, incomplete).1 == Completed
       <==> (!incomplete && AllCompleted(stage, products, w))
    decreases |products|
  {
    if products != [] {
      var p := products[0];
      assert products == [p] + products[1..];
      match w.answers(stage, p) {
        case Reconciles(o, versions, tail) =>
          var m1 := m.(mismatch := m.mismatch || !VersionMatches(m.status, p, w));
          var m2 := m1.(tables := m1.tables[stage := Table(m1.tables, stage)[p := versions]]);
          StageCompletesIff(m2, stage, products[1..], w, incomplete || o.phase != Completed);
        case _ =>
      }
    }
  }

  /** The flag of a completed product stage tells whether some product's recorded versions differ from
      the expected ones. */
  lemma {:induction false} CompletedStage(m: Memory, stage: string, products: seq<string>, w: World, incomplete: bool)
    requires Visited(m, stage, products, w, incomplete).1 == Completed
    ensures Visited(m, stage, products, w, incomplete).0.mismatch <==> m.mismatch || !AllMatch(m.status, products, w)
    decreases |products|
  {
    if products != [] {
      var p := products[0];
      var Reconciles(o, versions, _) := w.answers(stage, p);
      var m1 := m.(mismatch := m.mismatch || !VersionMatches(m.status, p, w));
      var m2 := m1.(tables := m1.tables[stage := Table(m1.tables, stage)[p := versions]]);
      CompletedStage(m2, stage, products[1..], w, incomplete || o.phase != Completed);
      assert products == [p] + products[1..];
      assert AllMatch(m.status, products, w)
        <==> VersionMatches(m.status, p, w) && AllMatch(m.status, products[1..], w);
    }
  }

  /** The flag of a whole stage loop is that of its last product stage alone, taken against the
      status as that stage found it: earlier mismatches are forgotten. */
  lemma {:induction false} FlagCoversLastStage(m: Memory, before: seq<Stage>, last: Stage, w: World)
    requires last.name != BOOTSTRAP && !StagesRun(m, before + [last], w).1
    ensures !StagesRun(m, before, w).1
    ensures StagesRun(m, before + [last], w).0.mismatch
       <==> !AllMatch(StagesRun(m, before, w).0.status, last.products, w)
    decreases |before|
  {
    var stages := before + [last];
    if before == [] {
      assert stages[0] == last && stages[1..] == [];
      CompletedStage(m.(mismatch := false), last.name, last.products, w, false);
    } else {
      assert stages[0] == before[0] && stages[1..] == before[1..] + [last];
      FlagCoversLastStage(StageRun(m, before[0], w).0, before[1..], last, w);
    }
  }

  lemma OneStage(m: Memory, a: Stage, w: World)
    ensures var (m1, phase) := StageRun(m, a, w); StagesRun(m, [a], w) == (m1, phase != Completed)
  {
    assert [a][1..] == [];
  }

  lemma TwoStages(m: Memory, a: Stage, b: Stage, w: World)
    ensures var (m1, phase1) := StageRun(m, a, w);
      StagesRun(m, [a, b], w) == if phase1 != Completed then (m1, true) else StagesRun(m1, [b], w)
  {
    assert [a, b][1..] == [b];
  }

  /** The bootstrap stage resolves the quota and touches nothing the products are judged by. */
  lemma BootstrapCompletes(m: Memory, w: World)
    requires StageRun(m, Stage(BOOTSTRAP, []), w).1 == Completed
    ensures w.bootstrap.Resolves?
    ensures var m1 := StageRun(m, Stage(BOOTSTRAP, []), w).0;
      && m1.quotaName == w.bootstrap.name
      && m1.quotaUpdated == QuotaChanges(m.status, w.bootstrap.name)
      && m1.status.toQuota == (if m1.quotaUpdated then m1.quotaName else m.status.toQuota)
      && (forall q :: VersionMatches(m1.status, q, w) == VersionMatches(m.status, q, w))
  {
    var m1 := StageRun(m, Stage(BOOTSTRAP, []), w).0;
    assert Table(m1.status.recorded, INSTALLATION) == Table(m.status.recorded, INSTALLATION);
  }

  /** The install loop taken apart. */
  lemma CompleteLoop(p: Process, products: seq<string>, w: World)
    requires !Looped(p, InstallTable(products), w).1
    ensures w.bootstrap.Resolves? && AllCompleted(INSTALLATION, products, w)
    ensures var m := Looped(p, InstallTable(products), w).0;
      && m.quotaName == w.bootstrap.name
      && m.quotaUpdated == QuotaChanges(p.persisted, w.bootstrap.name)
      && m.status.toQuota == (if m.quotaUpdated then m.quotaName else p.persisted.toQuota)
      && (m.mismatch <==> !AllMatch(p.persisted, products, w))
  {
    var boot, inst := Stage(BOOTSTRAP, []), Stage(INSTALLATION, products);
    var m0 := Memory(Started(p.persisted, w), p.mismatch, p.tables, "", false);
    var m1 := StageRun(m0, boot, w).0;
    TwoStages(m0, boot, inst, w);
    OneStage(m1, inst, w);
    BootstrapCompletes(m0, w);
    VisitedKeepsStatus(m1.(mismatch := false), INSTALLATION, products, w, false);
    CompletedStage(m1.(mismatch := false), INSTALLATION, products, w, false);
    StageCompletesIff(m1.(mismatch := false), INSTALLATION, products, w, false);
    assert forall q :: VersionMatches(m0.status, q, w) == VersionMatches(p.persisted, q, w);
  }

  // ---------------------------------------------------------------- one reconcile

  /** The loop goes past the bootstrap stage. */
  predicate BootstrapDone(b: Bootstrap) { b.Resolves? && b.after == Outcome(Completed, false) }

  /** The first write, due when a version is to be installed and none is under way, is lost. */
  predicate Blocked(s: Status, w: World) {
    s.toVersion == "" && (s.version == "" || s.version != w.operatorVersion) && !w.firstWriteOk
  }

  /** Exactly when a reconcile is complete. */
  lemma CompleteIff(p: Process, products: seq<string>, w: World)
    ensures Complete(p, InstallTable(products), w) <==>
      (&& w.proceeds && !Blocked(p.persisted, w) && BootstrapDone(w.bootstrap)
       && AllCompleted(INSTALLATION, products, w))
  {
    var boot, inst := Stage(BOOTSTRAP, []), Stage(INSTALLATION, products);
    var m0 := Memory(Started(p.persisted, w), p.mismatch, p.tables, "", false);
    var m1 := StageRun(m0, boot, w).0;
    TwoStages(m0, boot, inst, w);
    OneStage(m1, inst, w);
    StageCompletesIff(m1.(mismatch := false), INSTALLATION, products, w, false);
  }

  /** The version changes exactly when the reconcile is complete and persisted, the operator's version
      is the one under way and not yet installed, and every product had, in the CR as the reconcile
      found it, the expected versions on record. */
  lemma VersionChangesIff(p: Process, products: seq<string>, w: World)
    ensures var s, s' := p.persisted, Reconciled(p, InstallTable(products), w).persisted;
      && (s'.version != s.version <==>
            (&& Complete(p, InstallTable(products), w) && w.finalWriteOk
             && s.version != w.operatorVersion && Started(s, w).toVersion == w.operatorVersion
             && AllMatch(s, products, w)))
      && (s'.version != s.version ==> s'.version == w.operatorVersion && s'.toVersion == "")
  {
    if w.proceeds && !Aborts(p.persisted, w) {
      StagesKeepDecisions(Memory(Started(p.persisted, w), p.mismatch, p.tables, "", false), InstallTable(products), w);
      if !Looped(p, InstallTable(products), w).1 {
        CompleteLoop(p, products, w);
      }
    }
  }

  /** The two versions after any reconcile. */
  lemma ReconcileVersions(p: Process, products: seq<string>, w: World)
    ensures var s, s' := p.persisted, Reconciled(p, InstallTable(products), w).persisted;
      var starts := s.toVersion == "" && s.version != w.operatorVersion;
      var underWay := if starts then w.operatorVersion else s.toVersion;
      var promotes := w.finalWriteOk && Complete(p, InstallTable(products), w)
                      && underWay == w.operatorVersion && AllMatch(s, products, w);
      (w.operatorVersion != "" ==>
         (if !w.proceeds || (starts && !w.firstWriteOk) then s' == s
          else if promotes then s'.version == w.operatorVersion && s'.toVersion == ""
          else s'.version == s.version && s'.toVersion == underWay))
  {
    if w.proceeds && !Aborts(p.persisted, w) {
      StagesKeepDecisions(Memory(Started(p.persisted, w), p.mismatch, p.tables, "", false), InstallTable(products), w);
      if !Looped(p, InstallTable(products), w).1 {
        CompleteLoop(p, products, w);
      }
    }
  }

  /** The two quotas after any reconcile that gets to its stages: a change is pending as soon as it is
      resolved, and adopted only by completion. */
  lemma ReconcileQuotas(p: Process, products: seq<string>, w: World)
    requires w.proceeds && !Blocked(p.persisted, w) && w.finalWriteOk
    ensures var s, s' := p.persisted, Reconciled(p, InstallTable(products), w).persisted;
      var changes := w.bootstrap.Resolves? && ((s.toQuota == "" && s.quota == "") || w.bootstrap.name != s.quota);
      var adopts := Complete(p, InstallTable(products), w)
                    && (changes || (Started(s, w).toVersion == w.operatorVersion && AllMatch(s, products, w)));
      if adopts then w.bootstrap.Resolves? && s'.quota == w.bootstrap.name && s'.toQuota == ""
      else s'.quota == s.quota && s'.toQuota == if changes then w.bootstrap.name else s.toQuota
  {
    StagesKeepDecisions(Memory(Started(p.persisted, w), p.mismatch, p.tables, "", false), InstallTable(products), w);
    var m0 := Memory(Started(p.persisted, w), p.mismatch, p.tables, "", false);
    var boot, inst := Stage(BOOTSTRAP, []), Stage(INSTALLATION, products);
    var m1 := StageRun(m0, boot, w).0;
    TwoStages(m0, boot, inst, w);
    OneStage(m1, inst, w);
    VisitedKeepsStatus(m1.(mismatch := false), INSTALLATION, products, w, false);
    if !Looped(p, InstallTable(products), w).1 {
      CompleteLoop(p, products, w);
    }
  }

  /** The adopted quota changes only in a complete reconcile, to the name its bootstrap resolved,
      and the pending quota is cleared in the same step. */
  lemma QuotaChangesOnlyWhenComplete(p: Process, products: seq<string>, w: World)
    ensures var p' := Reconciled(p, InstallTable(products), w);
      p'.persisted.quota != p.persisted.quota ==>
        && Complete(p, InstallTable(products), w) && w.bootstrap.Resolves?
        && p'.persisted.quota == w.bootstrap.name && p'.persisted.toQuota == ""
  {
    if w.proceeds && !Aborts(p.persisted, w) {
      StagesKeepDecisions(Memory(Started(p.persisted, w), p.mismatch, p.tables, "", false), InstallTable(products), w);
      if !Looped(p, InstallTable(products), w).1 {
        CompleteLoop(p, products, w);
      }
    }
  }

  /** After a complete reconcile whose outcome is persisted, the adopted quota is the resolved one.
      The pending quota is empty exactly when the reconcile changed the quota, promoted the version,
      or found it empty: one left over from an abandoned change stays. */
  lemma CompleteReconcileAdoptsQuota(p: Process, products: seq<string>, w: World)
    requires Complete(p, InstallTable(products), w) && w.finalWriteOk
    ensures w.bootstrap.Resolves?
    ensures var s, s' := p.persisted, Reconciled(p, InstallTable(products), w).persisted;
      && s'.quota == w.bootstrap.name
      && (s'.toQuota == "" <==>
            (s.toQuota == "" || w.bootstrap.name != s.quota
             || (Started(s, w).toVersion == w.operatorVersion && AllMatch(s, products, w))))
  {
    StagesKeepDecisions(Memory(Started(p.persisted, w), p.mismatch, p.tables, "", false), InstallTable(products), w);
    CompleteLoop(p, products, w);
  }

  // ---------------------------------------------------------------- from one reconcile to the next

  /** The answer of a product that ends its stage at once. */
  predicate EndsStage(a: Answer) {
    !a.Reconciles? || a.tail == ConfigUnreadable || (a.tail == WatchFails && a.outcome.phase == Completed)
  }

  /** The products a stage gets through before one ends it. */
  function Through(products: seq<string>, stage: string, w: World): (r: seq<string>)
    ensures r <= products && forall q | q in r :: w.answers(stage, q).Reconciles?
  {
    if products == [] || EndsStage(w.answers(stage, products[0])) then []
    else [products[0]] + Through(products[1..], stage, w)
  }

  /** The versions that some products report. */
  function ReportOf(products: seq<string>, stage: string, w: World): Products
    requires forall q | q in products :: w.answers(stage, q).Reconciles?
  {
    map q | q in products :: w.answers(stage, q).versions
  }

  /** The products whose versions a stage looks at: also those of one that then ends it, unless it could
      not even be built. */
  function Judged(products: seq<string>, stage: string, w: World): seq<string> {
    if products == [] || w.answers(stage, products[0]).BuildFails? then []
    else if EndsStage(w.answers(stage, products[0])) then [products[0]]
    else [products[0]] + Judged(products[1..], stage, w)
  }

  /** What a product stage reports: a failure if a product ended it, else whether all are completed; and
      its flag. */
  lemma {:induction false} StageReports(m: Memory, stage: string, products: seq<string>, w: World, incomplete: bool)
    ensures Visited(m, stage, products, w, incomplete).1 ==
      if Through(products, stage, w) != products then Failed
      else if !incomplete && AllCompleted(stage, products, w) then Completed else InProgress
    ensures Visited(m, stage, products, w, incomplete).0.mismatch
       <==> (m.mismatch || !AllMatch(m.status, Judged(products, stage, w), w))
    decreases |products|
  {
    if products != [] {
      var p, rest := products[0], products[1..];
      assert products == [p] + rest;
      if !EndsStage(w.answers(stage, p)) {
        var m1, judged := Entered(m, stage, p, w), Judged(rest, stage, w);
        VisitedCons(m, stage, products, w, incomplete);
        StageReports(m1, stage, rest, w, incomplete || w.answers(stage, p).outcome.phase != Completed);
        assert ([p] + Through(rest, stage, w) == products) <==> Through(rest, stage, w) == rest;
        assert AllMatch(m.status, [p] + judged, w) <==> VersionMatches(m.status, p, w) && AllMatch(m.status, judged, w);
      }
    }
  }

  lemma ReportCons(t: Products, p: string, rest: seq<string>, stage: string, w: World)
    requires w.answers(stage, p).Reconciles? && forall q | q in rest :: w.answers(stage, q).Reconciles?
    ensures t[p := w.answers(stage, p).versions] + ReportOf(rest, stage, w) == t + ReportOf([p] + rest, stage, w)
  {
    var a, b := t[p := w.answers(stage, p).versions] + ReportOf(rest, stage, w), t + ReportOf([p] + rest, stage, w);
    assert forall q :: q in [p] + rest <==> q == p || q in rest;
    assert a.Keys == b.Keys;
  }

  function Entered(m: Memory, stage: string, p: string, w: World): Memory
    requires w.answers(stage, p).Reconciles?
  {
    m.(mismatch := m.mismatch || !VersionMatches(m.status, p, w),
       tables := m.tables[stage := Table(m.tables, stage)[p := w.answers(stage, p).versions]])
  }

  lemma VisitedCons(m: Memory, stage: string, products: seq<string>, w: World, incomplete: bool)
    requires products != [] && !EndsStage(w.answers(stage, products[0]))
    ensures var a := w.answers(stage, products[0]);
      Visited(m, stage, products, w, incomplete)
      == Visited(Entered(m, stage, products[0], w), stage, products[1..], w, incomplete || a.outcome.phase != Completed)
  {
  }

  lemma {:induction false} TableReports(m: Memory, stage: string, products: seq<string>, w: World, incomplete: bool)
    ensures var tables := Visited(m, stage, products, w, incomplete).0.tables;
      && Table(tables, stage) == Table(m.tables, stage) + ReportOf(Through(products, stage, w), stage, w)
      && forall other | other != stage :: Table(tables, other) == Table(m.tables, other)
    decreases |products|
  {
    if products == [] || EndsStage(w.answers(stage, products[0])) {
      assert ReportOf([], stage, w) == map[];
      assert Visited(m, stage, products, w, incomplete).0.tables == m.tables;
    } else {
      var a, m1 := w.answers(stage, products[0]), Entered(m, stage, products[0], w);
      VisitedCons(m, stage, products, w, incomplete);
      TableReports(m1, stage, products[1..], w, incomplete || a.outcome.phase != Completed);
      ReportCons(Table(m.tables, stage), products[0], Through(products[1..], stage, w), stage, w);
    }
  }

  /** What the bootstrap stage reports. */
  lemma BootstrapReports(m: Memory, b: Bootstrap)
    ensures var phase := Bootstrapped(m, b).1;
      && (phase == Failed <==>
            (b.QuotaFails? || b == StopsEarly(Failed) || (b.Resolves? && (b.after.failed || b.after.phase == Failed))))
      && (phase != Failed ==> phase == if b.StopsEarly? then b.phase else b.after.phase)
  {
  }

  lemma BootstrapDoneIff(m: Memory, w: World)
    ensures StageRun(m, Stage(BOOTSTRAP, []), w).1 == Completed <==> BootstrapDone(w.bootstrap)
  {
  }

  /** The table of the installation stage after a stage loop that gets to it. */
  function NewTable(p: Process, products: seq<string>, w: World): Products {
    Table(p.tables, INSTALLATION) + ReportOf(Through(products, INSTALLATION, w), INSTALLATION, w)
  }

  lemma LoopRecords(p: Process, products: seq<string>, w: World)
    ensures var m := Looped(p, InstallTable(products), w).0;
      var booted := p.persisted.recorded[BOOTSTRAP := Table(p.tables, BOOTSTRAP)];
      && Table(m.tables, BOOTSTRAP) == Table(p.tables, BOOTSTRAP)
      && (if BootstrapDone(w.bootstrap)
          then Table(m.tables, INSTALLATION) == NewTable(p, products, w)
               && m.status.recorded == booted[INSTALLATION := NewTable(p, products, w)]
          else Table(m.tables, INSTALLATION) == Table(p.tables, INSTALLATION) && m.status.recorded == booted)
  {
    var boot, inst := Stage(BOOTSTRAP, []), Stage(INSTALLATION, products);
    var m0 := Memory(Started(p.persisted, w), p.mismatch, p.tables, "", false);
    var m1 := StageRun(m0, boot, w).0;
    TwoStages(m0, boot, inst, w);
    OneStage(m1, inst, w);
    BootstrapDoneIff(m0, w);
    VisitedKeepsStatus(m1.(mismatch := false), INSTALLATION, products, w, false);
    TableReports(m1.(mismatch := false), INSTALLATION, products, w, false);
  }

  /** What a reconcile that gets to its stages puts on record, completed or not: the shared table of the
      installation stage, with what the products it got through reported, as soon as bootstrap is done. */
  lemma ReconcileRecords(p: Process, products: seq<string>, w: World)
    requires w.proceeds && !Blocked(p.persisted, w)
    ensures var p' := Reconciled(p, InstallTable(products), w);
      var booted := p.persisted.recorded[BOOTSTRAP := Table(p.tables, BOOTSTRAP)];
      && Table(p'.tables, BOOTSTRAP) == Table(p.tables, BOOTSTRAP)
      && Table(p'.tables, INSTALLATION) ==
           (if BootstrapDone(w.bootstrap) then NewTable(p, products, w) else Table(p.tables, INSTALLATION))
      && p'.persisted.recorded == (
           if !w.finalWriteOk then p.persisted.recorded
           else if BootstrapDone(w.bootstrap) then booted[INSTALLATION := NewTable(p, products, w)]
           else booted)
  {
    LoopRecords(p, products, w);
    RecordsOfLoop(p, products, w);
  }

  /** The conclusion of a reconcile and its writes leave the tables and the records as they are. */
  lemma RecordsOfLoop(p: Process, products: seq<string>, w: World)
    requires w.proceeds && !Blocked(p.persisted, w)
    ensures var p', m := Reconciled(p, InstallTable(products), w), Looped(p, InstallTable(products), w).0;
      && p'.tables == m.tables
      && p'.persisted.recorded == if w.finalWriteOk then m.status.recorded else p.persisted.recorded
  {
  }

  /** The versions of a CR are settled for an operator: none other is under way. */
  predicate Settled(s: Status, v: string) { v != "" && (s.toVersion == "" || s.toVersion == v) }

  lemma CompleteReconcileVersions(p: Process, products: seq<string>, w: World)
    requires Complete(p, InstallTable(products), w) && w.finalWriteOk && Settled(p.persisted, w.operatorVersion)
    ensures var s, s' := p.persisted, Reconciled(p, InstallTable(products), w).persisted;
      && Settled(s', w.operatorVersion)
      && (s'.toVersion == "" ==> s'.version == w.operatorVersion)
      && (s'.toVersion == "" <==> (Started(s, w).toVersion == "" || AllMatch(s, products, w)))
  {
    StagesKeepDecisions(Memory(Started(p.persisted, w), p.mismatch, p.tables, "", false), InstallTable(products), w);
    CompleteLoop(p, products, w);
  }

  /** Both the product and its operator report the given versions. */
  predicate Reports(a: Answer, versions: Versions) {
    a.Reconciles? && a.versions.product == versions.product && a.versions.operator == versions.operator
  }

  /** Whatever the first reconcile came to: if it is persisted, got past bootstrap and through the
      products, a second one that completes and is persisted installs the operator's version exactly when
      every product (Grafana apart) reported in the first what is expected of it in the second, both of
      itself and of its operator, unless the version was installed already. */
  lemma TwoReconcilesPromoteIff(p: Process, ps: seq<string>, qs: seq<string>, w1: World, w2: World)
    requires w1.operatorVersion == w2.operatorVersion && Settled(p.persisted, w1.operatorVersion)
    requires w1.proceeds && !Blocked(p.persisted, w1) && w1.finalWriteOk && BootstrapDone(w1.bootstrap)
    requires Complete(Reconciled(p, InstallTable(ps), w1), InstallTable(qs), w2) && w2.finalWriteOk
    requires forall q | q in qs :: q in Through(ps, INSTALLATION, w1)
    ensures var p1 := Reconciled(p, InstallTable(ps), w1);
      var s1, s2 := p1.persisted, Reconciled(p1, InstallTable(qs), w2).persisted;
      && (s2.version == w1.operatorVersion <==>
            (|| s1.version == w1.operatorVersion
             || forall q | q in qs && q != GRAFANA :: Reports(w1.answers(INSTALLATION, q), w2.expected(q))))
  {
    var p1 := Reconciled(p, InstallTable(ps), w1);
    ReconcileVersions(p, ps, w1);
    ReconcileVersions(p1, qs, w2);
    ReconcileRecords(p, ps, w1);
    forall q | q in qs && q != GRAFANA
      ensures VersionMatches(p1.persisted, q, w2) <==> Reports(w1.answers(INSTALLATION, q), w2.expected(q))
    {
      assert q in ReportOf(Through(ps, INSTALLATION, w1), INSTALLATION, w1);
    }
  }

  /** A new installation is not promoted by its first reconcile unless its products expect no versions. */
  lemma FirstReconcileDoesNotPromote(p: Process, products: seq<string>, w: World, q: string)
    requires p.persisted.recorded == map[] && p.persisted.version != w.operatorVersion && w.operatorVersion != ""
    requires q in products && q != GRAFANA && w.expected(q) != NO_VERSIONS
    ensures Reconciled(p, InstallTable(products), w).persisted.version == p.persisted.version
  {
    ReconcileVersions(p, products, w);
    assert !VersionMatches(p.persisted, q, w);
  }

  // ---------------------------------------------------------------- runs

  /** The operator running and everything it left behind. */
  datatype Cluster = Cluster(process: Process, operatorVersion: string)

  datatype Event =
    | Reconcile(products: seq<string>, world: World)
    | ReplaceOperator(version: string)

  /** The operator is replaced only while no upgrade is under way; a new process starts with a
      cleared flag and empty stage tables. */
  function After(c: Cluster, e: Event): Cluster {
    match e
    case Reconcile(products, w) =>
      c.(process := Reconciled(c.process, InstallTable(products), w.(operatorVersion := c.operatorVersion)))
    case ReplaceOperator(v) =>
      if v == "" || c.process.persisted.toVersion != "" then c
      else Cluster(Process(c.process.persisted, false, map[]), v)
  }

  function Run(c: Cluster, events: seq<Event>): Cluster
    decreases |events|
  {
    if events == [] then c else Run(After(c, events[0]), events[1..])
  }

  /** The version under way is either none or the running operator's, and never the one installed. */
  predicate VersionsOk(c: Cluster) {
    var s := c.process.persisted;
    && c.operatorVersion != ""
    && (s.toVersion == "" || s.toVersion == c.operatorVersion)
    && (s.toVersion != "" ==> s.toVersion != s.version)
  }

  lemma AfterVersionsOk(c: Cluster, e: Event)
    requires VersionsOk(c)
    ensures VersionsOk(After(c, e))
    ensures c.process.persisted.version != "" ==> After(c, e).process.persisted.version != ""
  {
    if e.Reconcile? {
      var w := e.world.(operatorVersion := c.operatorVersion);
      var p, stages := c.process, InstallTable(e.products);
      if w.proceeds && !Aborts(p.persisted, w) {
        StagesKeepDecisions(Memory(Started(p.persisted, w), p.mismatch, p.tables, "", false), stages, w);
      }
    }
  }

  /** Over every run, with any stage outcomes, any lost writes and any operator replacements. */
  lemma {:induction false} EveryRunVersions(c: Cluster, events: seq<Event>)
    requires VersionsOk(c)
    ensures VersionsOk(Run(c, events))
    ensures c.process.persisted.version != "" ==> Run(c, events).process.persisted.version != ""
    decreases |events|
  {
    if events != [] {
      AfterVersionsOk(c, events[0]);
      EveryRunVersions(After(c, events[0]), events[1..]);
    }
  }

  // ---------------------------------------------------------------- a pending quota that stays

  /** A reconcile of products that expect and report nothing, in which bootstrap resolves `quota`. */
  function Resolving(v: string, quota: string, phase: Phase): World {
    World(true, v, p => NO_VERSIONS, Resolves(quota, Outcome(phase, false)),
          (stage, p) => Reconciles(Outcome(Completed, false), NO_VERSIONS, Fine), true, true)
  }

  const NEW_STATUS := Status("", "", "", "", map[])

  lemma FirstQuota(products: seq<string>, v: string, a: string)
    requires v != ""
    ensures var p := Process(NEW_STATUS, false, map[]);
      var s := Reconciled(p, InstallTable(products), Resolving(v, a, Completed)).persisted;
      s.version == v && s.toVersion == "" && s.quota == a && s.toQuota == ""
  {
    var p, w := Process(NEW_STATUS, false, map[]), Resolving(v, a, Completed);
    CompleteIff(p, products, w);
    CompleteReconcileAdoptsQuota(p, products, w);
    CompleteReconcileVersions(p, products, w);
  }

  lemma QuotaChangeInterrupted(p: Process, products: seq<string>, b: string)
    requires var s := p.persisted; s.version != "" && s.toVersion == "" && s.quota != b
    ensures var w := Resolving(p.persisted.version, b, InProgress);
      var s, s' := p.persisted, Reconciled(p, InstallTable(products), w).persisted;
      s'.version == s.version && s'.toVersion == "" && s'.quota == s.quota && s'.toQuota == b
  {
    var w := Resolving(p.persisted.version, b, InProgress);
    var m0 := Memory(Started(p.persisted, w), p.mismatch, p.tables, "", false);
    TwoStages(m0, Stage(BOOTSTRAP, []), Stage(INSTALLATION, products), w);
  }

  lemma QuotaChangeTakenBack(p: Process, products: seq<string>)
    requires var s := p.persisted; s.version != "" && s.toVersion == "" && s.quota != s.toQuota && s.toQuota != ""
    ensures var w := Resolving(p.persisted.version, p.persisted.quota, Completed);
      var s, s' := p.persisted, Reconciled(p, InstallTable(products), w).persisted;
      Complete(p, InstallTable(products), w) && s'.quota == s.quota && s'.toQuota == s.toQuota
  {
    var w := Resolving(p.persisted.version, p.persisted.quota, Completed);
    CompleteIff(p, products, w);
    CompleteReconcileAdoptsQuota(p, products, w);
    CompleteLoop(p, products, w);
  }

  lemma RunCons(c: Cluster, e: Event, events: seq<Event>)
    ensures Run(c, [e] + events) == Run(After(c, e), events)
  {
    assert ([e] + events)[1..] == events;
  }

  /** A quota change to `b` that is taken back while the installation is in progress: the last
      reconcile is complete and persisted, `a` is adopted, and `b` is still shown as pending. */
  lemma StaleQuotaReachable(products: seq<string>, v: string, a: string, b: string)
    returns (start: Cluster, events: seq<Event>, last: World)
    requires v != "" && b != "" && a != b
    ensures start.process.persisted == NEW_STATUS && start.operatorVersion == last.operatorVersion
    ensures Complete(Run(start, events).process, InstallTable(products), last) && last.finalWriteOk
    ensures last.bootstrap.Resolves? && last.bootstrap.name == a
    ensures var s := After(Run(start, events), Reconcile(products, last)).process.persisted;
      s.quota == a && s.toQuota == b
  {
    start := Cluster(Process(NEW_STATUS, false, map[]), v);
    var e1, e2 := Reconcile(products, Resolving(v, a, Completed)), Reconcile(products, Resolving(v, b, InProgress));
    var c1 := After(start, e1);
    var c2 := After(c1, e2);
    FirstQuota(products, v, a);
    QuotaChangeInterrupted(c1.process, products, b);
    QuotaChangeTakenBack(c2.process, products);
    events, last := [e1] + ([e2] + []), Resolving(v, a, Completed);
    RunCons(start, e1, [e2] + []);
    RunCons(c1, e2, []);
  }
}
