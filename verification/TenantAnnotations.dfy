/** Which active tenants have an annotated user: over every run, all but those that were refused at
    first. */
module TenantAnnotations {
  import opened Text
  import opened Tenants
  import opened TenantRuns

  predicate UserNamespace(ns: string) { HasSuffix(ns, DEV) || HasSuffix(ns, STAGE) }

  /** From one store to the next a tenant becomes active only in a user namespace, and only if its
      user is annotated or it had been refused. */
  ghost predicate Justified(s: Store, s': Store, annotated: set<string>) {
    forall k | k in s' && Active(s'[k].provisioning) ::
      && k in s
      && (|| Active(s[k].provisioning)
          || (UserNamespace(k.ns) && (Username(k.ns) in annotated || s[k].provisioning == WontProvision)))
  }

  ghost predicate AllJustified(trace: seq<Store>, annotated: set<string>) {
    forall i, j | 0 <= i && j == i + 1 && j < |trace| :: Justified(trace[i], trace[j], annotated)
  }

  // ---------------------------------------------------------------- one reconcile

  /** The session may push an active status for its tenant. */
  ghost predicate Entitled(k: Key, se: Session)
    requires se.Valid(k)
  {
    || Active(se.Now()[k].provisioning)
    || (UserNamespace(k.ns) && (Username(k.ns) in se.annotated || se.Now()[k].provisioning == WontProvision))
  }

  ghost predicate Linked(k: Key, se: Session) {
    && se.Valid(k) && AllJustified(se.trace, se.annotated)
    && (Active(se.tenant.provisioning) ==> Entitled(k, se))
  }

  lemma JustifiedSnoc(trace: seq<Store>, s: Store, annotated: set<string>)
    requires trace != [] && AllJustified(trace, annotated) && Justified(trace[|trace| - 1], s, annotated)
    ensures AllJustified(trace + [s], annotated)
  {
  }

  lemma PushLinked(k: Key, se: Session, a: Answers, t: Status)
    requires Linked(k, se) && (Active(t.provisioning) ==> Entitled(k, se))
    ensures Linked(k, Push(se, k, a, t))
  {
    if Persists(a, se.attempts) {
      JustifiedSnoc(se.trace, se.Now()[k := t], se.annotated);
    }
  }

  /** What annotating leaves: the status about to be replaced is itself a reason to be active. */
  ghost predicate Cleared(k: Key, se: Session) {
    && Linked(k, se) && Entitled(k, se)
    && (|| Active(se.tenant.provisioning)
        || (UserNamespace(k.ns) && (Username(k.ns) in se.annotated || se.tenant.provisioning == WontProvision)))
  }

  lemma AnnotateLinked(k: Key, se: Session, a: Answers)
    requires Linked(k, se) && se.tenant == se.Now()[k]
    requires Active(se.tenant.provisioning) || UserNamespace(k.ns)
    ensures var (se1, problem) := Annotate(se, k, a);
      Linked(k, se1) && (problem == NoProblem ==> Cleared(k, se1))
  {
    if se.tenant.provisioning == Unset && a.userAtAnnotate.Found? && a.annotateOk {
      var se1 := se.(annotated := se.annotated + {Username(k.ns)});
      PushLinked(k, se1, a, se1.tenant.(provisioning := UserAnnotated));
    }
  }

  lemma WaitLinked(k: Key, se: Session, a: Answers, p: Problem)
    requires Cleared(k, se)
    ensures Linked(k, Wait(se, k, a, p).session)
  {
    var t := se.tenant.(provisioning := AccountRequested);
    PushLinked(k, se, a, t);
    PushLinked(k, Push(se, k, a, t), a, t.(lastError := p));
  }

  lemma FinishLinked(k: Key, se: Session, a: Answers, url: string)
    requires Cleared(k, se)
    ensures Linked(k, Finish(se, k, a, url).session)
  {
    var t := se.tenant.(tenantUrl := url);
    PushLinked(k, se, a, t);
    PushLinked(k, Push(se, k, a, t), a, t.(provisioning := AccountReady));
  }

  lemma UrlLinked(k: Key, se: Session, a: Answers)
    requires Cleared(k, se)
    ensures Linked(k, ReconcileUrl(se, k, a).session)
  {
    WaitLinked(k, se, a, WaitingForRoute);
    WaitLinked(k, se, a, WaitingForSso);
    var hosts := MatchingHosts(a.routes, Username(k.ns));
    if hosts != [] {
      FinishLinked(k, se, a, hosts[0]);
    }
  }

  lemma PushErrorLinked(k: Key, se: Session, a: Answers, p: Problem)
    requires Linked(k, se)
    ensures Linked(k, PushError(se, k, a, p))
  {
    PushLinked(k, se, a, se.tenant.(lastError := p));
  }

  lemma RefuseLinked(k: Key, se: Session, a: Answers, why: Problem)
    requires Linked(k, se)
    ensures Linked(k, Refuse(se, k, a, why).0)
  {
    var t := se.tenant.(provisioning := WontProvision);
    PushLinked(k, se, a, t);
    PushErrorLinked(k, Push(se, k, a, t), a, why);
  }

  lemma ProvisionLinked(k: Key, se: Session, a: Answers)
    requires Linked(k, se) && se.tenant == se.Now()[k]
    requires Active(se.tenant.provisioning) || UserNamespace(k.ns)
    ensures Linked(k, Provision(se, k, a).0)
  {
    AnnotateLinked(k, se, a);
    var (se1, problem) := Annotate(se, k, a);
    if problem != NoProblem {
      PushErrorLinked(k, se1, a, problem);
    } else {
      UrlLinked(k, se1, a);
      var r := ReconcileUrl(se1, k, a);
      PushErrorLinked(k, r.session, a, r.problem);
    }
  }

  lemma ReconciledJustified(s: Store, annotated: set<string>, k: Key, a: Answers)
    ensures var se := Reconciled(s, annotated, k, a).0;
      AllJustified(se.trace, se.annotated) && annotated <= se.annotated
  {
    if k in s && a.getOk {
      var se := Session([s], annotated, s[k], 0);
      match Verify(s, k, a) {
        case VerifyFailed(why) => PushErrorLinked(k, se, a, why);
        case Rejected(why) => RefuseLinked(k, se, a, why);
        case Verified => ProvisionLinked(k, se, a);
      }
    }
  }

  // ---------------------------------------------------------------- every run

  lemma JustifiedAppend(t: seq<Store>, u: seq<Store>, a: set<string>, b: set<string>)
    requires AllJustified(t, a) && AllJustified(u, b) && a <= b && t != [] && u != [] && t[|t| - 1] == u[0]
    ensures AllJustified(t + u[1..], b)
  {
    var r := t + u[1..];
    forall i, j | 0 <= i && j == i + 1 && j < |r| ensures Justified(r[i], r[j], b) {
      if j >= |t| {
        assert r[i] == u[i - |t| + 1] && r[j] == u[j - |t| + 1];
      } else {
        assert Justified(t[i], t[j], a);
      }
    }
  }

  lemma AfterJustified(r: Run, e: TenantRuns.Event)
    requires r.trace != [] && AllJustified(r.trace, r.annotated)
    ensures AllJustified(After(r, e).trace, After(r, e).annotated)
  {
    var s := Now(r);
    match e {
      case Create(k) =>
        if k !in s {
          JustifiedSnoc(r.trace, s[k := FRESH], r.annotated);
        }
      case Delete(k) =>
        JustifiedSnoc(r.trace, s - {k}, r.annotated);
      case Reconcile(k, a) =>
        var se := Reconciled(s, r.annotated, k, a).0;
        ReconciledJustified(s, r.annotated, k, a);
        JustifiedAppend(r.trace, se.trace, r.annotated, se.annotated);
    }
  }

  lemma {:induction false} EveryRunJustified(events: seq<TenantRuns.Event>)
    ensures AllJustified(RunOf(events).trace, RunOf(events).annotated) && RunOf(events).trace[0] == map[]
  {
    if events != [] {
      EveryRunJustified(events[..|events| - 1]);
      AfterJustified(RunOf(events[..|events| - 1]), events[|events| - 1]);
    }
  }

  /** The tenant was refused in store `j` and has existed ever since. */
  ghost predicate RefusedAt(trace: seq<Store>, k: Key, j: nat, i: nat)
    requires j <= i < |trace|
  {
    && (forall m | j <= m <= i :: k in trace[m])
    && trace[j][k].provisioning == WontProvision
  }

  lemma {:induction false} ActiveIsExplained(trace: seq<Store>, annotated: set<string>, i: nat, k: Key)
    requires AllJustified(trace, annotated) && i < |trace| && trace[0] == map[]
    requires k in trace[i] && Active(trace[i][k].provisioning)
    ensures UserNamespace(k.ns)
    ensures Username(k.ns) in annotated || exists j: nat | j < i :: RefusedAt(trace, k, j, i)
  {
    assert i > 0;
    assert Justified(trace[i - 1], trace[i], annotated);
    if Active(trace[i - 1][k].provisioning) {
      ActiveIsExplained(trace, annotated, i - 1, k);
      if Username(k.ns) !in annotated {
        var j: nat :| j < i - 1 && RefusedAt(trace, k, j, i - 1);
        assert RefusedAt(trace, k, j, i);
      }
    } else if Username(k.ns) !in annotated {
      assert RefusedAt(trace, k, i - 1, i);
    }
  }

  /** In every store of every run, an active tenant whose user has not been annotated was refused in
      an earlier store and has existed ever since. */
  lemma UnannotatedWasRefused(events: seq<TenantRuns.Event>, i: nat, k: Key)
    requires i < |RunOf(events).trace|
    requires k in RunOf(events).trace[i] && Active(RunOf(events).trace[i][k].provisioning)
    requires Username(k.ns) !in RunOf(events).annotated
    ensures exists j: nat | j < i :: RefusedAt(RunOf(events).trace, k, j, i)
  {
    EveryRunJustified(events);
    ActiveIsExplained(RunOf(events).trace, RunOf(events).annotated, i, k);
  }

  // ---------------------------------------------------------------- and it does happen

  ghost predicate ActiveUnannotated(events: seq<TenantRuns.Event>, k: Key) {
    var r := RunOf(events);
    k in Now(r) && Active(Now(r)[k].provisioning) && Username(k.ns) !in r.annotated
  }

  /** The user does not exist yet; the refusal is persisted, its reason lost. */
  const NO_USER_YET := Answers(true, Missing, true, true, Missing, true, true, [], Missing, [true])

  /** Everything is there except SSO; the first status update is persisted. */
  const NO_SSO_YET := Answers(true, Found(""), true, true, Found(""), true, true, ["route"], Found(""), [true])

  lemma Refused(s: Store, k: Key)
    requires s == map[k := FRESH] && UserNamespace(k.ns)
    ensures var se := Reconciled(s, {}, k, NO_USER_YET).0;
      se.Now() == map[k := FRESH.(provisioning := WontProvision)] && se.annotated == {}
  {
    assert Verify(s, k, NO_USER_YET) == Rejected(NoSuchUser);
  }

  lemma AcceptedLater(s: Store, k: Key)
    requires s == map[k := FRESH.(provisioning := WontProvision)] && UserNamespace(k.ns)
    ensures var se := Reconciled(s, {}, k, NO_SSO_YET).0;
      k in se.Now() && Active(se.Now()[k].provisioning) && se.annotated == {}
  {
    assert Verify(s, k, NO_SSO_YET) == Verified;
  }

  /** A tenant created before its user: refused, accepted later, and active without the annotation. */
  lemma RefusedThenActivated(k: Key) returns (events: seq<TenantRuns.Event>)
    requires UserNamespace(k.ns)
    ensures ActiveUnannotated(events, k) && RunOf(events).annotated == {}
  {
    var r0 := RunOf([]);
    RunSnoc([], Create(k));
    var r1 := RunOf([] + [Create(k)]);
    events := [] + [Create(k)];
    Refused(Now(r1), k);
    AbsorbNow(r1, Reconciled(Now(r1), {}, k, NO_USER_YET).0);
    RunSnoc(events, Reconcile(k, NO_USER_YET));
    events := events + [Reconcile(k, NO_USER_YET)];
    var r2 := RunOf(events);
    AcceptedLater(Now(r2), k);
    AbsorbNow(r2, Reconciled(Now(r2), {}, k, NO_SSO_YET).0);
    RunSnoc(events, Reconcile(k, NO_SSO_YET));
    events := events + [Reconcile(k, NO_SSO_YET)];
  }

  /** Exactly the tenants in a user namespace can end up active with a user never annotated; no other
      tenant ever becomes active at all. */
  lemma UnannotatedReachableIff(k: Key)
    ensures (exists events :: ActiveUnannotated(events, k)) <==> UserNamespace(k.ns)
  {
    if events :| ActiveUnannotated(events, k) {
      EveryRunJustified(events);
      var r := RunOf(events);
      ActiveIsExplained(r.trace, r.annotated, |r.trace| - 1, k);
    }
    if UserNamespace(k.ns) {
      var events := RefusedThenActivated(k);
    }
  }
}
