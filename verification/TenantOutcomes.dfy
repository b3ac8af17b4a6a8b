/** What one reconcile of a tenant comes to, case by case: the decision, the persisted status, the
    result, and what a lost write changes of them. */
module TenantOutcomes {
  import opened Text
  import opened Tenants

  // ---------------------------------------------------------------- the decision

  /** An active tenant of the user is met before a listing fails. */
  predicate MeetsActive(s: Store, user: string, a: Answers) {
    a.listDevOk && (HasActive(s, user + DEV) || (a.listStageOk && HasActive(s, user + STAGE)))
  }

  predicate InUserNamespace(k: Key) { HasSuffix(k.ns, DEV) || HasSuffix(k.ns, STAGE) }

  /** The tenant is to be refused, and why. */
  predicate MustRefuse(s: Store, k: Key, a: Answers, why: Problem)
    requires k in s
  {
    && !Active(s[k].provisioning)
    && match why
       case NotUserNamespace => !InUserNamespace(k)
       case NoSuchUser => InUserNamespace(k) && a.userAtVerify.Missing?
       case AlreadyHasTenant =>
         InUserNamespace(k) && a.userAtVerify.Found? && MeetsActive(s, Username(k.ns), a)
       case _ => false
  }

  /** A call failed before the tenant could be judged. */
  predicate Undecided(s: Store, k: Key, a: Answers, why: Problem)
    requires k in s
  {
    && !Active(s[k].provisioning) && InUserNamespace(k)
    && match why
       case UserLookupFailed => a.userAtVerify.Unavailable?
       case ListFailed =>
         a.userAtVerify.Found? && !MeetsActive(s, Username(k.ns), a) && !(a.listDevOk && a.listStageOk)
       case _ => false
  }

  /** Neither: an active tenant, or one in a namespace of an existing user who has no active tenant. */
  predicate Accepted(s: Store, k: Key, a: Answers)
    requires k in s
  {
    || Active(s[k].provisioning)
    || (&& InUserNamespace(k) && a.userAtVerify.Found? && a.listDevOk && a.listStageOk
        && !HasActive(s, Username(k.ns) + DEV) && !HasActive(s, Username(k.ns) + STAGE))
  }

  /** The verdict, stated by what the tenant's namespace and the cluster show. */
  lemma VerdictIff(s: Store, k: Key, a: Answers, why: Problem)
    requires k in s
    ensures Verify(s, k, a) == Rejected(why) <==> MustRefuse(s, k, a, why)
    ensures Verify(s, k, a) == VerifyFailed(why) <==> Undecided(s, k, a, why)
    ensures Verify(s, k, a) == Verified <==> Accepted(s, k, a)
  {
  }

  // ---------------------------------------------------------------- refusals and failed checks

  /** A refusal: the status is written first; its reason follows only if that write was persisted. */
  lemma RefusalOutcome(s: Store, annotated: set<string>, k: Key, a: Answers, why: Problem)
    requires k in s && a.getOk && MustRefuse(s, k, a, why)
    ensures var (se, r) := Reconciled(s, annotated, k, a);
      var refused := s[k].(provisioning := WontProvision);
      && se.annotated == annotated && !r.requeue && (r.failed <==> !(Persists(a, 0) && Persists(a, 1)))
      && se.trace == (
           if !Persists(a, 0) then [s]
           else if !Persists(a, 1) then [s, s[k := refused]]
           else [s, s[k := refused], s[k := refused.(lastError := why)]])
  {
    VerdictIff(s, k, a, why);
    var t := s[k].(provisioning := WontProvision);
    assert s[k := t][k := t.(lastError := why)] == s[k := t.(lastError := why)];
  }

  /** A failed lookup or listing changes nothing but the last error, and is always an error. */
  lemma UndecidedOutcome(s: Store, annotated: set<string>, k: Key, a: Answers, why: Problem)
    requires k in s && a.getOk && Undecided(s, k, a, why)
    ensures var (se, r) := Reconciled(s, annotated, k, a);
      && se.annotated == annotated && r == Result(false, true)
      && se.trace == if Persists(a, 0) then [s, s[k := s[k].(lastError := why)]] else [s]
  {
    VerdictIff(s, k, a, why);
  }

  /** A tenant that cannot be read is left alone, with an error. */
  lemma UnreadableOutcome(s: Store, annotated: set<string>, k: Key, a: Answers)
    requires k !in s || !a.getOk
    ensures var (se, r) := Reconciled(s, annotated, k, a);
      se.trace == [s] && se.annotated == annotated && r == Result(false, true)
  {
  }

  ghost predicate NotRefused(k: Key, se: Session) {
    se.Valid(k) && se.Now()[k].provisioning != WontProvision && se.tenant.provisioning != WontProvision
  }

  lemma PushRefusesNobody(k: Key, se: Session, a: Answers, t: Status)
    requires NotRefused(k, se) && t.provisioning != WontProvision
    ensures NotRefused(k, Push(se, k, a, t))
  {
  }

  lemma ProvisionRefusesNobody(k: Key, se: Session, a: Answers)
    requires NotRefused(k, se)
    ensures NotRefused(k, Provision(se, k, a).0)
  {
    var (se1, p1) := Annotate(se, k, a);
    var u := ReconcileUrl(se1, k, a);
    UrlRefusesNobody(k, se1, a);
    PushRefusesNobody(k, se1, a, se1.tenant.(lastError := p1));
    PushRefusesNobody(k, u.session, a, u.session.tenant.(lastError := u.problem));
  }

  lemma UrlRefusesNobody(k: Key, se: Session, a: Answers)
    requires NotRefused(k, se)
    ensures NotRefused(k, ReconcileUrl(se, k, a).session)
  {
  }

  /** Exactly when a tenant that was never judged is refused. */
  lemma RefusedIff(s: Store, annotated: set<string>, k: Key, a: Answers)
    requires k in s && s[k].provisioning == Unset
    ensures Reconciled(s, annotated, k, a).0.Now()[k].provisioning == WontProvision <==>
      (&& a.getOk && Persists(a, 0)
       && (|| !InUserNamespace(k)
           || a.userAtVerify.Missing?
           || (a.userAtVerify.Found? && MeetsActive(s, Username(k.ns), a))))
  {
    if a.getOk {
      VerdictIff(s, k, a, NoProblem);
      match Verify(s, k, a) {
        case Rejected(why) =>
          VerdictIff(s, k, a, why);
          RefusalOutcome(s, annotated, k, a, why);
        case VerifyFailed(why) =>
          VerdictIff(s, k, a, why);
          UndecidedOutcome(s, annotated, k, a, why);
        case Verified =>
          ProvisionRefusesNobody(k, Session([s], annotated, s[k], 0), a);
      }
    }
  }

  // ---------------------------------------------------------------- accepted tenants

  /** The first host that contains the user's name. */
  ghost predicate FirstHost(hosts: seq<string>, user: string, i: nat) {
    i < |hosts| && Contains(hosts[i], user) && forall j | 0 <= j < i :: !Contains(hosts[j], user)
  }

  lemma {:induction false} MatchingHostsFirst(hosts: seq<string>, user: string)
    ensures MatchingHosts(hosts, user) == [] ==> forall h | h in hosts :: !Contains(h, user)
    ensures MatchingHosts(hosts, user) != [] ==>
      exists i: nat :: FirstHost(hosts, user, i) && MatchingHosts(hosts, user)[0] == hosts[i]
  {
    if hosts != [] {
      if Contains(hosts[0], user) {
        assert FirstHost(hosts, user, 0);
      } else {
        MatchingHostsFirst(hosts[1..], user);
        if MatchingHosts(hosts, user) != [] {
          var i: nat :| FirstHost(hosts[1..], user, i) && MatchingHosts(hosts, user)[0] == hosts[1..][i];
          assert FirstHost(hosts, user, i + 1);
        }
      }
    }
  }

  /** The status updates that an accepted tenant goes through when none is lost, what the reconcile then
      returns, and whether the user is annotated. */
  datatype Plan = Plan(pushes: seq<Status>, result: Result, annotates: bool)

  const RETRY := Result(true, true)
  const WAIT := Result(true, false)
  const DONE := Result(false, false)

  function UrlPlan(base: Status, user: string, a: Answers): Plan {
    if base.provisioning == AccountReady then Plan([base.(lastError := NoProblem)], DONE, false)
    else if !a.routesOk then Plan([base.(lastError := RoutesUnavailable)], RETRY, false)
    else if a.routes == [] then Plan([base.(lastError := NoRoutes)], RETRY, false)
    else if !a.userAtUrl.Found? then Plan([base.(lastError := UserLookupFailed)], RETRY, false)
    else
      var hosts, requested := MatchingHosts(a.routes, user), base.(provisioning := AccountRequested);
      if hosts == [] then Plan([requested, requested.(lastError := WaitingForRoute)], WAIT, false)
      else if a.userAtUrl.ssoReady != "yes" then Plan([requested, requested.(lastError := WaitingForSso)], WAIT, false)
      else
        var ready := Status(AccountReady, base.lastError, hosts[0]);
        Plan([base.(tenantUrl := hosts[0]), ready, ready.(lastError := NoProblem)], DONE, false)
  }

  function AcceptedPlan(st: Status, user: string, a: Answers): Plan {
    if st.provisioning != Unset then UrlPlan(st, user, a)
    else if !a.userAtAnnotate.Found? then Plan([st.(lastError := UserLookupFailed)], RETRY, false)
    else if !a.annotateOk then Plan([st.(lastError := AnnotationFailed)], RETRY, false)
    else
      var annotated := st.(provisioning := UserAnnotated);
      var rest := UrlPlan(annotated, user, a);
      Plan([annotated] + rest.pushes, rest.result, true)
  }

  /** `m` updates from the `from`-th on are persisted. */
  ghost predicate Persisted(a: Answers, from: nat, m: nat) { forall i: nat | from <= i < from + m :: Persists(a, i) }

  /** The updates are persisted one by one; the first lost one ends the plan. If it was not the plan's
      last word its error is pushed, together with the status that was lost. */
  ghost predicate Carried(se: Session, k: Key, a: Answers, plan: Plan, se': Session, r: Result)
    requires se.Valid(k)
  {
    var m := |plan.pushes|;
    || (&& Persisted(a, se.attempts, m) && r == plan.result
        && se'.trace == se.trace + Stores(se.Now(), k, plan.pushes))
    || exists n: nat | n < m :: LostAt(se, k, a, plan, se', r, n)
  }

  ghost function Stores(s: Store, k: Key, ts: seq<Status>): (r: seq<Store>)
    ensures |r| == |ts|
  {
    seq(|ts|, i requires 0 <= i < |ts| => s[k := ts[i]])
  }

  ghost predicate LostAt(se: Session, k: Key, a: Answers, plan: Plan, se': Session, r: Result, n: nat)
    requires se.Valid(k) && n < |plan.pushes|
  {
    && Persisted(a, se.attempts, n) && !Persists(a, se.attempts + n)
    && (if n + 1 == |plan.pushes| && plan.result != WAIT
        then r == Result(plan.result.requeue, true)
             && se'.trace == se.trace + Stores(se.Now(), k, plan.pushes[..n])
        else var blamed := plan.pushes[n].(lastError := StatusWriteFailed);
             && r == RETRY
             && se'.trace == se.trace + Stores(se.Now(), k, plan.pushes[..n]
                               + if Persists(a, se.attempts + n + 1) then [blamed] else []))
  }

  // ---------------------------------------------------------------- the plan is carried out

  ghost predicate OthersSame(s: Store, s': Store, k: Key) {
    k in s && k in s' && s'.Keys == s.Keys && forall l | l in s && l != k :: s'[l] == s[l]
  }

  /** `se` is `se0` with the updates `ts` persisted since. */
  ghost predicate Along(se0: Session, k: Key, ts: seq<Status>, se: Session) {
    && se0.Valid(k) && se.Valid(k) && OthersSame(se0.Now(), se.Now(), k)
    && se.trace == se0.trace + Stores(se0.Now(), k, ts)
  }

  lemma PushAlong(se0: Session, k: Key, ts: seq<Status>, se: Session, a: Answers, t: Status)
    requires Along(se0, k, ts, se)
    ensures Along(se0, k, if Persists(a, se.attempts) then ts + [t] else ts, Push(se, k, a, t))
  {
    if Persists(a, se.attempts) {
      assert se.Now()[k := t] == se0.Now()[k := t];
      assert Stores(se0.Now(), k, ts + [t]) == Stores(se0.Now(), k, ts) + [se0.Now()[k := t]];
    }
  }

  /** The first `n` updates of the plan have been persisted. */
  ghost predicate AtStep(se0: Session, k: Key, a: Answers, plan: Plan, n: nat, se: Session) {
    && n <= |plan.pushes| && Along(se0, k, plan.pushes[..n], se)
    && se.attempts == se0.attempts + n && Persisted(a, se0.attempts, n)
  }

  lemma Start(se: Session, k: Key, a: Answers, plan: Plan)
    requires se.Valid(k)
    ensures AtStep(se, k, a, plan, 0, se)
  {
    assert Stores(se.Now(), k, plan.pushes[..0]) == [];
  }

  lemma StepOn(se0: Session, k: Key, a: Answers, plan: Plan, n: nat, se: Session)
    requires AtStep(se0, k, a, plan, n, se) && n < |plan.pushes| && Persists(a, se.attempts)
    ensures AtStep(se0, k, a, plan, n + 1, Push(se, k, a, plan.pushes[n]))
  {
    PushAlong(se0, k, plan.pushes[..n], se, a, plan.pushes[n]);
    assert plan.pushes[..n + 1] == plan.pushes[..n] + [plan.pushes[n]];
  }

  lemma AllDone(se0: Session, k: Key, a: Answers, plan: Plan, se: Session)
    requires AtStep(se0, k, a, plan, |plan.pushes|, se)
    ensures Carried(se0, k, a, plan, se, plan.result)
  {
    assert plan.pushes[..|plan.pushes|] == plan.pushes;
  }

  lemma LastLost(se0: Session, k: Key, a: Answers, plan: Plan, se: Session)
    requires plan.pushes != [] && plan.result != WAIT && !Persists(a, se.attempts)
    requires AtStep(se0, k, a, plan, |plan.pushes| - 1, se)
    ensures var n := |plan.pushes| - 1;
      Carried(se0, k, a, plan, Push(se, k, a, plan.pushes[n]), Result(plan.result.requeue, true))
  {
    var n := |plan.pushes| - 1;
    assert LostAt(se0, k, a, plan, Push(se, k, a, plan.pushes[n]), Result(plan.result.requeue, true), n);
  }

  /** A lost update is followed by one more that carries it along with the error. */
  lemma Blame(se0: Session, k: Key, a: Answers, plan: Plan, n: nat, se: Session)
    requires AtStep(se0, k, a, plan, n, se) && n < |plan.pushes| && !Persists(a, se.attempts)
    requires n + 1 < |plan.pushes| || plan.result == WAIT
    ensures Carried(se0, k, a, plan, PushError(Push(se, k, a, plan.pushes[n]), k, a, StatusWriteFailed), RETRY)
  {
    var lost, ts := Push(se, k, a, plan.pushes[n]), plan.pushes[..n];
    PushAlong(se0, k, ts, se, a, plan.pushes[n]);
    PushAlong(se0, k, ts, lost, a, plan.pushes[n].(lastError := StatusWriteFailed));
    assert ts + [] == ts;
    assert LostAt(se0, k, a, plan, PushError(lost, k, a, StatusWriteFailed), RETRY, n);
  }

  lemma OnePush(se: Session, k: Key, a: Answers, t: Status, result: Result)
    requires se.Valid(k) && result != WAIT
    ensures var r := if Persists(a, se.attempts) then result else Result(result.requeue, true);
      Carried(se, k, a, Plan([t], result, false), Push(se, k, a, t), r)
  {
    var plan := Plan([t], result, false);
    Start(se, k, a, plan);
    if Persists(a, se.attempts) {
      StepOn(se, k, a, plan, 0, se);
      AllDone(se, k, a, plan, Push(se, k, a, t));
    } else {
      LastLost(se, k, a, plan, se);
    }
  }

  lemma WaitCarried(se: Session, k: Key, a: Answers, p: Problem)
    requires se.Valid(k) && p != NoProblem
    ensures var t := se.tenant.(provisioning := AccountRequested);
      var step := Wait(se, k, a, p);
      var r := if step.problem == NoProblem then (step.session, WAIT)
               else (PushError(step.session, k, a, step.problem), RETRY);
      Carried(se, k, a, Plan([t, t.(lastError := p)], WAIT, false), r.0, r.1)
  {
    var t := se.tenant.(provisioning := AccountRequested);
    var plan := Plan([t, t.(lastError := p)], WAIT, false);
    var se1 := Push(se, k, a, t);
    Start(se, k, a, plan);
    if !Persists(a, se.attempts) {
      Blame(se, k, a, plan, 0, se);
    } else {
      StepOn(se, k, a, plan, 0, se);
      if !Persists(a, se1.attempts) {
        Blame(se, k, a, plan, 1, se1);
      } else {
        StepOn(se, k, a, plan, 1, se1);
        AllDone(se, k, a, plan, Push(se1, k, a, plan.pushes[1]));
      }
    }
  }

  lemma FinishCarried(se: Session, k: Key, a: Answers, url: string)
    requires se.Valid(k)
    ensures var t := se.tenant.(tenantUrl := url);
      var ready := t.(provisioning := AccountReady);
      var step := Finish(se, k, a, url);
      var r := if step.problem != NoProblem then (PushError(step.session, k, a, step.problem), RETRY)
               else (PushError(step.session, k, a, NoProblem), Result(false, !Persists(a, step.session.attempts)));
      Carried(se, k, a, Plan([t, ready, ready.(lastError := NoProblem)], DONE, false), r.0, r.1)
  {
    var t := se.tenant.(tenantUrl := url);
    var ready := t.(provisioning := AccountReady);
    var plan := Plan([t, ready, ready.(lastError := NoProblem)], DONE, false);
    var se1 := Push(se, k, a, t);
    var se2 := Push(se1, k, a, ready);
    Start(se, k, a, plan);
    if !Persists(a, se.attempts) {
      Blame(se, k, a, plan, 0, se);
    } else {
      StepOn(se, k, a, plan, 0, se);
      if !Persists(a, se1.attempts) {
        Blame(se, k, a, plan, 1, se1);
      } else {
        StepOn(se, k, a, plan, 1, se1);
        if !Persists(a, se2.attempts) {
          LastLost(se, k, a, plan, se2);
        } else {
          StepOn(se, k, a, plan, 2, se2);
          AllDone(se, k, a, plan, Push(se2, k, a, plan.pushes[2]));
        }
      }
    }
  }

  lemma UrlCarried(se: Session, k: Key, a: Answers)
    requires se.Valid(k)
    ensures var (se', r) := Concluded(se, k, a); Carried(se, k, a, UrlPlan(se.tenant, Username(k.ns), a), se', r)
  {
    var st := se.tenant;
    if st.provisioning == AccountReady {
      OnePush(se, k, a, st.(lastError := NoProblem), DONE);
    } else if !a.routesOk {
      OnePush(se, k, a, st.(lastError := RoutesUnavailable), RETRY);
    } else if a.routes == [] {
      OnePush(se, k, a, st.(lastError := NoRoutes), RETRY);
    } else if !a.userAtUrl.Found? {
      OnePush(se, k, a, st.(lastError := UserLookupFailed), RETRY);
    } else {
      var hosts := MatchingHosts(a.routes, Username(k.ns));
      if hosts == [] {
        WaitCarried(se, k, a, WaitingForRoute);
      } else if a.userAtUrl.ssoReady != "yes" {
        WaitCarried(se, k, a, WaitingForSso);
      } else {
        FinishCarried(se, k, a, hosts[0]);
      }
    }
  }

  /** A plan carried out after a first update that was persisted. */
  lemma CarriedCons(se0: Session, k: Key, a: Answers, t: Status, se1: Session, plan: Plan, se': Session, r: Result)
    requires Along(se0, k, [t], se1) && Persists(a, se0.attempts) && se1.attempts == se0.attempts + 1
    requires Carried(se1, k, a, plan, se', r)
    ensures Carried(se0, k, a, Plan([t] + plan.pushes, plan.result, true), se', r)
  {
    if n: nat :| n < |plan.pushes| && LostAt(se1, k, a, plan, se', r, n) {
      LostCons(se0, k, a, t, se1, plan, se', r, n);
    } else {
      StoresCons(se0, k, t, se1, plan.pushes);
      assert Persisted(a, se0.attempts, 1 + |plan.pushes|);
    }
  }

  lemma LostCons(
    se0: Session, k: Key, a: Answers, t: Status, se1: Session, plan: Plan, se': Session, r: Result, n: nat)
    requires Along(se0, k, [t], se1) && Persists(a, se0.attempts) && se1.attempts == se0.attempts + 1
    requires n < |plan.pushes| && LostAt(se1, k, a, plan, se', r, n)
    ensures LostAt(se0, k, a, Plan([t] + plan.pushes, plan.result, true), se', r, n + 1)
  {
    var all := [t] + plan.pushes;
    var kept := plan.pushes[..n];
    assert all[..n + 1] == [t] + kept && all[n + 1] == plan.pushes[n];
    assert Persisted(a, se0.attempts, n + 1);
    var tail := if Persists(a, se1.attempts + n + 1) then [plan.pushes[n].(lastError := StatusWriteFailed)] else [];
    assert all[..n + 1] + tail == [t] + (kept + tail);
    StoresCons(se0, k, t, se1, kept);
    StoresCons(se0, k, t, se1, kept + tail);
  }

  lemma StoresCons(se0: Session, k: Key, t: Status, se1: Session, ts: seq<Status>)
    requires Along(se0, k, [t], se1)
    ensures se1.trace + Stores(se1.Now(), k, ts) == se0.trace + Stores(se0.Now(), k, [t] + ts)
  {
    assert forall i | 0 <= i < |ts| :: se1.Now()[k := ts[i]] == se0.Now()[k := ts[i]];
    assert Stores(se0.Now(), k, [t] + ts) == Stores(se0.Now(), k, [t]) + Stores(se1.Now(), k, ts);
  }

  /** What becomes of every accepted tenant, with any lost writes: its plan is carried out up to the
      first loss, and its user is annotated when the plan says so. */
  lemma AcceptedOutcome(s: Store, annotated: set<string>, k: Key, a: Answers)
    requires k in s && a.getOk && Accepted(s, k, a)
    ensures var (se, r) := Reconciled(s, annotated, k, a);
      var plan := AcceptedPlan(s[k], Username(k.ns), a);
      && Carried(Session([s], annotated, s[k], 0), k, a, plan, se, r)
      && se.annotated == annotated + if plan.annotates then {Username(k.ns)} else {}
  {
    VerdictIff(s, k, a, NoProblem);
    var se := Session([s], annotated, s[k], 0);
    ProvisionCarried(se, k, a);
  }

  lemma ProvisionCarried(se: Session, k: Key, a: Answers)
    requires se.Valid(k)
    ensures var (se', r) := Provision(se, k, a);
      var plan := AcceptedPlan(se.tenant, Username(k.ns), a);
      && Carried(se, k, a, plan, se', r)
      && se'.annotated == se.annotated + if plan.annotates then {Username(k.ns)} else {}
  {
    var st := se.tenant;
    if st.provisioning != Unset {
      UrlCarried(se, k, a);
    } else if !a.userAtAnnotate.Found? {
      OnePush(se, k, a, st.(lastError := UserLookupFailed), RETRY);
    } else if !a.annotateOk {
      OnePush(se, k, a, st.(lastError := AnnotationFailed), RETRY);
    } else {
      AnnotatedCarried(se, k, a);
    }
  }

  lemma AnnotatedCarried(se: Session, k: Key, a: Answers)
    requires se.Valid(k) && se.tenant.provisioning == Unset && a.userAtAnnotate.Found? && a.annotateOk
    ensures var (se', r) := Provision(se, k, a);
      && Carried(se, k, a, AcceptedPlan(se.tenant, Username(k.ns), a), se', r)
      && se'.annotated == se.annotated + {Username(k.ns)}
  {
    var t := se.tenant.(provisioning := UserAnnotated);
    var plan := AcceptedPlan(se.tenant, Username(k.ns), a);
    var with := se.(annotated := se.annotated + {Username(k.ns)});
    var se1 := Push(with, k, a, t);
    Start(with, k, a, plan);
    if Persists(a, se.attempts) {
      StepOn(with, k, a, plan, 0, with);
      assert plan.pushes[..1] == [t];
      UrlCarried(se1, k, a);
      var (se', r) := Concluded(se1, k, a);
      CarriedCons(with, k, a, t, se1, UrlPlan(t, Username(k.ns), a), se', r);
      SameStart(se, with, k, a, plan, se', r);
    } else {
      Blame(with, k, a, plan, 0, with);
      SameStart(se, with, k, a, plan, PushError(se1, k, a, StatusWriteFailed), RETRY);
    }
  }

  lemma SameStart(se: Session, with: Session, k: Key, a: Answers, plan: Plan, se': Session, r: Result)
    requires se.Valid(k) && with.Valid(k) && se.trace == with.trace && se.attempts == with.attempts
    requires Carried(with, k, a, plan, se', r)
    ensures Carried(se, k, a, plan, se', r)
  {
    if n: nat :| n < |plan.pushes| && LostAt(with, k, a, plan, se', r, n) {
      assert LostAt(se, k, a, plan, se', r, n);
    }
  }
}
