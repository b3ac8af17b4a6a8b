/** The APIManagementTenant controller (internal/controller/tenant).

    One reconcile works on an in-memory copy of the tenant and pushes it to the API server several
    times; each push may be lost, and a later push carries every earlier in-memory change with it.
    The model therefore keeps the whole history of persisted stores, not only the final one. */
module Tenants {
  import opened Text

  datatype Provisioning = Unset | WontProvision | UserAnnotated | AccountRequested | AccountReady

  datatype Problem =
    | NoProblem
    | NotUserNamespace | NoSuchUser | AlreadyHasTenant
    | UserLookupFailed | ListFailed | AnnotationFailed | StatusWriteFailed
    | RoutesUnavailable | NoRoutes | WaitingForRoute | WaitingForSso

  datatype Status = Status(provisioning: Provisioning, lastError: Problem, tenantUrl: string)

  datatype Key = Key(ns: string, name: string)

  type Store = map<Key, Status>

  const DEV := "-dev"
  const STAGE := "-stage"
  const FRESH := Status(Unset, NoProblem, "")

  datatype UserAnswer = Found(ssoReady: string) | Missing | Unavailable

  /** What the API server answers during one reconcile. `writes[n]` tells whether the n-th status
      update is persisted; updates past the end of `writes` are lost. */
  datatype Answers = Answers(
    getOk: bool,
    userAtVerify: UserAnswer, listDevOk: bool, listStageOk: bool,
    userAtAnnotate: UserAnswer, annotateOk: bool,
    routesOk: bool, routes: seq<string>, userAtUrl: UserAnswer,
    writes: seq<bool>)

  datatype Verdict = Verified | Rejected(why: Problem) | VerifyFailed(why: Problem)

  /** The controller-runtime result: whether a requeue is asked for, whether an error is returned. */
  datatype Result = Result(requeue: bool, failed: bool)

  predicate Active(p: Provisioning) {
    p == UserAnnotated || p == AccountRequested || p == AccountReady
  }

  function Username(ns: string): string {
    TrimSuffix(TrimSuffix(ns, DEV), STAGE)
  }

  // ---------------------------------------------------------------- what one reconcile does

  predicate HasActive(s: Store, ns: string) {
    exists k | k in s :: k.ns == ns && Active(s[k].provisioning)
  }

  function Verify(s: Store, k: Key, a: Answers): Verdict
    requires k in s
  {
    if Active(s[k].provisioning) then Verified
    else if !HasSuffix(k.ns, DEV) && !HasSuffix(k.ns, STAGE) then Rejected(NotUserNamespace)
    else match a.userAtVerify
      case Missing => Rejected(NoSuchUser)
      case Unavailable => VerifyFailed(UserLookupFailed)
      case Found(_) =>
        var user := Username(k.ns);
        if !a.listDevOk then VerifyFailed(ListFailed)
        else if HasActive(s, user + DEV) then Rejected(AlreadyHasTenant)
        else if !a.listStageOk then VerifyFailed(ListFailed)
        else if HasActive(s, user + STAGE) then Rejected(AlreadyHasTenant)
        else Verified
  }

  /** A reconcile under way: every store persisted so far (the last one is current), the users
      annotated so far, the in-memory tenant and the number of status updates attempted. */
  datatype Session = Session(trace: seq<Store>, annotated: set<string>, tenant: Status, attempts: nat)
  {
    ghost predicate Valid(k: Key) { trace != [] && k in Now() }
    function Now(): Store requires trace != [] { trace[|trace| - 1] }
  }

  predicate Persists(a: Answers, n: nat) { n < |a.writes| && a.writes[n] }

  /** Set the in-memory tenant and push it; the push is persisted or lost. */
  ghost function Push(se: Session, k: Key, a: Answers, t: Status): (r: Session)
    requires se.Valid(k)
    ensures r.Valid(k) && se.trace <= r.trace && r.annotated == se.annotated
  {
    Session(
      if Persists(a, se.attempts) then se.trace + [se.Now()[k := t]] else se.trace,
      se.annotated, t, se.attempts + 1)
  }

  ghost function PushError(se: Session, k: Key, a: Answers, p: Problem): (r: Session)
    requires se.Valid(k)
    ensures r.Valid(k) && se.trace <= r.trace && r.annotated == se.annotated
  {
    Push(se, k, a, se.tenant.(lastError := p))
  }

  ghost function PushProvisioning(se: Session, k: Key, a: Answers, p: Provisioning): (r: Session)
    requires se.Valid(k)
    ensures r.Valid(k) && se.trace <= r.trace && r.annotated == se.annotated
  {
    Push(se, k, a, se.tenant.(provisioning := p))
  }

  /** Only a tenant whose status is still unset gets its user annotated. `NoProblem` is success. */
  ghost function Annotate(se: Session, k: Key, a: Answers): (r: (Session, Problem))
    requires se.Valid(k)
    ensures r.0.Valid(k) && se.trace <= r.0.trace
  {
    if se.tenant.provisioning != Unset then (se, NoProblem)
    else if !a.userAtAnnotate.Found? then (se, UserLookupFailed)
    else if !a.annotateOk then (se, AnnotationFailed)
    else
      var se1 := se.(annotated := se.annotated + {Username(k.ns)});
      var se2 := PushProvisioning(se1, k, a, UserAnnotated);
      (se2, if Persists(a, se1.attempts) then NoProblem else StatusWriteFailed)
  }

  /** The first route host that mentions the user. */
  function MatchingHosts(hosts: seq<string>, user: string): seq<string> {
    if hosts == [] then []
    else (if Contains(hosts[0], user) then [hosts[0]] else []) + MatchingHosts(hosts[1..], user)
  }

  datatype UrlStep = UrlStep(session: Session, done: bool, problem: Problem)

  ghost function Wait(se: Session, k: Key, a: Answers, p: Problem): (r: UrlStep)
    requires se.Valid(k)
    ensures r.session.Valid(k) && se.trace <= r.session.trace && r.session.annotated == se.annotated
  {
    var se1 := PushProvisioning(se, k, a, AccountRequested);
    if !Persists(a, se.attempts) then UrlStep(se1, false, StatusWriteFailed)
    else
      var se2 := PushError(se1, k, a, p);
      UrlStep(se2, false, if Persists(a, se1.attempts) then NoProblem else StatusWriteFailed)
  }

  ghost function Finish(se: Session, k: Key, a: Answers, url: string): (r: UrlStep)
    requires se.Valid(k)
    ensures r.session.Valid(k) && se.trace <= r.session.trace && r.session.annotated == se.annotated
  {
    var se1 := Push(se, k, a, se.tenant.(tenantUrl := url));
    if !Persists(a, se.attempts) then UrlStep(se1, false, StatusWriteFailed)
    else
      var se2 := PushProvisioning(se1, k, a, AccountReady);
      if Persists(a, se1.attempts) then UrlStep(se2, true, NoProblem)
      else UrlStep(se2, false, StatusWriteFailed)
  }

  ghost function ReconcileUrl(se: Session, k: Key, a: Answers): (r: UrlStep)
    requires se.Valid(k)
    ensures r.session.Valid(k) && se.trace <= r.session.trace && r.session.annotated == se.annotated
  {
    if se.tenant.provisioning == AccountReady then UrlStep(se, true, NoProblem)
    else if !a.routesOk then UrlStep(se, false, RoutesUnavailable)
    else if a.routes == [] then UrlStep(se, false, NoRoutes)
    else if !a.userAtUrl.Found? then UrlStep(se, false, UserLookupFailed)
    else
      var hosts := MatchingHosts(a.routes, Username(k.ns));
      if hosts == [] then Wait(se, k, a, WaitingForRoute)
      else if a.userAtUrl.ssoReady != "yes" then Wait(se, k, a, WaitingForSso)
      else Finish(se, k, a, hosts[0])
  }

  ghost function Refuse(se: Session, k: Key, a: Answers, why: Problem): (r: (Session, Result))
    requires se.Valid(k)
    ensures r.0.Valid(k) && se.trace <= r.0.trace && r.0.annotated == se.annotated
  {
    var se1 := PushProvisioning(se, k, a, WontProvision);
    if !Persists(a, se.attempts) then (se1, Result(false, true))
    else (PushError(se1, k, a, why), Result(false, !Persists(a, se1.attempts)))
  }

  ghost function Provision(se: Session, k: Key, a: Answers): (r: (Session, Result))
    requires se.Valid(k)
    ensures r.0.Valid(k) && se.trace <= r.0.trace
  {
    var (se1, p1) := Annotate(se, k, a);
    if p1 != NoProblem then (PushError(se1, k, a, p1), Result(true, true)) else Concluded(se1, k, a)
  }

  ghost function Concluded(se: Session, k: Key, a: Answers): (r: (Session, Result))
    requires se.Valid(k)
    ensures r.0.Valid(k) && se.trace <= r.0.trace && r.0.annotated == se.annotated
  {
    var UrlStep(se1, done, problem) := ReconcileUrl(se, k, a);
    if problem != NoProblem then (PushError(se1, k, a, problem), Result(true, true))
    else if !done then (se1, Result(true, false))
    else (PushError(se1, k, a, NoProblem), Result(false, !Persists(a, se1.attempts)))
  }

  ghost function Dispatch(se: Session, k: Key, a: Answers, v: Verdict): (r: (Session, Result))
    requires se.Valid(k)
    ensures r.0.Valid(k) && se.trace <= r.0.trace
  {
    match v
    case VerifyFailed(why) => (PushError(se, k, a, why), Result(false, true))
    case Rejected(why) => Refuse(se, k, a, why)
    case Verified => Provision(se, k, a)
  }

  ghost function Reconciled(s: Store, annotated: set<string>, k: Key, a: Answers): (r: (Session, Result))
    ensures [s] <= r.0.trace
  {
    if k !in s || !a.getOk then (Session([s], annotated, FRESH, 0), Result(false, true))
    else
      Dispatch(Session([s], annotated, s[k], 0), k, a, Verify(s, k, a))
  }

  // ---------------------------------------------------------------- the controller itself

  class TenantReconciler {
    var store: Store
    var annotated: set<string>
    var tenant: Status
    var attempts: nat
    ghost var history: seq<Store>

    ghost predicate Valid(k: Key)
      reads this
    {
      history != [] && store == history[|history| - 1] && k in store
    }

    ghost function View(): Session
      reads this
    {
      Session(history, annotated, tenant, attempts)
    }

    constructor (s: Store, users: set<string>)
      ensures store == s && annotated == users && history == [s]
    {
      store, annotated, tenant, attempts := s, users, FRESH, 0;
      history := [s];
    }

    /** `Status().Update`. */
    method StatusUpdate(k: Key, a: Answers) returns (ok: bool)
      requires Valid(k)
      modifies this
      ensures Valid(k) && View() == Push(old(View()), k, a, old(tenant)) && ok == Persists(a, old(attempts))
    {
      ok := attempts < |a.writes| && a.writes[attempts];
      if ok {
        store := store[k := tenant];
        history := history + [store];
      }
      attempts := attempts + 1;
    }

    method UpdateLastError(k: Key, a: Answers, p: Problem) returns (ok: bool)
      requires Valid(k)
      modifies this
      ensures Valid(k) && View() == PushError(old(View()), k, a, p) && ok == Persists(a, old(attempts))
    {
      tenant := tenant.(lastError := p);
      ok := StatusUpdate(k, a);
    }

    method UpdateProvisioningStatus(k: Key, a: Answers, p: Provisioning) returns (ok: bool)
      requires Valid(k)
      modifies this
      ensures Valid(k) && View() == PushProvisioning(old(View()), k, a, p) && ok == Persists(a, old(attempts))
    {
      tenant := tenant.(provisioning := p);
      ok := StatusUpdate(k, a);
    }

    method UpdateTenantUrl(k: Key, a: Answers, url: string) returns (ok: bool)
      requires Valid(k)
      modifies this
      ensures Valid(k) && View() == Push(old(View()), k, a, old(tenant).(tenantUrl := url))
      ensures ok == Persists(a, old(attempts))
    {
      tenant := tenant.(tenantUrl := url);
      ok := StatusUpdate(k, a);
    }

    /** The items of one namespace come back in no particular order. */
    method AnyActiveIn(ns: string) returns (found: bool)
      ensures found == HasActive(store, ns)
    {
      var items := set k | k in store && k.ns == ns;
      found := false;
      while items != {}
        invariant !found
        invariant forall k | k in store && k.ns == ns :: k in items || !Active(store[k].provisioning)
        invariant forall k | k in items :: k in store && k.ns == ns
        decreases items
      {
        var k :| k in items;
        if Active(store[k].provisioning) {
          return true;
        }
        items := items - {k};
      }
    }

    method VerifyTenant(k: Key, a: Answers) returns (v: Verdict)
      requires Valid(k) && tenant == store[k]
      ensures v == Verify(store, k, a)
    {
      if Active(tenant.provisioning) {
        return Verified;
      }
      if !HasSuffix(k.ns, DEV) && !HasSuffix(k.ns, STAGE) {
        return Rejected(NotUserNamespace);
      }
      match a.userAtVerify {
        case Missing => return Rejected(NoSuchUser);
        case Unavailable => return VerifyFailed(UserLookupFailed);
        case Found(_) =>
      }
      var user := Username(k.ns);
      var namespaces, listOk := [user + DEV, user + STAGE], [a.listDevOk, a.listStageOk];
      for i := 0 to 2
        invariant i > 0 ==> a.listDevOk && !HasActive(store, user + DEV)
        invariant i > 1 ==> a.listStageOk && !HasActive(store, user + STAGE)
      {
        if !listOk[i] {
          return VerifyFailed(ListFailed);
        }
        var found := AnyActiveIn(namespaces[i]);
        if found {
          return Rejected(AlreadyHasTenant);
        }
      }
      v := Verified;
    }

    method AddAnnotationToUser(k: Key, a: Answers) returns (p: Problem)
      requires Valid(k)
      modifies this
      ensures Valid(k) && (View(), p) == Annotate(old(View()), k, a)
    {
      p := NoProblem;
      if tenant.provisioning == Unset {
        if !a.userAtAnnotate.Found? {
          return UserLookupFailed;
        }
        if !a.annotateOk {
          return AnnotationFailed;
        }
        annotated := annotated + {Username(k.ns)};
        var ok := UpdateProvisioningStatus(k, a, UserAnnotated);
        if !ok {
          p := StatusWriteFailed;
        }
      }
    }

    method FindRoute(hosts: seq<string>, user: string) returns (i: nat)
      ensures i <= |hosts|
      ensures i == |hosts| ==> MatchingHosts(hosts, user) == []
      ensures i < |hosts| ==> MatchingHosts(hosts, user) != [] && MatchingHosts(hosts, user)[0] == hosts[i]
    {
      i := 0;
      while i < |hosts|
        invariant i <= |hosts|
        invariant MatchingHosts(hosts, user) == MatchingHosts(hosts[i..], user)
      {
        if Contains(hosts[i], user) {
          return;
        }
        assert hosts[i..][1..] == hosts[i + 1..];
        i := i + 1;
      }
    }

    method WaitFor(k: Key, a: Answers, p: Problem) returns (problem: Problem)
      requires Valid(k)
      modifies this
      ensures Valid(k) && UrlStep(View(), false, problem) == Wait(old(View()), k, a, p)
    {
      var ok := UpdateProvisioningStatus(k, a, AccountRequested);
      if !ok {
        return StatusWriteFailed;
      }
      ok := UpdateLastError(k, a, p);
      problem := if ok then NoProblem else StatusWriteFailed;
    }

    method ReconcileTenantUrl(k: Key, a: Answers) returns (done: bool, problem: Problem)
      requires Valid(k)
      modifies this
      ensures Valid(k) && UrlStep(View(), done, problem) == ReconcileUrl(old(View()), k, a)
    {
      if tenant.provisioning == AccountReady {
        return true, NoProblem;
      }
      done := false;
      if !a.routesOk {
        return false, RoutesUnavailable;
      }
      if a.routes == [] {
        return false, NoRoutes;
      }
      if !a.userAtUrl.Found? {
        return false, UserLookupFailed;
      }
      var i := FindRoute(a.routes, Username(k.ns));
      if i == |a.routes| {
        problem := WaitFor(k, a, WaitingForRoute);
        return;
      }
      if a.userAtUrl.ssoReady != "yes" {
        problem := WaitFor(k, a, WaitingForSso);
        return;
      }
      var ok := UpdateTenantUrl(k, a, a.routes[i]);
      if !ok {
        return false, StatusWriteFailed;
      }
      ok := UpdateProvisioningStatus(k, a, AccountReady);
      if !ok {
        return false, StatusWriteFailed;
      }
      return true, NoProblem;
    }

    /** The branch of `Reconcile` for a tenant that failed verification. */
    method RefuseTenant(k: Key, a: Answers, why: Problem) returns (r: Result)
      requires Valid(k)
      modifies this
      ensures Valid(k) && (View(), r) == Refuse(old(View()), k, a, why)
    {
      var ok := UpdateProvisioningStatus(k, a, WontProvision);
      if !ok {
        return Result(false, true);
      }
      ok := UpdateLastError(k, a, why);
      r := Result(false, !ok);
    }

    /** The tail of `Reconcile`, for a verified tenant. */
    method ProvisionTenant(k: Key, a: Answers) returns (r: Result)
      requires Valid(k)
      modifies this
      ensures Valid(k) && (View(), r) == Provision(old(View()), k, a)
    {
      var ok: bool;
      var problem := AddAnnotationToUser(k, a);
      if problem != NoProblem {
        ok := UpdateLastError(k, a, problem);
        return Result(true, true);
      }
      var done: bool;
      done, problem := ReconcileTenantUrl(k, a);
      if problem == NoProblem && !done {
        return Result(true, false);
      }
      if problem != NoProblem {
        ok := UpdateLastError(k, a, problem);
        return Result(true, true);
      }
      ok := UpdateLastError(k, a, NoProblem);
      r := Result(false, !ok);
    }

    /** The branches of `Reconcile` on the outcome of the verification. */
    method DispatchTenant(k: Key, a: Answers, v: Verdict) returns (r: Result)
      requires Valid(k)
      modifies this
      ensures Valid(k) && (View(), r) == Dispatch(old(View()), k, a, v)
    {
      match v {
        case VerifyFailed(why) =>
          var ok := UpdateLastError(k, a, why);
          r := Result(false, true);
        case Rejected(why) =>
          r := RefuseTenant(k, a, why);
        case Verified =>
          r := ProvisionTenant(k, a);
      }
    }

    method Reconcile(k: Key, a: Answers) returns (r: Result)
      modifies this
      ensures (View(), r) == Reconciled(old(store), old(annotated), k, a)
      ensures store == View().Now()
    {
      tenant, attempts, history := FRESH, 0, [store];
      if k !in store || !a.getOk {
        return Result(false, true);
      }
      tenant := store[k];
      ghost var se := Session([store], annotated, tenant, 0);
      assert View() == se && se.Valid(k);
      var v := VerifyTenant(k, a);
      r := DispatchTenant(k, a, v);
    }
  }
}
