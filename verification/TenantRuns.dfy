/** What holds of every run of the tenant controller, over every store it ever persists. */
module TenantRuns {
  import opened Text
  import opened Tenants

  /** `annotated` lists the users the controller has annotated; the last store of `trace` is current. */
  datatype Run = Run(trace: seq<Store>, annotated: set<string>)

  datatype Event =
    | Create(key: Key)
    | Delete(key: Key)
    | Reconcile(key: Key, answers: Answers)

  ghost function Now(r: Run): Store
    requires r.trace != []
  {
    r.trace[|r.trace| - 1]
  }

  /** A tenant is created without a status: the status subresource ignores anything else. */
  ghost function After(r: Run, e: Event): (r': Run)
    requires r.trace != []
    ensures r'.trace != []
  {
    match e
    case Create(k) =>
      if k in Now(r) then r else r.(trace := r.trace + [Now(r)[k := FRESH]])
    case Delete(k) => r.(trace := r.trace + [Now(r) - {k}])
    case Reconcile(k, a) =>
      Absorb(r, Reconciled(Now(r), r.annotated, k, a).0)
  }

  /** What a session persisted, appended to the run it started from. */
  ghost function Absorb(r: Run, se: Session): Run
    requires r.trace != [] && se.trace != []
  {
    Run(r.trace + se.trace[1..], se.annotated)
  }

  ghost function RunOf(events: seq<Event>): (r: Run)
    ensures r.trace != []
  {
    if events == [] then Run([map[]], {})
    else After(RunOf(events[..|events| - 1]), events[|events| - 1])
  }

  // ---------------------------------------------------------------- the properties

  predicate OwnedNamespace(u: string, ns: string) { ns == u + DEV || ns == u + STAGE }

  ghost predicate AtMostOneActive(s: Store, u: string) {
    forall k, l | k in s && l in s && OwnedNamespace(u, k.ns) && OwnedNamespace(u, l.ns)
                  && Active(s[k].provisioning) && Active(s[l].provisioning) :: k == l
  }

  function Rank(p: Provisioning): nat {
    match p
    case Unset => 0
    case WontProvision => 1
    case UserAnnotated => 2
    case AccountRequested => 3
    case AccountReady => 4
  }

  /** The active statuses are those above a refusal. */
  lemma ActiveIffRanked(p: Provisioning)
    ensures Active(p) <==> Rank(p) > Rank(WontProvision)
  {
  }

  /** The only ways a persisted status may change: an active tenant only climbs, a status once set
      is never unset, and a ready tenant keeps its URL. */
  predicate Climbs(a: Status, b: Status) {
    && (Active(a.provisioning) ==> Rank(a.provisioning) <= Rank(b.provisioning))
    && (b.provisioning == Unset ==> a.provisioning == Unset)
    && (a.provisioning == AccountReady ==> b.provisioning == AccountReady && b.tenantUrl == a.tenantUrl)
  }

  /** A ready tenant has the URL of a route that mentions its user. */
  predicate UrlKnown(ns: string, st: Status) {
    st.provisioning == AccountReady ==> Contains(st.tenantUrl, Username(ns))
  }

  ghost predicate StoreOk(s: Store) {
    && (forall u | !HasSuffix(u, STAGE) :: AtMostOneActive(s, u))
    && (forall k | k in s :: UrlKnown(k.ns, s[k]))
  }

  ghost predicate StoreClimbs(s: Store, s': Store) {
    && (forall k | k in s && k in s' :: Climbs(s[k], s'[k]))
    && (forall k | k in s' && k !in s :: s'[k] == FRESH)
  }

  ghost predicate Safe(trace: seq<Store>) {
    && (forall i | 0 <= i < |trace| :: StoreOk(trace[i]))
    && (forall i, j | 0 <= i && j == i + 1 && j < |trace| :: StoreClimbs(trace[i], trace[j]))
  }

  // ---------------------------------------------------------------- namespaces and users

  /** Both namespaces of a user trim back to the user, unless the name itself ends in "-stage". */
  lemma NamespaceNamesUser(u: string, ns: string)
    requires OwnedNamespace(u, ns) && !HasSuffix(u, STAGE)
    ensures Username(ns) == u
  {
    if ns == u + DEV {
      SuffixOfConcat(u, DEV);
    } else {
      SuffixOfConcat(u, STAGE);
      assert ns[|ns| - 1] != DEV[3];
    }
  }

  /** No two users share a namespace. */
  lemma NamespacesDisjoint(u: string, v: string, ns: string)
    requires OwnedNamespace(u, ns) && OwnedNamespace(v, ns)
    ensures u == v
  {
    assert (u + DEV)[|u + DEV| - 1] == (v + DEV)[|v + DEV| - 1] == 'v';
    assert (u + STAGE)[|u + STAGE| - 1] == (v + STAGE)[|v + STAGE| - 1] == 'e';
    if ns == u + DEV {
      SuffixCancels(u, v, DEV);
    } else {
      SuffixCancels(u, v, STAGE);
    }
  }

  // ---------------------------------------------------------------- one reconcile is safe

  /** The in-memory tenant may be pushed at any time: it is a legal successor of what is stored, and
      if it is active then no other tenant of the same user is. */
  ghost predicate Pushable(s0: Store, k: Key, se: Session) {
    && se.Valid(k)
    && Safe(se.trace)
    && se.trace[0] == s0
    && (forall l | l in s0 && l != k :: l in se.Now() && se.Now()[l] == s0[l])
    && se.Now().Keys == s0.Keys
    && Climbs(se.Now()[k], se.tenant)
    && UrlKnown(k.ns, se.tenant)
    && (Active(se.tenant.provisioning) ==> Exclusive(s0, k))
  }

  ghost predicate Exclusive(s0: Store, k: Key)
  {
    forall u, l | !HasSuffix(u, STAGE) && l in s0 && l != k && OwnedNamespace(u, k.ns) && OwnedNamespace(u, l.ns)
      :: !Active(s0[l].provisioning)
  }

  lemma PushedStoreOk(s0: Store, k: Key, s: Store, t: Status)
    requires StoreOk(s) && k in s && UrlKnown(k.ns, t)
    requires forall l | l in s && l != k :: l in s0 && s[l] == s0[l]
    requires Active(t.provisioning) ==> Exclusive(s0, k)
    ensures StoreOk(s[k := t])
  {
    forall u | !HasSuffix(u, STAGE) ensures AtMostOneActive(s[k := t], u) {
      assert AtMostOneActive(s, u);
    }
  }

  lemma SafeSnoc(trace: seq<Store>, s: Store)
    requires trace != [] && Safe(trace) && StoreOk(s) && StoreClimbs(trace[|trace| - 1], s)
    ensures Safe(trace + [s])
  {
  }

  lemma UpdateClimbs(s: Store, k: Key, via: Status, t: Status)
    requires k in s && Climbs(s[k], via) && Climbs(via, t)
    ensures StoreClimbs(s, s[k := t])
  {
  }

  lemma PersistSafe(s0: Store, k: Key, se: Session, t: Status)
    requires Pushable(s0, k, se)
    requires Climbs(se.tenant, t) && UrlKnown(k.ns, t)
    requires Active(t.provisioning) ==> Exclusive(s0, k)
    ensures Safe(se.trace + [se.Now()[k := t]])
  {
    PushedStoreOk(s0, k, se.Now(), t);
    UpdateClimbs(se.Now(), k, se.tenant, t);
    SafeSnoc(se.trace, se.Now()[k := t]);
  }

  lemma PushSafe(s0: Store, k: Key, se: Session, a: Answers, t: Status)
    requires Pushable(s0, k, se)
    requires Climbs(se.tenant, t) && UrlKnown(k.ns, t)
    requires Active(t.provisioning) ==> Exclusive(s0, k)
    ensures Pushable(s0, k, Push(se, k, a, t))
  {
    if Persists(a, se.attempts) {
      PersistSafe(s0, k, se, t);
      var se1 := Push(se, k, a, t);
      assert se1.Now() == se.Now()[k := t] && se1.trace[0] == se.trace[0];
    }
  }

  lemma AnnotateSafe(s0: Store, k: Key, se: Session, a: Answers)
    requires Pushable(s0, k, se) && Exclusive(s0, k)
    ensures Pushable(s0, k, Annotate(se, k, a).0)
  {
    var se1 := se.(annotated := se.annotated + {Username(k.ns)});
    if se.tenant.provisioning == Unset && a.userAtAnnotate.Found? && a.annotateOk {
      PushSafe(s0, k, se1, a, se1.tenant.(provisioning := UserAnnotated));
    }
  }

  lemma MatchingHostsMatch(hosts: seq<string>, user: string)
    ensures forall h | h in MatchingHosts(hosts, user) :: h in hosts && Contains(h, user)
  {
  }

  lemma WaitSafe(s0: Store, k: Key, se: Session, a: Answers, p: Problem)
    requires Pushable(s0, k, se) && Exclusive(s0, k) && se.tenant.provisioning != AccountReady
    ensures Pushable(s0, k, Wait(se, k, a, p).session)
  {
    PushSafe(s0, k, se, a, se.tenant.(provisioning := AccountRequested));
    var se1 := PushProvisioning(se, k, a, AccountRequested);
    PushSafe(s0, k, se1, a, se1.tenant.(lastError := p));
  }

  lemma FinishSafe(s0: Store, k: Key, se: Session, a: Answers, url: string)
    requires Pushable(s0, k, se) && Exclusive(s0, k) && se.tenant.provisioning != AccountReady
    requires Contains(url, Username(k.ns))
    ensures Pushable(s0, k, Finish(se, k, a, url).session)
  {
    var t := se.tenant.(tenantUrl := url);
    PushSafe(s0, k, se, a, t);
    PushSafe(s0, k, Push(se, k, a, t), a, t.(provisioning := AccountReady));
  }

  lemma UrlSafe(s0: Store, k: Key, se: Session, a: Answers)
    requires Pushable(s0, k, se) && Exclusive(s0, k)
    ensures Pushable(s0, k, ReconcileUrl(se, k, a).session)
  {
    if se.tenant.provisioning != AccountReady && a.routesOk && a.routes != [] && a.userAtUrl.Found? {
      var hosts := MatchingHosts(a.routes, Username(k.ns));
      if hosts == [] {
        WaitSafe(s0, k, se, a, WaitingForRoute);
      } else if a.userAtUrl.ssoReady != "yes" {
        WaitSafe(s0, k, se, a, WaitingForSso);
      } else {
        MatchingHostsMatch(a.routes, Username(k.ns));
        assert hosts[0] in hosts;
        FinishSafe(s0, k, se, a, hosts[0]);
      }
    }
  }

  /** A verified tenant that is not active yet has no active sibling. */
  lemma VerifiedIsExclusive(s: Store, k: Key, a: Answers)
    requires StoreOk(s) && k in s && Verify(s, k, a) == Verified
    ensures Exclusive(s, k)
  {
    forall u, l | !HasSuffix(u, STAGE) && l in s && l != k && OwnedNamespace(u, k.ns) && OwnedNamespace(u, l.ns)
      ensures !Active(s[l].provisioning)
    {
      NamespaceNamesUser(u, k.ns);
      assert AtMostOneActive(s, u);
    }
  }

  lemma RefuseSafe(s: Store, k: Key, se: Session, a: Answers, why: Problem)
    requires Pushable(s, k, se) && !Active(se.tenant.provisioning)
    ensures Safe(Refuse(se, k, a, why).0.trace)
  {
    var t := se.tenant.(provisioning := WontProvision);
    PushSafe(s, k, se, a, t);
    PushSafe(s, k, Push(se, k, a, t), a, t.(lastError := why));
  }

  lemma PushErrorSafe(s: Store, k: Key, se: Session, a: Answers, p: Problem)
    requires Pushable(s, k, se)
    ensures Safe(PushError(se, k, a, p).trace)
  {
    PushSafe(s, k, se, a, se.tenant.(lastError := p));
  }

  lemma ProvisionSafe(s: Store, k: Key, se: Session, a: Answers)
    requires Pushable(s, k, se) && Exclusive(s, k)
    ensures Safe(Provision(se, k, a).0.trace)
  {
    AnnotateSafe(s, k, se, a);
    var r1 := Annotate(se, k, a);
    if r1.1 != NoProblem {
      PushErrorSafe(s, k, r1.0, a, r1.1);
    } else {
      UrlSafe(s, k, r1.0, a);
      var r2 := ReconcileUrl(r1.0, k, a);
      PushErrorSafe(s, k, r2.session, a, r2.problem);
    }
  }

  lemma ReconciledSafe(s: Store, annotated: set<string>, k: Key, a: Answers)
    requires StoreOk(s)
    ensures Safe(Reconciled(s, annotated, k, a).0.trace)
  {
    if k in s && a.getOk {
      var se := Session([s], annotated, s[k], 0);
      match Verify(s, k, a) {
        case VerifyFailed(why) =>
          PushSafe(s, k, se, a, se.tenant.(lastError := why));
        case Rejected(why) =>
          assert Pushable(s, k, se);
          RefuseSafe(s, k, se, a, why);
        case Verified =>
          VerifiedIsExclusive(s, k, a);
          assert Pushable(s, k, se);
          ProvisionSafe(s, k, se, a);
      }
    }
  }

  // ---------------------------------------------------------------- every run is safe

  lemma SafeAppend(t: seq<Store>, u: seq<Store>)
    requires Safe(t) && Safe(u) && t != [] && u != [] && t[|t| - 1] == u[0]
    ensures Safe(t + u[1..])
  {
    var r := t + u[1..];
    forall i, j | 0 <= i && j == i + 1 && j < |r| ensures StoreClimbs(r[i], r[j]) {
      if j >= |t| {
        assert r[i] == u[i - |t| + 1] && r[j] == u[j - |t| + 1];
      }
    }
  }

  lemma AfterSafe(r: Run, e: Event)
    requires r.trace != [] && Safe(r.trace)
    ensures Safe(After(r, e).trace)
  {
    var s := Now(r);
    match e {
      case Create(k) =>
        if k !in s {
          forall u | !HasSuffix(u, STAGE) ensures AtMostOneActive(s[k := FRESH], u) {
            assert AtMostOneActive(s, u);
          }
          SafeAppend(r.trace, [s, s[k := FRESH]]);
          assert [s, s[k := FRESH]][1..] == [s[k := FRESH]];
        }
      case Delete(k) =>
        forall u | !HasSuffix(u, STAGE) ensures AtMostOneActive(s - {k}, u) {
          assert AtMostOneActive(s, u);
        }
        SafeAppend(r.trace, [s, s - {k}]);
        assert [s, s - {k}][1..] == [s - {k}];
      case Reconcile(k, a) =>
        ReconciledSafe(s, r.annotated, k, a);
        SafeAppend(r.trace, Reconciled(s, r.annotated, k, a).0.trace);
    }
  }

  /** Every store that any run persists is sound, and every change between two of them is legal. */
  lemma {:induction false} EveryRunSafe(events: seq<Event>)
    ensures Safe(RunOf(events).trace)
  {
    if events != [] {
      EveryRunSafe(events[..|events| - 1]);
      AfterSafe(RunOf(events[..|events| - 1]), events[|events| - 1]);
    }
  }

  /** Over any stretch in which a tenant exists, its status as a whole only climbs: ready is
      absorbing and its URL frozen. */
  lemma {:induction false} StatusClimbsOverRun(events: seq<Event>, k: Key, i: nat, j: nat)
    requires i <= j < |RunOf(events).trace|
    requires forall m | i <= m <= j :: k in RunOf(events).trace[m]
    ensures Climbs(RunOf(events).trace[i][k], RunOf(events).trace[j][k])
    decreases j
  {
    if i < j {
      EveryRunSafe(events);
      var trace := RunOf(events).trace;
      StatusClimbsOverRun(events, k, i, j - 1);
      assert StoreClimbs(trace[j - 1], trace[j]);
    }
  }

  // ---------------------------------------------------------------- users whose name ends in "-stage"

  ghost predicate AlwaysAtMostOne(u: string) {
    forall events: seq<Event>, i | 0 <= i < |RunOf(events).trace| :: AtMostOneActive(RunOf(events).trace[i], u)
  }

  /** Every call is answered except the listing of routes; the first status update is persisted. */
  const NO_ROUTES_YET := Answers(true, Found(""), true, true, Found(""), true, false, [], Found(""), [true])

  ghost predicate Foreign(s: Store, x: string) {
    forall k | k in s :: k.ns == x + STAGE + DEV
  }

  ghost predicate OnlyActivated(s: Store, s': Store, k: Key) {
    && s'.Keys == s.Keys
    && k in s' && Active(s'[k].provisioning)
    && (forall l | l in s && l != k :: s'[l] == s[l])
  }

  lemma FreshAnnotated(se: Session, k: Key)
    requires se.Valid(k) && se.tenant == FRESH && se.attempts == 0
    ensures Provision(se, k, NO_ROUTES_YET).0.Now() == se.Now()[k := FRESH.(provisioning := UserAnnotated)]
  {
  }

  /** A fresh tenant in `x-stage-dev` is activated on behalf of user `x`, whose own two namespaces
      are the only ones looked at. */
  lemma ActivatedBesideItsSibling(s: Store, annotated: set<string>, x: string, k: Key)
    requires k in s && s[k] == FRESH && Foreign(s, x)
    ensures OnlyActivated(s, Reconciled(s, annotated, k, NO_ROUTES_YET).0.Now(), k)
  {
    SuffixOfConcat(x + STAGE, DEV);
    SuffixOfConcat(x, STAGE);
    assert |x + STAGE + DEV| != |x + DEV| && |x + STAGE + DEV| != |x + STAGE|;
    assert Verify(s, k, NO_ROUTES_YET) == Verified;
    FreshAnnotated(Session([s], annotated, s[k], 0), k);
  }

  lemma AbsorbNow(r: Run, se: Session)
    requires r.trace != [] && se.trace != [] && se.trace[0] == Now(r)
    ensures Now(Absorb(r, se)) == se.Now()
  {
    if |se.trace| > 1 {
      assert se.trace[1..][|se.trace| - 2] == se.Now();
    }
  }

  lemma RunSnoc(events: seq<Event>, e: Event)
    ensures RunOf(events + [e]) == After(RunOf(events), e)
  {
    assert (events + [e])[..|events|] == events;
  }

  lemma TwoFreshTenants(k: Key, l: Key) returns (events: seq<Event>)
    requires k != l
    ensures Now(RunOf(events)) == map[k := FRESH, l := FRESH]
  {
    events := [] + [Create(k)];
    RunSnoc([], Create(k));
    RunSnoc(events, Create(l));
    events := events + [Create(l)];
  }

  lemma ActivateNext(events: seq<Event>, x: string, k: Key) returns (events': seq<Event>)
    requires k in Now(RunOf(events)) && Now(RunOf(events))[k] == FRESH && Foreign(Now(RunOf(events)), x)
    ensures OnlyActivated(Now(RunOf(events)), Now(RunOf(events')), k)
  {
    events' := events + [Reconcile(k, NO_ROUTES_YET)];
    RunSnoc(events, Reconcile(k, NO_ROUTES_YET));
    var r := RunOf(events);
    ActivatedBesideItsSibling(Now(r), r.annotated, x, k);
    AbsorbNow(r, Reconciled(Now(r), r.annotated, k, NO_ROUTES_YET).0);
  }

  lemma ActivateBoth(x: string, k: Key, l: Key) returns (events: seq<Event>)
    requires k != l && k.ns == l.ns == x + STAGE + DEV
    ensures var s := Now(RunOf(events)); k in s && l in s && Active(s[k].provisioning) && Active(s[l].provisioning)
  {
    events := TwoFreshTenants(k, l);
    events := ActivateNext(events, x, k);
    events := ActivateNext(events, x, l);
  }

  /** Two tenants of user `x-stage`, both active: the controller attributes them to user `x`. */
  lemma TwoActiveTenants(u: string)
    requires HasSuffix(u, STAGE)
    ensures !AlwaysAtMostOne(u)
  {
    var k, l := Key(u + DEV, "a"), Key(u + DEV, "b");
    var events := ActivateBoth(TrimSuffix(u, STAGE), k, l);
    var trace := RunOf(events).trace;
    assert OwnedNamespace(u, k.ns) && OwnedNamespace(u, l.ns);
    assert !AtMostOneActive(trace[|trace| - 1], u);
  }

  /** The one-tenant-per-user guarantee holds exactly for the users whose name does not end in
      "-stage". */
  lemma OneTenantPerUserIff(u: string)
    ensures AlwaysAtMostOne(u) <==> !HasSuffix(u, STAGE)
  {
    if HasSuffix(u, STAGE) {
      TwoActiveTenants(u);
    } else {
      forall events: seq<Event>, i | 0 <= i < |RunOf(events).trace|
        ensures AtMostOneActive(RunOf(events).trace[i], u)
      {
        EveryRunSafe(events);
      }
    }
  }

  // ---------------------------------------------------------------- the user annotation

  /** A reconcile that activates a tenant annotates its user exactly when the status was still
      unset: a tenant that was refused once and is accepted later is activated without it. */
  lemma AnnotatedOnActivationIff(s: Store, annotated: set<string>, k: Key, a: Answers)
    requires k in s && !Active(s[k].provisioning)
    requires var se := Reconciled(s, annotated, k, a).0; k in se.Now() && Active(se.Now()[k].provisioning)
    requires Username(k.ns) !in annotated
    ensures Username(k.ns) in Reconciled(s, annotated, k, a).0.annotated <==> s[k].provisioning == Unset
  {
  }

  // ---------------------------------------------------------------- settling

  /** A reconcile that neither fails nor asks for another one has left the persisted tenant either
      ready and without an error, or refused and with the reason. */
  lemma QuietOnlyWhenSettled(s: Store, annotated: set<string>, k: Key, a: Answers)
    requires Reconciled(s, annotated, k, a).1 == Result(false, false)
    ensures var s' := Reconciled(s, annotated, k, a).0.Now();
      && k in s'
      && (|| (s'[k].provisioning == AccountReady && s'[k].lastError == NoProblem)
          || (s'[k].provisioning == WontProvision && s'[k].lastError != NoProblem))
  {
  }

  ghost predicate Cooperative(k: Key, a: Answers) {
    && a.getOk && a.userAtAnnotate.Found? && a.annotateOk && a.routesOk
    && a.userAtUrl == Found("yes")
    && MatchingHosts(a.routes, Username(k.ns)) != []
    && |a.writes| >= 4 && forall i | 0 <= i < 4 :: a.writes[i]
  }

  lemma CooperativeAnnotate(se: Session, k: Key, a: Answers)
    requires se.Valid(k) && se.attempts == 0 && Cooperative(k, a)
    ensures var (se1, problem) := Annotate(se, k, a); problem == NoProblem && se1.attempts <= 1
  {
  }

  lemma CooperativeUrl(se: Session, k: Key, a: Answers)
    requires se.Valid(k) && se.attempts <= 1 && Cooperative(k, a)
    ensures var r := ReconcileUrl(se, k, a);
      r.done && r.problem == NoProblem && r.session.attempts <= 3 && r.session.tenant.provisioning == AccountReady
  {
    assert a.routes != [];
  }

  /** When every call succeeds, the route exists and SSO is ready, one reconcile makes a verified
      tenant ready, whatever status it had before. */
  lemma OneReconcileMakesReady(s: Store, annotated: set<string>, k: Key, a: Answers)
    requires k in s && Verify(s, k, a) == Verified && Cooperative(k, a)
    ensures var r := Reconciled(s, annotated, k, a);
      r.1 == Result(false, false) && r.0.Now()[k].provisioning == AccountReady
  {
    var se := Session([s], annotated, s[k], 0);
    CooperativeAnnotate(se, k, a);
    CooperativeUrl(Annotate(se, k, a).0, k, a);
  }
}
