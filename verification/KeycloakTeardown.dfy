/** `CleanupKeycloakResources` of pkg/products/rhssocommon: users and clients go first, realms last.
    Deletion is asynchronous: the Keycloak operator removes objects at any moment between two calls
    of the cleanup, so everything read from the API server may shrink under its feet. */
module KeycloakTeardown {
  import opened Phases

  /** A realm: whether its deletion was requested, and whether finalizers hold it back. */
  datatype Realm = Realm(deleting: bool, finalizers: bool)

  /** What disappears before the n-th call, and whether that call is answered. */
  datatype Vanishing = Vanishing(users: set<string>, clients: set<string>, realms: set<string>)

  datatype World = World(
    deletionRequested: bool, crdOk: bool, crdExists: bool, vanish: nat -> Vanishing, ok: nat -> bool)

  /** A realm was deleted or stripped of its finalizers, with these users and clients still there. */
  datatype Event = RealmTouched(realm: string, users: set<string>, clients: set<string>)

  const DONE := Outcome(Completed, false)
  const FAILED := Outcome(Failed, true)
  const BUSY := Outcome(InProgress, false)

  class Namespace {
    var users: set<string>
    var clients: set<string>
    var realms: map<string, Realm>
    var markedUsers: set<string>     // deletion was requested for these
    var markedClients: set<string>
    var calls: nat
    ghost var log: seq<Event>

    /** No realm was ever touched while a user or a client existed. */
    ghost predicate Valid()
      reads this`log
    {
      forall e | e in log :: e.users == {} && e.clients == {}
    }

    /** Nothing is ever created: since the old state things have only gone. */
    twostate predicate Shrunk()
      reads this
    {
      && users <= old(users) && clients <= old(clients) && realms.Keys <= old(realms).Keys
      && old(log) <= log && old(markedUsers) <= markedUsers && old(markedClients) <= markedClients
      && old(calls) <= calls
    }

    /** Every call since the old state was answered. */
    twostate predicate AllAnswered(w: World)
      reads this`calls
    {
      forall n: nat | old(calls) <= n < calls :: w.ok(n)
    }

    /** Only the deletion marks and the clock have moved. */
    twostate predicate OnlyMarked()
      reads this
    {
      users == old(users) && clients == old(clients) && realms == old(realms) && log == old(log)
    }

    constructor (users: set<string>, clients: set<string>, realms: map<string, Realm>)
      ensures this.users == users && this.clients == clients && this.realms == realms
      ensures calls == 0 && log == [] && Valid()
    {
      this.users, this.clients, this.realms, calls, log := users, clients, realms, 0, [];
      markedUsers, markedClients := {}, {};
    }

    /** Time passes until the next call reaches the API server. */
    method Advance(w: World) returns (ok: bool)
      requires Valid()
      modifies this`users, this`clients, this`realms, this`calls
      ensures Valid() && Shrunk() && log == old(log) && calls == old(calls) + 1
      ensures ok == w.ok(old(calls))
      ensures var v := w.vanish(old(calls));
        users == old(users) - v.users && clients == old(clients) - v.clients && realms == old(realms) - v.realms
    {
      var v := w.vanish(calls);
      ok := w.ok(calls);
      users, clients, realms := users - v.users, clients - v.clients, realms - v.realms;
      calls := calls + 1;
    }

    /** Ask for the deletion of every listed user; one that is already gone is an error. */
    method DeleteUsers(listed: set<string>, w: World) returns (ok: bool)
      requires Valid()
      modifies this`users, this`clients, this`realms, this`calls, this`markedUsers
      ensures Valid() && Shrunk()
      ensures ok ==> markedUsers == old(markedUsers) + listed && AllAnswered(w)
      // a listed one that is gone when its turn comes is an error
      ensures listed != {} && listed <= w.vanish(old(calls)).users ==> !ok
      ensures Quiet(w, old(calls)) && listed <= old(users) ==> ok && OnlyMarked()
      ensures listed == {} ==> ok && OnlyMarked() && calls == old(calls)
    {
      var todo := listed;
      while todo != {}
        invariant Valid() && Shrunk()
        invariant todo <= listed && markedUsers == old(markedUsers) + (listed - todo)
        invariant AllAnswered(w) && (todo == listed ==> calls == old(calls))
        invariant listed != {} && listed <= w.vanish(old(calls)).users ==> todo == listed
        invariant Quiet(w, old(calls)) || todo == listed ==> OnlyMarked()
        decreases todo
      {
        var u :| u in todo;
        ok := Advance(w);
        if !ok || u !in users {
          return false;
        }
        markedUsers := markedUsers + {u};
        todo := todo - {u};
      }
      return true;
    }

    method DeleteClients(listed: set<string>, w: World) returns (ok: bool)
      requires Valid()
      modifies this`users, this`clients, this`realms, this`calls, this`markedClients
      ensures Valid() && Shrunk()
      ensures ok ==> markedClients == old(markedClients) + listed && AllAnswered(w)
      // a listed one that is gone when its turn comes is an error
      ensures listed != {} && listed <= w.vanish(old(calls)).clients ==> !ok
      ensures Quiet(w, old(calls)) && listed <= old(clients) ==> ok && OnlyMarked()
      ensures listed == {} ==> ok && OnlyMarked() && calls == old(calls)
    {
      var todo := listed;
      while todo != {}
        invariant Valid() && Shrunk()
        invariant todo <= listed && markedClients == old(markedClients) + (listed - todo)
        invariant AllAnswered(w) && (todo == listed ==> calls == old(calls))
        invariant listed != {} && listed <= w.vanish(old(calls)).clients ==> todo == listed
        invariant Quiet(w, old(calls)) || todo == listed ==> OnlyMarked()
        decreases todo
      {
        var c :| c in todo;
        ok := Advance(w);
        if !ok || c !in clients {
          return false;
        }
        markedClients := markedClients + {c};
        todo := todo - {c};
      }
      return true;
    }

    /** Ask for the deletion of one realm; one that is already gone is an error. */
    method DeleteRealm(r: string, w: World) returns (ok: bool)
      requires Valid() && users == {} && clients == {}
      modifies this`users, this`clients, this`realms, this`calls, this`log
      ensures Valid() && Shrunk() && calls == old(calls) + 1
      ensures var left := old(realms) - w.vanish(old(calls)).realms;
        && (ok <==> w.ok(old(calls)) && r in left)
        && realms == if ok then AfterDelete(left, r) else left
    {
      ok := Advance(w);
      if !ok || r !in realms {
        return false;
      }
      Touch(r);
      realms := AfterDelete(realms, r);
    }

    /** Ask for the deletion of every listed realm: one without finalizers is gone at once, the others
        are marked. */
    method DeleteRealms(listed: set<string>, w: World) returns (ok: bool)
      requires Valid() && users == {} && clients == {}
      modifies this`users, this`clients, this`realms, this`calls, this`log
      ensures Valid() && Shrunk()
      ensures Quiet(w, old(calls)) && listed == old(realms).Keys ==> ok && DeletingExcept(realms, {})
      ensures ok ==> AllAnswered(w)
      ensures listed != {} && listed <= w.vanish(old(calls)).realms ==> !ok
      ensures Quiet(w, old(calls)) && listed == old(realms).Keys ==>
        forall r | r in old(realms) :: r in realms <==> old(realms)[r].finalizers
    {
      var todo := listed;
      ghost var before, calm := realms, Quiet(w, calls) && listed == realms.Keys;
      while todo != {}
        invariant Valid() && Shrunk() && AllAnswered(w)
        invariant todo == listed ==> calls == old(calls)
        invariant listed != {} && listed <= w.vanish(old(calls)).realms ==> todo == listed
        invariant calm ==> DeletedSoFar(before, realms, todo)
        decreases todo
      {
        var r :| r in todo;
        ghost var earlier := realms;
        ok := DeleteRealm(r, w);
        if !ok {
          return false;
        }
        if calm {
          assert realms == AfterDelete(earlier, r);
          OneRealmDeleted(before, earlier, todo, r);
        }
        todo := todo - {r};
      }
      return true;
    }

    /** A realm is deleted or stripped: what an observer sees. */
    ghost method Touch(r: string)
      requires Valid() && users == {} && clients == {}
      modifies this`log
      ensures Valid() && log == old(log) + [RealmTouched(r, users, clients)]
    {
      log := log + [RealmTouched(r, users, clients)];
    }

    /** Strip the finalizers of every listed realm; a deleting realm without finalizers is removed,
        and one that is already gone is no error. */
    method StripRealms(listed: set<string>, w: World) returns (ok: bool)
      requires Valid() && users == {} && clients == {}
      modifies this`users, this`clients, this`realms, this`calls, this`log
      ensures Valid() && Shrunk()
      ensures ok <==> AllAnswered(w)
      ensures Strippable(w, old(calls), listed, old(realms)) ==> realms == map[]
    {
      var todo := listed;
      while todo != {}
        invariant Valid() && Shrunk()
        invariant AllAnswered(w)
        invariant Strippable(w, old(calls), listed, old(realms)) ==> realms.Keys == todo && DeletingExcept(realms, {})
        decreases todo
      {
        var r :| r in todo;
        ok := Advance(w);
        if !ok {
          return false;
        }
        if r in realms {
          Touch(r);
          if realms[r].deleting {
            realms := realms - {r};
          } else {
            realms := realms[r := realms[r].(finalizers := false)];
          }
        }
        todo := todo - {r};
      }
      return true;
    }

    /** Every realm listed is deleted, and those still listed lose their finalizers. Only the first listing
        fails without an error. */
    method RemoveRealms(w: World) returns (r: Outcome)
      requires Valid() && users == {} && clients == {}
      modifies this`users, this`clients, this`realms, this`calls, this`log
      ensures Valid() && Shrunk()
      ensures r == Outcome(Failed, false) <==> !w.ok(old(calls))
      ensures r in {DONE, FAILED, Outcome(Failed, false)} && (r == DONE ==> AllAnswered(w))
      ensures w.ok(old(calls)) && Quiet(w, old(calls) + 1) ==> r == DONE && realms == map[]
    {
      var ok := Advance(w);
      if !ok {
        return Outcome(Failed, false);
      }
      ok := DeleteRealms(realms.Keys, w);
      if !ok {
        return FAILED;
      }
      ok := Advance(w);
      if !ok {
        return FAILED;
      }
      ok := StripRealms(realms.Keys, w);
      return if ok then DONE else FAILED;
    }

    /** The second half of the cleanup, entered only once users and clients were seen to be gone. */
    method CleanupRealms(w: World) returns (r: Outcome)
      requires Valid() && users == {} && clients == {}
      modifies this`users, this`clients, this`realms, this`calls, this`log
      ensures Valid() && Shrunk()
      ensures r == Outcome(Failed, false) <==> !w.ok(old(calls))
      ensures r in {DONE, BUSY, FAILED, Outcome(Failed, false)} && (r.phase != Failed ==> AllAnswered(w))
      ensures (r == DONE ==> realms == map[]) && (r == BUSY ==> realms != map[])
      ensures w.ok(old(calls)) && Quiet(w, old(calls) + 1) ==> r == DONE
    {
      r := RemoveRealms(w);
      if r != DONE {
        return;
      }
      var ok := Advance(w);
      if !ok {
        return FAILED;
      }
      if realms != map[] {
        return BUSY;
      }
      return DONE;
    }

    /** The first half: every user and then every client is asked to go. */
    method RequestDeletions(w: World) returns (ok: bool)
      requires Valid()
      modifies this`users, this`clients, this`realms, this`calls, this`markedUsers, this`markedClients
      ensures Valid() && Shrunk()
      ensures ok ==> users <= markedUsers && clients <= markedClients && AllAnswered(w)
      ensures Quiet(w, old(calls)) ==>
        ok && OnlyMarked() && old(users) <= markedUsers && old(clients) <= markedClients
      ensures GoneBy(w, old(calls), old(users), old(clients)) ==> ok && users == {} && clients == {}
    {
      ok := Advance(w);
      if !ok {
        return false;
      }
      ok := DeleteUsers(users, w);
      if !ok {
        return false;
      }
      ok := Advance(w);
      if !ok {
        return false;
      }
      ok := DeleteClients(clients, w);
    }

    /** The recount: neither users nor clients are left, or a call fails, or it is too early to go on. */
    method Recount(w: World) returns (r: Outcome)
      requires Valid()
      modifies this`users, this`clients, this`realms, this`calls
      ensures Valid() && Shrunk()
      ensures r in {DONE, BUSY, FAILED} && (r == FAILED <==> !AllAnswered(w))
      ensures r == DONE ==> users == {} && clients == {}
      ensures r == BUSY ==> users + clients != {}
      ensures Quiet(w, old(calls)) ==> OnlyMarked()
      ensures Quiet(w, old(calls)) && users + clients == {} ==> r == DONE
    {
      var ok := Advance(w);
      if !ok {
        return FAILED;
      }
      if users != {} {
        return BUSY;
      }
      ok := Advance(w);
      if !ok {
        return FAILED;
      }
      if clients != {} {
        return BUSY;
      }
      return DONE;
    }

    /** One call of the cleanup, from any state: no realm is touched too early, completion means that
        everything is gone, and a call that does not fail leaves no user or client that is not on its
        way out. An undisturbed call asks for the deletion of every user and client and waits; once
        they are gone it completes. */
    method CleanupKeycloakResources(w: World) returns (r: Outcome)
      requires Valid()
      modifies this
      ensures Valid() && Shrunk()
      ensures w.deletionRequested && w.crdExists && w.crdOk ==>
        && (r.phase == Completed ==> r == DONE && users == {} && clients == {} && realms == map[])
        && (r.phase != Failed ==> users <= markedUsers && clients <= markedClients && AllAnswered(w))
        && (r == BUSY ==> users + clients != {} || realms != map[])
        && (r in {DONE, BUSY, FAILED} || (users == {} && clients == {} && r == Outcome(Failed, false)))
      ensures w.deletionRequested && w.crdExists && w.crdOk && Quiet(w, old(calls))
              && old(users) + old(clients) != {} ==>
        r == BUSY && old(users) <= markedUsers && old(clients) <= markedClients && OnlyMarked()
      ensures w.deletionRequested && w.crdExists && w.crdOk && GoneBy(w, old(calls), old(users), old(clients)) ==>
        r == DONE
      ensures w.deletionRequested && !w.crdOk ==> r == FAILED && OnlyMarked() && calls == old(calls)
      ensures !w.deletionRequested || (w.crdOk && !w.crdExists) ==> r == DONE && OnlyMarked() && calls == old(calls)
    {
      if !w.deletionRequested {
        return DONE;
      }
      if !w.crdOk {
        return FAILED;
      }
      if !w.crdExists {
        return DONE;
      }
      var ok := RequestDeletions(w);
      if !ok {
        return FAILED;
      }
      r := Recount(w);
      if r != DONE {
        return;
      }
      r := CleanupRealms(w);
    }

    /** A second call, after the objects that the first one found are gone, completes. */
    method CleanUpTwice(first: World, second: World) returns (r: Outcome, ghost between: nat)
      requires Valid() && first.deletionRequested && first.crdOk && first.crdExists
      requires second.deletionRequested && second.crdOk && second.crdExists
      modifies this
      ensures Valid() && Shrunk()
      ensures Quiet(first, old(calls)) && GoneBy(second, between, old(users), old(clients)) ==>
        r == DONE && users == {} && clients == {} && realms == map[]
    {
      r := CleanupKeycloakResources(first);
      between := calls;
      if r.phase != Completed {
        r := CleanupKeycloakResources(second);
      }
    }

    /** Call after call until one completes, as the uninstall does. */
    method CleanUpUntilDone(ws: seq<World>) returns (done: bool)
      requires Valid() && forall w | w in ws :: w.deletionRequested && w.crdExists
      modifies this
      ensures Valid() && Shrunk()
      ensures done ==> users == {} && clients == {} && realms == map[]
    {
      for i := 0 to |ws|
        invariant Valid() && Shrunk()
      {
        var r := CleanupKeycloakResources(ws[i]);
        if r.phase == Completed {
          return true;
        }
      }
      return false;
    }
  }

  /** Every realm outside `todo` is on its way out. */
  ghost predicate DeletingExcept(realms: map<string, Realm>, todo: set<string>) {
    forall r | r in realms && r !in todo :: realms[r].deleting
  }

  /** The API server's answer to a deletion: a realm without finalizers goes at once. */
  function AfterDelete(realms: map<string, Realm>, r: string): map<string, Realm>
    requires r in realms
  {
    if realms[r].finalizers then realms[r := realms[r].(deleting := true)] else realms - {r}
  }

  lemma OneRealmDeleted(before: map<string, Realm>, now: map<string, Realm>, todo: set<string>, r: string)
    requires r in todo && r in now
    ensures DeletedSoFar(before, now, todo) ==> DeletedSoFar(before, AfterDelete(now, r), todo - {r})
  {
  }

  /** Of the realms already dealt with those without finalizers are gone and the others marked; the rest
      are untouched. */
  ghost predicate DeletedSoFar(before: map<string, Realm>, now: map<string, Realm>, todo: set<string>) {
    && todo <= now.Keys <= before.Keys && DeletingExcept(now, todo)
    && (forall r | r in before && r !in todo :: r in now <==> before[r].finalizers)
    && (forall r | r in todo && r in before :: r in now && now[r] == before[r])
  }

  /** Nothing interferes, and the realms listed are all there are and all being deleted. */
  ghost predicate Strippable(w: World, n: nat, listed: set<string>, realms: map<string, Realm>) {
    Quiet(w, n) && listed == realms.Keys && DeletingExcept(realms, {})
  }

  /** From the `n`-th call on every call is answered and nothing vanishes meanwhile. */
  ghost predicate Quiet(w: World, n: nat) {
    forall m: nat | m >= n :: w.ok(m) && w.vanish(m) == Vanishing({}, {}, {})
  }

  /** The `n`-th call is answered and finds none of these objects any more; then all is quiet. */
  ghost predicate GoneBy(w: World, n: nat, users: set<string>, clients: set<string>) {
    w.ok(n) && users <= w.vanish(n).users && clients <= w.vanish(n).clients && Quiet(w, n + 1)
  }
}
