/** The user synchronisation meets its specification: whatever duplicates its input has, the users
    left are exactly those that should stay plus those that were added. */
module KeycloakSync {
  import opened Options
  import opened Multisets
  import opened KeycloakUsers

  lemma SwapRemovedMultiset<T>(list: seq<T>, i: nat)
    requires i < |list|
    ensures multiset(SwapRemovedAt(list, i)) == multiset(list) - multiset{list[i]}
  {
    var last := list[|list| - 1];
    var swapped := list[i := last];
    assert multiset(swapped) == multiset(list) - multiset{list[i]} + multiset{last};
    assert swapped == SwapRemovedAt(list, i) + [last];
    assert multiset(swapped) == multiset(SwapRemovedAt(list, i)) + multiset{last};
    SameRest(multiset(SwapRemovedAt(list, i)), multiset(list) - multiset{list[i]}, last);
  }

  lemma NamesOfSwap(users: seq<KcUser>, i: nat)
    requires i < |users|
    ensures Names(SwapRemovedAt(users, i)) == SwapRemovedAt(Names(users), i)
  {
  }

  lemma NameIn(users: seq<KcUser>, name: string)
    ensures name in Names(users) <==> Known(users, name)
  {
    if Known(users, name) {
      var u :| u in users && u.name == name;
      var i :| 0 <= i < |users| && users[i] == u;
      assert Names(users)[i] == name;
    }
  }

  /** Removing one named user takes one occurrence of that name and no other name. */
  lemma RemovedOneNames(users: seq<KcUser>, name: string)
    ensures multiset(Names(RemovedOne(users, name))) == multiset(Names(users)) - multiset{name}
    ensures forall e: KcUser | e.name != name :: multiset(RemovedOne(users, name))[e] == multiset(users)[e]
  {
    var i := FirstNamed(users, name);
    if i < |users| {
      SwapRemovedMultiset(users, i);
      SwapRemovedMultiset(Names(users), i);
      NamesOfSwap(users, i);
    } else {
      NameIn(users, name);
      assert name !in multiset(Names(users));
    }
  }

  lemma {:induction false} RemovedAllNames(users: seq<KcUser>, gone: seq<KcUser>, x: string)
    requires x != ""
    ensures var had, lost := multiset(Names(users))[x], multiset(Names(gone))[x];
      multiset(Names(RemovedAll(users, gone)))[x] == if had < lost then 0 else had - lost
    decreases |gone|
  {
    if gone != [] {
      assert Names(gone) == [gone[0].name] + Names(gone[1..]);
      if gone[0].name == "" {
        RemovedAllNames(users, gone[1..], x);
      } else {
        RemovedOneNames(users, gone[0].name);
        RemovedAllNames(RemovedOne(users, gone[0].name), gone[1..], x);
      }
    }
  }

  lemma {:induction false} RemovedAllOthers(users: seq<KcUser>, gone: seq<KcUser>, e: KcUser)
    requires e.name == "" || !Known(gone, e.name)
    ensures multiset(RemovedAll(users, gone))[e] == multiset(users)[e]
    decreases |gone|
  {
    if gone != [] {
      assert forall u | u in gone[1..] :: u in gone;
      if gone[0].name == "" {
        RemovedAllOthers(users, gone[1..], e);
      } else {
        RemovedOneNames(users, gone[0].name);
        RemovedAllOthers(RemovedOne(users, gone[0].name), gone[1..], e);
      }
    }
  }

  /** Every occurrence of an unlisted name is up for deletion, and no listed name is. */
  lemma {:induction false} DeletedNames(kc: seq<KcUser>, os: seq<OsUser>, x: string)
    ensures multiset(Names(Deleted(kc, os)))[x] == if Listed(os, x) then 0 else multiset(Names(kc))[x]
  {
    if kc != [] {
      var rest, u := kc[..|kc| - 1], kc[|kc| - 1];
      DeletedNames(rest, os, x);
      assert Names(kc) == Names(rest) + [u.name];
      assert Names(Deleted(rest, os) + [u]) == Names(Deleted(rest, os)) + [u.name];
    }
  }

  lemma {:induction false} KeptCount(kc: seq<KcUser>, os: seq<OsUser>, e: KcUser)
    ensures multiset(Kept(kc, os))[e] == if Stays(os, e) then multiset(kc)[e] else 0
  {
    if kc != [] {
      KeptCount(kc[..|kc| - 1], os, e);
      assert kc == kc[..|kc| - 1] + [kc[|kc| - 1]];
    }
  }

  /** The swapping deletion leaves exactly the users that stay, duplicates included. */
  lemma DeletionLeavesKept(kc: seq<KcUser>, os: seq<OsUser>)
    ensures multiset(RemovedAll(kc, Deleted(kc, os))) == multiset(Kept(kc, os))
  {
    var gone := Deleted(kc, os);
    var left := RemovedAll(kc, gone);
    forall e: KcUser ensures multiset(left)[e] == multiset(Kept(kc, os))[e] {
      KeptCount(kc, os, e);
      DeletedNames(kc, os, e.name);
      if Stays(os, e) {
        if e.name != "" {
          NameIn(gone, e.name);
          assert e.name !in multiset(Names(gone));
        }
        RemovedAllOthers(kc, gone, e);
      } else {
        RemovedAllNames(kc, gone, e.name);
        NameIn(left, e.name);
        assert e.name !in multiset(Names(left));
        assert e !in left;
      }
    }
  }

  // ---------------------------------------------------------------- setting the roles

  lemma WithRolesSwap(a: seq<KcUser>, i: nat, roles: seq<string>)
    requires i < |a|
    ensures multiset(a) == multiset(SwapRemovedAt(a, i)) + multiset{a[i]}
    ensures multiset(WithRoles(a, roles))
         == multiset(WithRoles(SwapRemovedAt(a, i), roles)) + multiset{a[i].(roles := roles)}
  {
    var b := WithRoles(a, roles);
    SwapRemovedMultiset(a, i);
    SwapRemovedMultiset(b, i);
    assert WithRoles(SwapRemovedAt(a, i), roles) == SwapRemovedAt(b, i);
    assert a[i] in multiset(a) && b[i] in multiset(b);
  }

  lemma {:induction false} WithRolesMultiset(a: seq<KcUser>, b: seq<KcUser>, roles: seq<string>)
    requires multiset(a) == multiset(b)
    ensures multiset(WithRoles(a, roles)) == multiset(WithRoles(b, roles))
    decreases |a|
  {
    if a == [] {
      assert |multiset(b)| == 0;
    } else {
      assert a[0] in multiset(b);
      var j :| 0 <= j < |b| && b[j] == a[0];
      WithRolesSwap(a, 0, roles);
      WithRolesSwap(b, j, roles);
      SameRest(multiset(SwapRemovedAt(a, 0)), multiset(SwapRemovedAt(b, j)), a[0]);
      WithRolesMultiset(SwapRemovedAt(a, 0), SwapRemovedAt(b, j), roles);
    }
  }

  /** The result of a successful synchronisation, as a multiset: the users that stay and a new one
      for every OpenShift user that was neither there nor excluded, all with the same roles. */
  lemma SynchronisedIsSpecification(
    kc: seq<KcUser>, os: seq<OsUser>, excluded: set<string>, email: OsUser -> Option<string>, roles: seq<string>)
    ensures multiset(Synchronised(kc, os, excluded, email, roles))
         == multiset(WithRoles(Kept(kc, os) + NewUsers(Added(kc, os, excluded), email), roles))
  {
    DeletionLeavesKept(kc, os);
    var news := NewUsers(Added(kc, os, excluded), email);
    WithRolesMultiset(RemovedAll(kc, Deleted(kc, os)) + news, Kept(kc, os) + news, roles);
  }

  // ---------------------------------------------------------------- doing it again

  lemma {:induction false} AddedMembers(kc: seq<KcUser>, os: seq<OsUser>, excluded: set<string>, u: OsUser)
    ensures u in Added(kc, os, excluded) <==> u in os && !Known(kc, u.name) && u.name !in excluded
  {
    if os != [] {
      AddedMembers(kc, os[..|os| - 1], excluded, u);
      assert os == os[..|os| - 1] + [os[|os| - 1]];
    }
  }

  lemma {:induction false} DeletedMembers(kc: seq<KcUser>, os: seq<OsUser>, u: KcUser)
    ensures u in Deleted(kc, os) <==> u in kc && !Listed(os, u.name)
  {
    if kc != [] {
      DeletedMembers(kc[..|kc| - 1], os, u);
      assert kc == kc[..|kc| - 1] + [kc[|kc| - 1]];
    }
  }

  /** The names after a synchronisation. */
  lemma SynchronisedKnows(
    kc: seq<KcUser>, os: seq<OsUser>, excluded: set<string>, email: OsUser -> Option<string>, roles: seq<string>,
    x: string)
    ensures Known(Synchronised(kc, os, excluded, email, roles), x) <==>
      (Known(kc, x) && (x == "" || Listed(os, x))) || (Listed(os, x) && !Known(kc, x) && x !in excluded)
  {
    var left := RemovedAll(kc, Deleted(kc, os));
    var added := Added(kc, os, excluded);
    var news := NewUsers(added, email);
    var r := WithRoles(left + news, roles);
    assert Names(r) == Names(left) + Names(news);
    NameIn(r, x);
    NameIn(left, x);
    NameIn(news, x);
    DeletionLeavesKept(kc, os);
    assert Known(left, x) <==> Known(kc, x) && (x == "" || Listed(os, x)) by {
      forall e: KcUser ensures e in left <==> e in kc && Stays(os, e) {
        KeptCount(kc, os, e);
        assert e in left <==> e in multiset(left);
        assert e in kc <==> e in multiset(kc);
      }
    }
    assert Known(news, x) <==> Listed(os, x) && !Known(kc, x) && x !in excluded by {
      forall u: OsUser ensures u in added <==> u in os && !Known(kc, u.name) && u.name !in excluded {
        AddedMembers(kc, os, excluded, u);
      }
      NewUsersKnown(added, email, x);
    }
  }

  lemma NewUsersKnown(added: seq<OsUser>, email: OsUser -> Option<string>, x: string)
    ensures Known(NewUsers(added, email), x) <==> Listed(added, x)
  {
    var news := NewUsers(added, email);
    if Listed(added, x) {
      var u :| u in added && u.name == x;
      var i :| 0 <= i < |added| && added[i] == u;
      assert news[i] in news;
    }
  }

  /** Synchronising the result once more adds nobody and deletes nobody who has a name. */
  lemma SynchronisedIsStable(
    kc: seq<KcUser>, os: seq<OsUser>, excluded: set<string>, email: OsUser -> Option<string>, roles: seq<string>)
    ensures var r := Synchronised(kc, os, excluded, email, roles);
      Added(r, os, excluded) == [] && forall u | u in Deleted(r, os) :: u.name == ""
  {
    var r := Synchronised(kc, os, excluded, email, roles);
    assert Added(r, os, excluded) != [] ==> Added(r, os, excluded)[0] in Added(r, os, excluded);
    forall u: OsUser ensures u !in Added(r, os, excluded) {
      AddedMembers(r, os, excluded, u);
      SynchronisedKnows(kc, os, excluded, email, roles, u.name);
    }
    forall u | u in Deleted(r, os) ensures u.name == "" {
      DeletedMembers(r, os, u);
      SynchronisedKnows(kc, os, excluded, email, roles, u.name);
    }
  }
}
