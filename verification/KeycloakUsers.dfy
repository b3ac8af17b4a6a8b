/** The synchronisation of Keycloak users with OpenShift users: `getUserDiff` and
    `syncronizeWithOpenshiftUsers` of pkg/products/rhsso, `DeleteKeycloakUsers` of
    pkg/products/rhssocommon, which removes from its slice by swapping in the last element. */
module KeycloakUsers {
  import opened Options

  datatype OsUser = OsUser(name: string, uid: string)

  datatype KcUser = KcUser(name: string, email: string, identity: string, roles: seq<string>)

  function Names(users: seq<KcUser>): (r: seq<string>)
    ensures |r| == |users|
  {
    seq(|users|, i requires 0 <= i < |users| => users[i].name)
  }

  predicate Listed(os: seq<OsUser>, name: string) { exists u | u in os :: u.name == name }

  predicate Known(kc: seq<KcUser>, name: string) { exists u | u in kc :: u.name == name }

  // ---------------------------------------------------------------- the two differences

  /** The OpenShift users that Keycloak does not have and that are not excluded, in order. */
  function Added(kc: seq<KcUser>, os: seq<OsUser>, excluded: set<string>): seq<OsUser> {
    if os == [] then []
    else
      var rest, u := Added(kc, os[..|os| - 1], excluded), os[|os| - 1];
      if !Known(kc, u.name) && u.name !in excluded then rest + [u] else rest
  }

  /** The Keycloak users that OpenShift does not have, in order. */
  function Deleted(kc: seq<KcUser>, os: seq<OsUser>): seq<KcUser> {
    if kc == [] then []
    else
      var rest, u := Deleted(kc[..|kc| - 1], os), kc[|kc| - 1];
      if Listed(os, u.name) then rest else rest + [u]
  }

  predicate Stays(os: seq<OsUser>, u: KcUser) { u.name == "" || Listed(os, u.name) }

  /** The users that stay: those OpenShift knows, and those without a name. */
  function Kept(kc: seq<KcUser>, os: seq<OsUser>): seq<KcUser> {
    if kc == [] then []
    else
      var rest, u := Kept(kc[..|kc| - 1], os), kc[|kc| - 1];
      if Stays(os, u) then rest + [u] else rest
  }

  method KcContainsOsUser(kc: seq<KcUser>, u: OsUser) returns (found: bool)
    ensures found == Known(kc, u.name)
  {
    for i := 0 to |kc|
      invariant forall x | x in kc[..i] :: x.name != u.name
    {
      if kc[i].name == u.name {
        return true;
      }
    }
    assert kc[..|kc|] == kc;
    return false;
  }

  method OsUserInKc(os: seq<OsUser>, u: KcUser) returns (found: bool)
    ensures found == Listed(os, u.name)
  {
    for i := 0 to |os|
      invariant forall x | x in os[..i] :: x.name != u.name
    {
      if os[i].name == u.name {
        return true;
      }
    }
    assert os[..|os|] == os;
    return false;
  }

  method GetUserDiff(kc: seq<KcUser>, os: seq<OsUser>, excluded: set<string>)
    returns (added: seq<OsUser>, deleted: seq<KcUser>)
    ensures added == Added(kc, os, excluded) && deleted == Deleted(kc, os)
  {
    added, deleted := [], [];
    for i := 0 to |os|
      invariant added == Added(kc, os[..i], excluded)
    {
      assert os[..i + 1][..i] == os[..i];
      var found := KcContainsOsUser(kc, os[i]);
      if !found && os[i].name !in excluded {
        added := added + [os[i]];
      }
    }
    assert os[..|os|] == os;
    for i := 0 to |kc|
      invariant deleted == Deleted(kc[..i], os)
    {
      assert kc[..i + 1][..i] == kc[..i];
      var found := OsUserInKc(os, kc[i]);
      if !found {
        deleted := deleted + [kc[i]];
      }
    }
    assert kc[..|kc|] == kc;
  }

  // ---------------------------------------------------------------- removal by swapping

  function FirstNamed(users: seq<KcUser>, name: string): (i: nat)
    ensures i <= |users| && (i < |users| ==> users[i].name == name)
    ensures forall j | 0 <= j < i :: users[j].name != name
  {
    if users == [] then 0 else if users[0].name == name then 0 else 1 + FirstNamed(users[1..], name)
  }

  function SwapRemovedAt<T>(list: seq<T>, i: nat): (r: seq<T>)
    requires i < |list|
    ensures |r| == |list| - 1
  {
    list[i := list[|list| - 1]][..|list| - 1]
  }

  function RemovedOne(users: seq<KcUser>, name: string): (r: seq<KcUser>)
    ensures |r| <= |users|
  {
    var i := FirstNamed(users, name);
    if i == |users| then users else SwapRemovedAt(users, i)
  }

  /** One removal for every named user of `gone`, in turn. */
  function RemovedAll(users: seq<KcUser>, gone: seq<KcUser>): (r: seq<KcUser>)
    ensures |r| <= |users|
    decreases |gone|
  {
    if gone == [] then users
    else if gone[0].name == "" then RemovedAll(users, gone[1..])
    else RemovedAll(RemovedOne(users, gone[0].name), gone[1..])
  }

  /** The inner loop: the new length of the live slice. */
  method RemoveNamed(a: array<KcUser>, live: nat, name: string) returns (n: nat)
    requires live <= a.Length
    modifies a
    ensures n <= a.Length && a[..n] == RemovedOne(old(a[..live]), name)
  {
    ghost var users := a[..live];
    for i := 0 to live
      invariant a[..live] == users
      invariant forall j | 0 <= j < i :: users[j].name != name
    {
      assert a[i] == users[i];
      if a[i].name == name {
        a[i] := a[live - 1];
        assert a[..live - 1] == SwapRemovedAt(users, i);
        return live - 1;
      }
    }
    return live;
  }

  /** `nameOk` tells whether a CR name can be generated, `deleteOk(i)` whether the deletion of the
      i-th user's CR succeeds. Nothing is returned on failure. */
  method DeleteKeycloakUsers(a: array<KcUser>, gone: seq<KcUser>, nameOk: KcUser -> bool, deleteOk: nat -> bool)
    returns (n: Option<nat>)
    modifies a
    ensures n.Some? ==> n.value <= a.Length && a[..n.value] == RemovedAll(old(a[..]), gone)
    ensures n.Some? <==> DeletionsSucceed(gone, nameOk, deleteOk)
  {
    var live: nat := a.Length;
    assert a[..live] == a[..];
    for i := 0 to |gone|
      invariant live <= a.Length
      invariant RemovedAll(old(a[..]), gone) == RemovedAll(a[..live], gone[i..])
      invariant forall j: nat | j < i && gone[j].name != "" :: nameOk(gone[j]) && deleteOk(j)
    {
      assert gone[i..][0] == gone[i] && gone[i..][1..] == gone[i + 1..];
      if gone[i].name == "" {
        continue;
      }
      live := RemoveNamed(a, live, gone[i].name);
      if !nameOk(gone[i]) || !deleteOk(i) {
        return None;
      }
    }
    return Some(live);
  }

  // ---------------------------------------------------------------- the whole synchronisation

  /** `email` is the address found or made up for a user; nothing when that fails. */
  function NewUser(u: OsUser, email: OsUser -> Option<string>): KcUser {
    KcUser(u.name, match email(u) case Some(e) => e case None => "", u.uid, [])
  }

  function NewUsers(added: seq<OsUser>, email: OsUser -> Option<string>): (r: seq<KcUser>)
    ensures |r| == |added|
  {
    seq(|added|, i requires 0 <= i < |added| => NewUser(added[i], email))
  }

  function WithRoles(users: seq<KcUser>, roles: seq<string>): (r: seq<KcUser>)
    ensures |r| == |users|
  {
    seq(|users|, i requires 0 <= i < |users| => users[i].(roles := roles))
  }

  function Synchronised(
    kc: seq<KcUser>, os: seq<OsUser>, excluded: set<string>, email: OsUser -> Option<string>, roles: seq<string>)
    : seq<KcUser>
  {
    WithRoles(RemovedAll(kc, Deleted(kc, os)) + NewUsers(Added(kc, os, excluded), email), roles)
  }

  method AppendNewUsers(kept: seq<KcUser>, added: seq<OsUser>, email: OsUser -> Option<string>)
    returns (r: Option<seq<KcUser>>)
    ensures r.Some? ==> r.value == kept + NewUsers(added, email)
    ensures r.Some? ==> forall i | 0 <= i < |added| ::
      && r.value[|kept| + i].name == added[i].name && Some(r.value[|kept| + i].email) == email(added[i])
      && r.value[|kept| + i].identity == added[i].uid && r.value[|kept| + i].roles == []
    ensures r.Some? <==> forall u | u in added :: email(u).Some?
  {
    var users := kept;
    for i := 0 to |added|
      invariant users == kept + NewUsers(added[..i], email)
      invariant forall u | u in added[..i] :: email(u).Some?
    {
      if email(added[i]).None? {
        return None;
      }
      assert added[..i + 1] == added[..i] + [added[i]];
      assert NewUsers(added[..i + 1], email) == NewUsers(added[..i], email) + [NewUser(added[i], email)];
      users := users + [NewUser(added[i], email)];
    }
    assert added[..|added|] == added;
    return Some(users);
  }

  method SetRoles(a: array<KcUser>, roles: seq<string>)
    modifies a
    ensures a[..] == WithRoles(old(a[..]), roles)
  {
    for i := 0 to a.Length
      invariant forall j | 0 <= j < i :: a[j] == old(a[j]).(roles := roles)
      invariant forall j | i <= j < a.Length :: a[j] == old(a[j])
    {
      a[i] := a[i].(roles := roles);
    }
  }

  ghost predicate DeletionsSucceed(gone: seq<KcUser>, nameOk: KcUser -> bool, deleteOk: nat -> bool) {
    forall i: nat | i < |gone| && gone[i].name != "" :: nameOk(gone[i]) && deleteOk(i)
  }

  method SynchronizeWithOpenshiftUsers(
    a: array<KcUser>, os: seq<OsUser>, excluded: set<string>,
    nameOk: KcUser -> bool, deleteOk: nat -> bool, listOk: bool, email: OsUser -> Option<string>, roles: seq<string>)
    returns (r: Option<seq<KcUser>>)
    modifies a
    ensures r.Some? ==> r.value == Synchronised(old(a[..]), os, excluded, email, roles)
    ensures r.Some? <==>
      && listOk
      && DeletionsSucceed(Deleted(old(a[..]), os), nameOk, deleteOk)
      && (forall u | u in Added(old(a[..]), os, excluded) :: email(u).Some?)
  {
    var added, deleted := GetUserDiff(a[..], os, excluded);
    var n := DeleteKeycloakUsers(a, deleted, nameOk, deleteOk);
    if n.None? || !listOk {
      return None;
    }
    var users := AppendNewUsers(a[..n.value], added, email);
    if users.None? {
      return None;
    }
    var all := users.value;
    var b := new KcUser[|all|](i requires 0 <= i < |all| => all[i]);
    assert b[..] == all;
    SetRoles(b, roles);
    return Some(b[..]);
  }
}
