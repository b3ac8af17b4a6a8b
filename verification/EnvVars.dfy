/** `ReconcileCSVEnvVars` of pkg/products/rhssocommon: environment variables merged in place into
    the operator deployment of a CSV. */
module EnvVars {
  import opened Options

  datatype EnvVar = EnvVar(name: string, value: string)

  datatype Deployment = Deployment(name: string, containers: seq<seq<EnvVar>>)

  const OPERATOR := "rhsso-operator"

  type Requested = map<string, string>

  function NamesOf(env: seq<EnvVar>): set<string> { set v | v in env :: v.name }

  ghost predicate UniqueNames(env: seq<EnvVar>) {
    forall i, j | 0 <= i < j < |env| :: env[i].name != env[j].name
  }

  /** Entry `i` after the merge: the first entry of a requested name takes the requested value. */
  function Entry(env: seq<EnvVar>, req: Requested, i: nat): (r: EnvVar)
    requires i < |env|
    ensures r.name == env[i].name
  {
    if env[i].name in req && env[i].name !in NamesOf(env[..i]) then EnvVar(env[i].name, req[env[i].name]) else env[i]
  }

  /** `env` lists every pair of `m` once, in some order. */
  ghost predicate Lists(env: seq<EnvVar>, m: Requested) {
    && UniqueNames(env) && NamesOf(env) == m.Keys
    && forall v | v in env :: v.name in m && v.value == m[v.name]
  }

  /** A merge of the requested variables into `env`: its entries in place, new names after. */
  ghost predicate Merged(env: seq<EnvVar>, req: Requested, r: seq<EnvVar>) {
    && |env| <= |r|
    && (forall i | 0 <= i < |env| :: r[i] == Entry(env, req, i))
    && Lists(r[|env|..], req - NamesOf(env))
  }

  function FirstOperator(ds: seq<Deployment>): (i: nat)
    ensures i <= |ds| && (i < |ds| ==> ds[i].name == OPERATOR)
    ensures forall j | 0 <= j < i :: ds[j].name != OPERATOR
  {
    if ds == [] || ds[0].name == OPERATOR then 0 else 1 + FirstOperator(ds[1..])
  }

  lemma NamesOfSnoc(env: seq<EnvVar>, v: EnvVar)
    ensures NamesOf(env + [v]) == NamesOf(env) + {v.name}
  {
    assert forall u :: u in env + [v] <==> u in env || u == v;
    assert v in env + [v];
  }

  lemma ListsSnoc(env: seq<EnvVar>, m: Requested, x: string, v: string)
    requires Lists(env, m) && x !in m
    ensures Lists(env + [EnvVar(x, v)], m[x := v])
  {
    NamesOfSnoc(env, EnvVar(x, v));
    forall i | 0 <= i < |env| ensures env[i].name != x {
      assert env[i] in env;
    }
  }

  /** Overwrite in place, consuming the request; what is left of it are the new names. */
  method Override(a: array<EnvVar>, req: Requested) returns (left: Requested, updated: bool)
    modifies a
    ensures forall i | 0 <= i < a.Length :: a[i] == Entry(old(a[..]), req, i)
    ensures left == req - NamesOf(old(a[..]))
    ensures updated <==> a[..] != old(a[..])
  {
    left, updated := req, false;
    ghost var env := a[..];
    for i := 0 to a.Length
      invariant left == req - NamesOf(env[..i])
      invariant forall j | 0 <= j < i :: a[j] == Entry(env, req, j)
      invariant forall j | i <= j < a.Length :: a[j] == env[j]
      invariant updated <==> exists j | 0 <= j < i :: a[j] != env[j]
    {
      var x := a[i].name;
      assert env[..i + 1] == env[..i] + [env[i]];
      NamesOfSnoc(env[..i], env[i]);
      if x in left {
        var value := left[x];
        left := left - {x};
        if a[i].value != value {
          updated := true;
          a[i] := EnvVar(x, value);
          assert a[i] != env[i];
        }
      }
    }
    assert env[..a.Length] == env;
    assert updated ==> exists j | 0 <= j < a.Length :: a[..][j] != env[j];
  }

  /** Append what is left, in whatever order the map is iterated. */
  method AppendRest(req: Requested) returns (r: seq<EnvVar>, updated: bool)
    ensures Lists(r, req) && (updated <==> r != [])
  {
    r, updated := [], false;
    var todo := req;
    while todo.Keys != {}
      invariant todo.Keys <= req.Keys && forall x | x in todo :: todo[x] == req[x]
      invariant Lists(r, req - todo.Keys)
      invariant updated <==> r != []
      decreases todo.Keys
    {
      var x :| x in todo;
      ListsSnoc(r, req - todo.Keys, x, todo[x]);
      assert (req - todo.Keys)[x := todo[x]] == req - (todo - {x}).Keys;
      updated := true;
      r := r + [EnvVar(x, todo[x])];
      todo := todo - {x};
    }
    assert req - todo.Keys == req;
  }

  class Csv {
    var deployments: seq<Deployment>

    constructor (ds: seq<Deployment>)
      ensures deployments == ds
    {
      deployments := ds;
    }

    /** Nothing is returned when the operator deployment has no container: the process panics. */
    method ReconcileCSVEnvVars(req: Requested) returns (updated: Option<bool>)
      modifies this
      ensures var ds, i := old(deployments), FirstOperator(old(deployments));
        if i == |ds| then updated == Some(false) && deployments == ds
        else if ds[i].containers == [] then updated == None && deployments == ds
        else
          && updated.Some? && (updated.value <==> deployments != ds)
          && |deployments| == |ds| && (forall j | 0 <= j < |ds| && j != i :: deployments[j] == ds[j])
          && deployments[i].name == ds[i].name && |deployments[i].containers| == |ds[i].containers|
          && deployments[i].containers[1..] == ds[i].containers[1..]
          && Merged(ds[i].containers[0], req, deployments[i].containers[0])
    {
      var changed := false;
      for i := 0 to |deployments|
        invariant deployments == old(deployments) && !changed
        invariant forall j | 0 <= j < i :: deployments[j].name != OPERATOR
      {
        var d := deployments[i];
        if d.name != OPERATOR {
          continue;
        }
        assert i == FirstOperator(deployments);
        if d.containers == [] {
          return None;
        }
        var env := d.containers[0];
        var a := new EnvVar[|env|](k requires 0 <= k < |env| => env[k]);
        assert a[..] == env;
        var left, overridden := Override(a, req);
        var rest, appended := AppendRest(left);
        changed := overridden || appended;
        var merged := a[..] + rest;
        assert merged[..|env|] == a[..] && merged[|env|..] == rest;
        assert changed <==> merged != env by {
          assert rest == [] ==> merged == a[..];
        }
        assert merged == env ==> d.containers[0 := merged] == d.containers;
        deployments := deployments[i := d.(containers := d.containers[0 := merged])];
        assert deployments[i].containers[0] == merged;
        assert merged == env ==> deployments == old(deployments);
        return Some(changed);
      }
      return Some(false);
    }
  }

  // ---------------------------------------------------------------- running it again

  /** Merging keeps the names where they are, and a name occurs after the old entries only if it is
      new. */
  lemma MergedNames(env: seq<EnvVar>, req: Requested, r: seq<EnvVar>, k: nat)
    requires Merged(env, req, r) && k < |r|
    ensures k < |env| ==> r[k].name == env[k].name && NamesOf(r[..k]) == NamesOf(env[..k])
    ensures k >= |env| ==> r[k].name in req && r[k].value == req[r[k].name] && r[k].name !in NamesOf(env)
  {
    if k < |env| {
      assert forall i | 0 <= i < k :: r[i].name == env[i].name;
      SameNames(r[..k], env[..k]);
    } else {
      assert r[k] == r[|env|..][k - |env|];
      assert r[k] in r[|env|..];
    }
  }

  lemma SameNames(a: seq<EnvVar>, b: seq<EnvVar>)
    requires |a| == |b| && forall i | 0 <= i < |a| :: a[i].name == b[i].name
    ensures NamesOf(a) == NamesOf(b)
  {
    forall i | 0 <= i < |a| ensures a[i].name in NamesOf(b) && b[i].name in NamesOf(a) {
      assert b[i] in b && a[i] in a;
    }
  }

  lemma MergedCoversRequest(env: seq<EnvVar>, req: Requested, r: seq<EnvVar>)
    requires Merged(env, req, r)
    ensures req.Keys <= NamesOf(r)
  {
    var old', new' := r[..|env|], r[|env|..];
    SameNames(old', env);
    forall x | x in req ensures x in NamesOf(r) {
      if x in NamesOf(env) {
        var v :| v in old' && v.name == x;
        assert v in r;
      } else {
        assert x in NamesOf(new');
        var v :| v in new' && v.name == x;
        assert v in r;
      }
    }
  }

  /** A second run with the same request finds nothing to change: the only merge of the request into
      a merged environment is that environment. */
  lemma MergeIsIdempotent(env: seq<EnvVar>, req: Requested, r: seq<EnvVar>, r': seq<EnvVar>)
    requires Merged(env, req, r) && Merged(r, req, r')
    ensures r' == r
  {
    forall k | 0 <= k < |r| ensures r'[k] == r[k] {
      MergedNames(env, req, r, k);
    }
    MergedCoversRequest(env, req, r);
    var new' := r'[|r|..];
    assert new' != [] ==> new'[0] in new' && new'[0].name in NamesOf(new');
  }

  // ---------------------------------------------------------------- what the process will see

  /** A container sees `x` as `v`: of several entries with one name the last one counts. */
  ghost predicate Sees(env: seq<EnvVar>, x: string, v: string) {
    exists i | 0 <= i < |env| :: env[i] == EnvVar(x, v) && forall j | i < j < |env| :: env[j].name != x
  }

  /** The merged environment means the old one overridden by the request. */
  ghost predicate Overrides(env: seq<EnvVar>, req: Requested, r: seq<EnvVar>) {
    forall x, v :: Sees(r, x, v) <==> if x in req then v == req[x] else Sees(env, x, v)
  }

  ghost predicate AlwaysOverrides(env: seq<EnvVar>) {
    forall req: Requested, r | Merged(env, req, r) :: Overrides(env, req, r)
  }

  lemma UniqueAfterMerge(env: seq<EnvVar>, req: Requested, r: seq<EnvVar>)
    requires UniqueNames(env) && Merged(env, req, r)
    ensures UniqueNames(r)
  {
    forall i, j | 0 <= i < j < |r| ensures r[i].name != r[j].name {
      MergedNames(env, req, r, i);
      MergedNames(env, req, r, j);
      if i < |env| {
        assert env[i] in env;
      } else {
        assert r[i] == r[|env|..][i - |env|] && r[j] == r[|env|..][j - |env|];
      }
    }
  }

  /** With unique names every entry of a merge has its requested or its old value. */
  lemma MergedValue(env: seq<EnvVar>, req: Requested, r: seq<EnvVar>, k: nat)
    requires UniqueNames(env) && Merged(env, req, r) && k < |r|
    ensures r[k].name in req ==> r[k].value == req[r[k].name]
    ensures r[k].name !in req ==> k < |env| && r[k] == env[k]
  {
    MergedNames(env, req, r, k);
  }

  lemma UniqueOverrides(env: seq<EnvVar>, req: Requested, r: seq<EnvVar>)
    requires UniqueNames(env) && Merged(env, req, r)
    ensures Overrides(env, req, r)
  {
    UniqueAfterMerge(env, req, r);
    MergedCoversRequest(env, req, r);
    forall x, v ensures Sees(r, x, v) <==> if x in req then v == req[x] else Sees(env, x, v) {
      if x in req {
        var u :| u in r && u.name == x;
        var k :| 0 <= k < |r| && r[k] == u;
        MergedValue(env, req, r, k);
        assert Sees(r, x, req[x]);
        assert forall j | 0 <= j < |r| && r[j].name == x :: j == k;
      } else {
        if Sees(env, x, v) {
          var k :| 0 <= k < |env| && env[k] == EnvVar(x, v) && forall j | k < j < |env| :: env[j].name != x;
          assert r[k] == EnvVar(x, v);
        }
        if Sees(r, x, v) {
          var k :| 0 <= k < |r| && r[k] == EnvVar(x, v) && forall j | k < j < |r| :: r[j].name != x;
          MergedValue(env, req, r, k);
          assert env[k] == EnvVar(x, v);
        }
      }
    }
  }

  function LastNamed(env: seq<EnvVar>, x: string): (k: nat)
    requires exists i | 0 <= i < |env| :: env[i].name == x
    ensures k < |env| && env[k].name == x && forall j | k < j < |env| :: env[j].name != x
  {
    if env[|env| - 1].name == x then |env| - 1 else LastNamed(env[..|env| - 1], x)
  }

  lemma RepeatedNameNotOverridden(env: seq<EnvVar>, i: nat, j: nat)
    requires i < j < |env| && env[i].name == env[j].name
    ensures !AlwaysOverrides(env)
  {
    var x := env[i].name;
    var k := LastNamed(env, x);
    var req := map[x := env[k].value + "'"];
    var r := seq(|env|, n requires 0 <= n < |env| => Entry(env, req, n));
    assert env[i] in env && env[i] in env[..k];
    assert req - NamesOf(env) == map[] && r[|env|..] == [];
    assert Merged(env, req, r);
    assert r[k] == EnvVar(x, env[k].value);
    assert Sees(r, x, env[k].value);
    assert !Overrides(env, req, r);
  }

  /** For every request the merge means "old environment overridden by the request", exactly when
      the existing names are unique: of a repeated name only the first entry is overwritten, and the
      last one is what counts. */
  lemma MergeOverridesIffUnique(env: seq<EnvVar>)
    ensures AlwaysOverrides(env) <==> UniqueNames(env)
  {
    if UniqueNames(env) {
      forall req: Requested, r | Merged(env, req, r) ensures Overrides(env, req, r) {
        UniqueOverrides(env, req, r);
      }
    } else {
      var i, j :| 0 <= i < j < |env| && env[i].name == env[j].name;
      RepeatedNameNotOverridden(env, i, j);
    }
  }
}
