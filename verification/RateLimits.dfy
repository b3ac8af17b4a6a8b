/** The limitador settings of pkg/products/marin3r/rateLimitService.go: building them and deciding,
    by sorting both lists in place, whether the stored ones differ. */
module RateLimits {

  datatype Limit = Limit(ns: string, maxValue: nat, seconds: nat, conditions: seq<string>, variables: seq<string>)

  // ---------------------------------------------------------------- the sort order

  /** Go's `<` on strings. */
  predicate Below(a: string, b: string) {
    if b == "" then false
    else if a == "" then true
    else a[0] < b[0] || (a[0] == b[0] && Below(a[1..], b[1..]))
  }

  predicate KeyLess(x: Limit, y: Limit) {
    if x.ns != y.ns then Below(x.ns, y.ns) else x.maxValue < y.maxValue
  }

  predicate SameKey(x: Limit, y: Limit) { x.ns == y.ns && x.maxValue == y.maxValue }

  lemma {:induction false} BelowTotal(a: string, b: string)
    ensures Below(a, b) || Below(b, a) || a == b
    ensures !(Below(a, b) && Below(b, a))
  {
    if a != "" && b != "" {
      BelowTotal(a[1..], b[1..]);
      assert a == [a[0]] + a[1..] && b == [b[0]] + b[1..];
    }
  }

  /** `a` and `b` agree on their first `n` characters, and then `a` ends or has the smaller one. */
  ghost predicate SmallerAt(a: string, b: string, n: nat) {
    && n <= |a| && n < |b| && a[..n] == b[..n]
    && (n == |a| || a[n] < b[n])
  }

  /** The order is the usual one of words. */
  lemma {:induction false} BelowIff(a: string, b: string)
    ensures Below(a, b) <==> exists n: nat :: SmallerAt(a, b, n)
  {
    if a == "" || b == "" || a[0] != b[0] {
      assert b != "" && (a == "" || a[0] < b[0]) ==> SmallerAt(a, b, 0);
    } else {
      BelowIff(a[1..], b[1..]);
      if n: nat :| SmallerAt(a[1..], b[1..], n) {
        assert a[..n + 1] == [a[0]] + a[1..][..n] && b[..n + 1] == [b[0]] + b[1..][..n];
        assert SmallerAt(a, b, n + 1);
      }
      if n: nat :| SmallerAt(a, b, n) {
        assert n > 0 && a[1..][..n - 1] == a[..n][1..] && b[1..][..n - 1] == b[..n][1..];
        assert SmallerAt(a[1..], b[1..], n - 1);
      }
    }
  }

  /** A sorted list goes up by namespace and, within one, by maximum value. */
  lemma SortedGoesUp(s: seq<Limit>, i: nat, j: nat)
    requires Sorted(s) && i < j < |s|
    ensures s[i].ns == s[j].ns || Below(s[i].ns, s[j].ns)
    ensures s[i].ns == s[j].ns ==> s[i].maxValue <= s[j].maxValue
  {
    BelowTotal(s[i].ns, s[j].ns);
    assert !KeyLess(s[j], s[i]);
  }

  lemma {:induction false} BelowTrans(a: string, b: string, c: string)
    requires Below(a, b) && Below(b, c)
    ensures Below(a, c)
  {
    if a != "" && a[0] == b[0] && b[0] == c[0] {
      BelowTrans(a[1..], b[1..], c[1..]);
    }
  }

  /** The order the sort uses is total up to equal keys. */
  lemma KeyTotal(x: Limit, y: Limit)
    ensures !KeyLess(x, y) && !KeyLess(y, x) <==> SameKey(x, y)
    ensures !(KeyLess(x, y) && KeyLess(y, x))
  {
    BelowTotal(x.ns, y.ns);
  }

  lemma SameMembers(a: seq<Limit>, b: seq<Limit>)
    requires multiset(a) == multiset(b)
    ensures |a| == |b| && forall x :: x in a <==> x in b
  {
    assert |multiset(a)| == |multiset(b)|;
    assert forall x :: x in a <==> x in multiset(a);
  }

  /** "Not greater" is transitive. */
  lemma KeyTrans(x: Limit, y: Limit, z: Limit)
    requires !KeyLess(y, x) && !KeyLess(z, y)
    ensures !KeyLess(z, x)
  {
    BelowTotal(x.ns, y.ns);
    BelowTotal(y.ns, z.ns);
    BelowTotal(x.ns, z.ns);
    if x.ns != y.ns && y.ns != z.ns {
      BelowTrans(x.ns, y.ns, z.ns);
    }
  }

  ghost predicate Sorted(s: seq<Limit>) {
    forall i, j | 0 <= i < j < |s| :: !KeyLess(s[j], s[i])
  }

  ghost predicate SortOf(sorted: seq<Limit>, s: seq<Limit>) {
    Sorted(sorted) && multiset(sorted) == multiset(s)
  }

  /** Any implementation of `sort.Slice`: it need not be stable. */
  ghost predicate Sorts(sort: seq<Limit> -> seq<Limit>) {
    forall s :: SortOf(sort(s), s)
  }

  // ---------------------------------------------------------------- the comparison

  method SortByNamespaceAndMaxValue(a: array<Limit>, sort: seq<Limit> -> seq<Limit>)
    requires Sorts(sort)
    modifies a
    ensures a[..] == sort(old(a[..])) && SortOf(a[..], old(a[..]))
  {
    var sorted := sort(a[..]);
    assert |multiset(sorted)| == |multiset(a[..])|;
    forall i | 0 <= i < a.Length {
      a[i] := sorted[i];
    }
    assert a[..] == sorted;
  }

  method DifferentLimitSettings(redis: array<Limit>, current: array<Limit>, sort: seq<Limit> -> seq<Limit>)
    returns (different: bool)
    requires Sorts(sort) && redis != current
    modifies redis, current
    ensures different <==> sort(old(redis[..])) != sort(old(current[..]))
    ensures !different ==> old(multiset(redis[..])) == old(multiset(current[..]))
    ensures old(KeysDetermine(redis[..])) ==> (different <==> old(multiset(redis[..])) != old(multiset(current[..])))
  {
    ghost var r, c := redis[..], current[..];
    assert SortOf(sort(r), r) && SortOf(sort(c), c);
    if redis.Length != current.Length {
      assert |multiset(sort(r))| == |multiset(r)| && |multiset(sort(c))| == |multiset(c)|;
      return true;
    }
    SortByNamespaceAndMaxValue(redis, sort);
    SortByNamespaceAndMaxValue(current, sort);
    different := redis[..] != current[..];
    if KeysDetermine(r) && multiset(r) == multiset(c) {
      SameMembers(sort(r), r);
      SortedIsUnique(sort(r), sort(c), r);
    }
  }

  // ---------------------------------------------------------------- when the comparison is exact

  /** Entries with the same key are the same entry. */
  ghost predicate KeysDetermine(s: seq<Limit>) {
    forall x, y | x in s && y in s && SameKey(x, y) :: x == y
  }

  /** The first entries of two sorts of one list have the same key. */
  lemma SameFirstKey(a: seq<Limit>, b: seq<Limit>)
    requires Sorted(a) && Sorted(b) && multiset(a) == multiset(b) && a != [] && b != []
    ensures SameKey(a[0], b[0])
  {
    SameMembers(a, b);
    assert a[0] in a && b[0] in b;
    var i :| 0 <= i < |b| && b[i] == a[0];
    var j :| 0 <= j < |a| && a[j] == b[0];
    KeyTotal(a[0], b[0]);
  }

  lemma SameTail(a: seq<Limit>, b: seq<Limit>)
    requires a != [] && b != [] && a[0] == b[0] && multiset(a) == multiset(b)
    ensures multiset(a[1..]) == multiset(b[1..])
  {
    assert a == [a[0]] + a[1..] && b == [b[0]] + b[1..];
    assert multiset(a[1..]) == multiset(a) - multiset{a[0]};
  }

  /** If keys determine entries, all sorts of a list are one and the same. */
  lemma {:induction false} SortedIsUnique(a: seq<Limit>, b: seq<Limit>, s: seq<Limit>)
    requires Sorted(a) && Sorted(b) && multiset(a) == multiset(b) && KeysDetermine(s)
    requires forall x | x in a :: x in s
    ensures a == b
    decreases |a|
  {
    SameMembers(a, b);
    if a != [] {
      SameFirstKey(a, b);
      SameTail(a, b);
      SortedIsUnique(a[1..], b[1..], s);
      assert a == [a[0]] + a[1..] && b == [b[0]] + b[1..];
    }
  }

  function Inserted(s: seq<Limit>, x: Limit): (r: seq<Limit>)
    ensures multiset(r) == multiset(s) + multiset{x}
  {
    if s == [] || !KeyLess(s[0], x) then [x] + s
    else
      assert s == [s[0]] + s[1..];
      [s[0]] + Inserted(s[1..], x)
  }

  lemma {:induction false} InsertedSorted(s: seq<Limit>, x: Limit)
    requires Sorted(s)
    ensures Sorted(Inserted(s, x))
  {
    var r := Inserted(s, x);
    if s == [] {
    } else if !KeyLess(s[0], x) {
      forall i, j | 0 <= i < j < |r| ensures !KeyLess(r[j], r[i]) {
        if i == 0 && j > 1 {
          KeyTrans(x, s[0], s[j - 1]);
        }
      }
    } else {
      InsertedSorted(s[1..], x);
      KeyTotal(s[0], x);
      forall j | 0 < j < |r| ensures !KeyLess(r[j], r[0]) {
        assert r[j] == Inserted(s[1..], x)[j - 1];
        assert r[j] in multiset(Inserted(s[1..], x));
      }
    }
  }

  function InsertionSort(s: seq<Limit>): seq<Limit> {
    if s == [] then [] else Inserted(InsertionSort(s[1..]), s[0])
  }

  lemma {:induction false} InsertionSorts(s: seq<Limit>)
    ensures SortOf(InsertionSort(s), s)
  {
    if s != [] {
      InsertionSorts(s[1..]);
      assert s == [s[0]] + s[1..];
      InsertedSorted(InsertionSort(s[1..]), s[0]);
    }
  }

  /** Two entries with one key can be exchanged in a sorted list. */
  lemma ExchangeKeepsSort(s: seq<Limit>, i: nat, j: nat)
    requires i < j < |s| && Sorted(s) && SameKey(s[i], s[j])
    ensures SortOf(s[i := s[j]][j := s[i]], s)
  {
    var r := s[i := s[j]][j := s[i]];
    assert forall k | 0 <= k < |s| :: SameKey(r[k], s[k]);
    forall a, b | 0 <= a < b < |r| ensures !KeyLess(r[b], r[a]) {
      assert !KeyLess(s[b], s[a]) && SameKey(r[a], s[a]) && SameKey(r[b], s[b]);
    }
  }

  /** `DifferentLimitSettings` finds no difference between any two arrangements of `s`, whatever the
      sort does with equal keys. */
  ghost predicate ComparisonExact(s: seq<Limit>) {
    forall sort, a: seq<Limit>, b: seq<Limit> | Sorts(sort) && multiset(a) == multiset(s) == multiset(b) ::
      sort(a) == sort(b)
  }

  /** The comparison is exact on a list exactly when keys determine its entries. */
  lemma ComparisonExactIff(s: seq<Limit>)
    ensures ComparisonExact(s) <==> KeysDetermine(s)
  {
    if KeysDetermine(s) {
      forall sort, a: seq<Limit>, b: seq<Limit> | Sorts(sort) && multiset(a) == multiset(s) == multiset(b)
        ensures sort(a) == sort(b)
      {
        assert SortOf(sort(a), a) && SortOf(sort(b), b);
        SameMembers(sort(a), s);
        SortedIsUnique(sort(a), sort(b), s);
      }
    } else {
      var x, y :| x in s && y in s && SameKey(x, y) && x != y;
      var a, b := TwoSorts(s, x, y);
      var sort := KeepingSort(a, b);
    }
  }

  /** A sort that leaves two given sorted lists as they are. */
  lemma KeepingSort(a: seq<Limit>, b: seq<Limit>) returns (sort: seq<Limit> -> seq<Limit>)
    requires Sorted(a) && Sorted(b)
    ensures Sorts(sort) && sort(a) == a && sort(b) == b
  {
    sort := s => if s == a || s == b then s else InsertionSort(s);
    forall s ensures SortOf(sort(s), s) { InsertionSorts(s); }
  }

  lemma TwoSorts(s: seq<Limit>, x: Limit, y: Limit) returns (a: seq<Limit>, b: seq<Limit>)
    requires x in s && y in s && SameKey(x, y) && x != y
    ensures SortOf(a, s) && SortOf(b, s) && a != b
  {
    a := InsertionSort(s);
    InsertionSorts(s);
    SameMembers(a, s);
    var i :| 0 <= i < |a| && a[i] == x;
    var j :| 0 <= j < |a| && a[j] == y;
    var lo, hi := if i < j then i else j, if i < j then j else i;
    ExchangeKeepsSort(a, lo, hi);
    b := a[lo := a[hi]][hi := a[lo]];
    assert b[hi] != a[hi];
  }

  // ---------------------------------------------------------------- the generated settings

  const POSSIBLE_TENANTS := 200
  const MIN_PER_TENANT := 200

  /** `getLimitPerTenant`. */
  function LimitPerTenant(requestsPerUnit: nat): nat {
    var limit := requestsPerUnit / POSSIBLE_TENANTS;
    if limit < MIN_PER_TENANT then MIN_PER_TENANT else limit
  }

  /** Every tenant gets its share of the limit, rounded down, but never less than 200. */
  lemma ShareOfLimit(requestsPerUnit: nat)
    ensures var share := LimitPerTenant(requestsPerUnit);
      if requestsPerUnit < 200 * 200 then share == 200
      else 200 * share <= requestsPerUnit < 200 * (share + 1)
  {
  }

  const DOMAIN := "apicast-ratelimit"
  const GENERIC_CONDITION := "descriptors[0]['generic_key'] == \"slowpath\""
  const TENANT_CONDITION := "header_match == per-mt-limit"

  /** `getMultitenantRHOAMLimitadorSetting`: one limit for all tenants together, one per tenant. */
  function MultitenantSetting(requestsPerUnit: nat, perTenant: nat, seconds: nat): seq<Limit> {
    [Limit(DOMAIN, requestsPerUnit, seconds, [GENERIC_CONDITION], []),
     Limit(DOMAIN, perTenant, seconds, [TENANT_CONDITION], ["tenant"])]
  }

  /** Both limits count over the same window in the same domain: the whole rate for all tenants together,
      the share for each of them. */
  lemma MultitenantLimits(requestsPerUnit: nat, perTenant: nat, seconds: nat)
    ensures var s := MultitenantSetting(requestsPerUnit, perTenant, seconds);
      && (forall l | l in s :: l.ns == "apicast-ratelimit" && l.seconds == seconds)
      && (forall l | l in s && l.variables == [] :: l.maxValue == requestsPerUnit)
      && (forall l | l in s && l.variables == ["tenant"] :: l.maxValue == perTenant)
      && (exists l | l in s :: l.variables == []) && (exists l | l in s :: l.variables == ["tenant"])
  {
    var s := MultitenantSetting(requestsPerUnit, perTenant, seconds);
    assert s[0] in s && s[1] in s;
    assert s[0].variables != ["tenant"];
  }

  /** The comparison is exact on the multitenant settings unless both limits have the same value. */
  lemma MultitenantExactIff(requestsPerUnit: nat, perTenant: nat, seconds: nat)
    ensures ComparisonExact(MultitenantSetting(requestsPerUnit, perTenant, seconds)) <==> requestsPerUnit != perTenant
  {
    var s := MultitenantSetting(requestsPerUnit, perTenant, seconds);
    ComparisonExactIff(s);
    assert s[0] in s && s[1] in s && s[0] != s[1];
  }

  /** With the default per-tenant limit that is every rate limit except 200. */
  lemma DefaultExactIff(requestsPerUnit: nat, seconds: nat)
    ensures ComparisonExact(MultitenantSetting(requestsPerUnit, LimitPerTenant(requestsPerUnit), seconds))
       <==> requestsPerUnit != 200
  {
    MultitenantExactIff(requestsPerUnit, LimitPerTenant(requestsPerUnit), seconds);
  }
}
