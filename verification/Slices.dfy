/** The string-slice helpers of pkg/resources/finalizers.go. A slice is an array and a live
    length; a `range` loop fixes the length it walks on entry while its body shifts the live slice. */
module Slices {
  import opened Options

  ghost predicate NoDuplicates(list: seq<string>) {
    forall i, j | 0 <= i < j < |list| :: list[i] != list[j]
  }

  /** The order-preserving filter: what removing `s` is meant to leave. */
  function Without(list: seq<string>, s: string): (r: seq<string>)
    ensures forall x :: x in r <==> x in list && x != s
  {
    if list == [] then []
    else if list[0] == s then Without(list[1..], s)
    else [list[0]] + Without(list[1..], s)
  }

  /** What the loop really leaves: the element after a removed one moves under the loop index and
      is passed over unseen. */
  function SkipScan(list: seq<string>, s: string): seq<string> {
    if list == [] then []
    else if list[0] != s then [list[0]] + SkipScan(list[1..], s)
    else if |list| == 1 then []
    else [list[1]] + SkipScan(list[2..], s)
  }

  /** The loop runs past the live slice when `s` is last and also occurs earlier: the stale tail
      then still shows `s`. */
  predicate RunsOff(list: seq<string>, s: string) {
    list != [] && list[|list| - 1] == s && s in list[..|list| - 1]
  }

  ghost predicate AdjacentPair(list: seq<string>, s: string) {
    exists i, j | 0 <= i && j == i + 1 && j < |list| :: list[i] == s && list[j] == s
  }

  /** `append(list[:i], list[i+1:]...)` on a live slice of length `live`: everything after `i` moves
      down by one, the last cell keeps its content. */
  function Shifted(b: seq<string>, i: nat, live: nat): (r: seq<string>)
    requires i < live <= |b|
    ensures |r| == |b|
  {
    b[..i] + b[i + 1..live] + b[live - 1..]
  }

  /** The loop before index `i`, with `live` cells left: `o` is the list it started from, `b` the
      array now. */
  ghost predicate Scanning(o: seq<string>, b: seq<string>, s: string, i: nat, live: nat) {
    && |b| == |o| && i <= |o| && live <= |o|
    && Unread(o, b, i, live)
    && Gathered(o, b, s, i, live)
    && Found(o, s, i, live)
  }

  /** The live cells from `i` on hold the end of the list, the dead cells its last element. */
  ghost predicate Unread(o: seq<string>, b: seq<string>, i: nat, live: nat)
    requires |b| == |o| && live <= |o|
  {
    && (forall j | i <= j < live :: b[j] == o[j + |o| - live])
    && (forall j | live <= j < |o| :: b[j] == o[|o| - 1])
  }

  /** The cells before `i` are what the skipping scan has kept so far. */
  ghost predicate Gathered(o: seq<string>, b: seq<string>, s: string, i: nat, live: nat)
    requires |b| == |o| && live <= |o|
  {
    if i <= live then SkipScan(o, s) == b[..i] + SkipScan(o[i + |o| - live..], s)
    else SkipScan(o, s) == b[..live]
  }

  /** Whether `s` has been met, as far as the dead cells will matter. */
  ghost predicate Found(o: seq<string>, s: string, i: nat, live: nat)
    requires i <= |o| && live <= |o|
  {
    && (live == |o| ==> s !in o[..i])
    && (live < |o| && i < |o| ==> s in o[..|o| - 1])
    && (i == |o| && live < |o| && o[|o| - 1] == s ==> s !in o[..|o| - 1])
  }

  lemma ScanPasses(o: seq<string>, b: seq<string>, s: string, i: nat, live: nat)
    requires Scanning(o, b, s, i, live) && i < |o| && b[i] != s
    ensures Scanning(o, b, s, i + 1, live)
  {
    if i < live {
      var m := i + |o| - live;
      assert o[m..][1..] == o[m + 1..];
      assert b[..i + 1] == b[..i] + [o[m]];
    }
  }

  lemma ShiftUnread(o: seq<string>, b: seq<string>, i: nat, live: nat)
    requires |b| == |o| && i < live <= |o| && Unread(o, b, i, live)
    ensures Unread(o, Shifted(b, i, live), i + 1, live - 1)
  {
  }

  lemma ShiftGathered(o: seq<string>, b: seq<string>, s: string, i: nat, live: nat)
    requires |b| == |o| && i < live <= |o| && Unread(o, b, i, live) && Gathered(o, b, s, i, live) && b[i] == s
    ensures Gathered(o, Shifted(b, i, live), s, i + 1, live - 1)
  {
    var b', m := Shifted(b, i, live), i + |o| - live;
    assert b'[..i] == b[..i];
    assert o[m] == s;
    if m + 1 < |o| {
      assert b'[i] == b[i + 1] == o[m + 1];
      assert b'[..i + 1] == b[..i] + [o[m + 1]];
      assert o[m..][2..] == o[m + 2..];
    } else {
      assert o[m..] == [s];
    }
  }

  lemma ShiftFound(o: seq<string>, s: string, i: nat, live: nat)
    requires i < live <= |o| && Found(o, s, i, live) && o[i + |o| - live] == s
    ensures Found(o, s, i + 1, live - 1)
  {
    if i + 1 < |o| && live == |o| {
      assert o[..|o| - 1][i] == s;
    }
  }

  lemma ScanRemoves(o: seq<string>, b: seq<string>, s: string, i: nat, live: nat)
    requires Scanning(o, b, s, i, live) && i < live && b[i] == s
    ensures Scanning(o, Shifted(b, i, live), s, i + 1, live - 1)
  {
    ShiftUnread(o, b, i, live);
    ShiftGathered(o, b, s, i, live);
    ShiftFound(o, s, i, live);
  }

  lemma ScanEnds(o: seq<string>, b: seq<string>, s: string, live: nat)
    requires Scanning(o, b, s, |o|, live)
    ensures b[..live] == SkipScan(o, s) && !RunsOff(o, s)
  {
    if live == |o| {
      assert o[|o|..] == [];
    }
  }

  lemma ScanRunsOff(o: seq<string>, b: seq<string>, s: string, i: nat, live: nat)
    requires Scanning(o, b, s, i, live) && live <= i < |o| && b[i] == s
    ensures RunsOff(o, s)
  {
  }

  method DeleteAt(a: array<string>, i: nat, live: nat)
    requires i < live <= a.Length
    modifies a
    ensures a[..] == Shifted(old(a[..]), i, live)
  {
    forall j | i <= j < live - 1 {
      a[j] := a[j + 1];
    }
  }

  /** The rest of the loop from index `i`, as a function of the array. */
  function Loop(b: seq<string>, s: string, i: nat, live: nat): Option<seq<string>>
    requires i <= |b| && live <= |b|
    decreases |b| - i
  {
    if i == |b| then Some(b[..live])
    else if b[i] != s then Loop(b, s, i + 1, live)
    else if live < i + 1 then None
    else Loop(Shifted(b, i, live), s, i + 1, live - 1)
  }

  lemma {:induction false} LoopOutcome(o: seq<string>, b: seq<string>, s: string, i: nat, live: nat)
    requires Scanning(o, b, s, i, live)
    ensures Loop(b, s, i, live) == if RunsOff(o, s) then None else Some(SkipScan(o, s))
    decreases |b| - i
  {
    if i == |b| {
      ScanEnds(o, b, s, live);
    } else if b[i] != s {
      ScanPasses(o, b, s, i, live);
      LoopOutcome(o, b, s, i + 1, live);
    } else if live < i + 1 {
      ScanRunsOff(o, b, s, i, live);
    } else {
      ScanRemoves(o, b, s, i, live);
      LoopOutcome(o, Shifted(b, i, live), s, i + 1, live - 1);
    }
  }

  /** What the whole loop comes to. */
  lemma RemoveOutcome(o: seq<string>, s: string)
    ensures Loop(o, s, 0, |o|) == if RunsOff(o, s) then None else Some(SkipScan(o, s))
  {
    assert o[..0] + SkipScan(o, s) == SkipScan(o, s) && o[0..] == o;
    LoopOutcome(o, o, s, 0, |o|);
  }

  method RangeAndShift(a: array<string>, s: string) returns (r: Option<nat>)
    modifies a
    ensures r.None? <==> old(Loop(a[..], s, 0, a.Length)).None?
    ensures r.Some? ==> r.value <= a.Length && Some(a[..r.value]) == old(Loop(a[..], s, 0, a.Length))
  {
    var live: nat := a.Length;
    for i := 0 to a.Length
      invariant live <= a.Length
      invariant Loop(a[..], s, i, live) == old(Loop(a[..], s, 0, a.Length))
    {
      if a[i] == s {
        if live < i + 1 {
          return None;
        }
        DeleteAt(a, i, live);
        live := live - 1;
      }
    }
    assert a[..][..live] == a[..live];
    return Some(live);
  }

  /** `Remove`: the new length, or nothing when a slice bound is out of range. */
  method Remove(a: array<string>, s: string) returns (r: Option<nat>)
    modifies a
    ensures r.None? <==> RunsOff(old(a[..]), s)
    ensures r.Some? ==> r.value <= a.Length && a[..r.value] == SkipScan(old(a[..]), s)
  {
    RemoveOutcome(a[..], s);
    r := RangeAndShift(a, s);
  }

  /** `Contains`. */
  method Contains(list: seq<string>, s: string) returns (found: bool)
    ensures found <==> s in list
  {
    found := false;
    for i := 0 to |list|
      invariant s !in list[..i]
    {
      if list[i] == s {
        return true;
      }
    }
  }

  function Replaced(list: seq<string>, from: string, to: string): (r: seq<string>)
    ensures |r| == |list|
  {
    seq(|list|, i requires 0 <= i < |list| => if list[i] == from then to else list[i])
  }

  /** `Replace`. */
  method Replace(a: array<string>, from: string, to: string)
    modifies a
    ensures a[..] == Replaced(old(a[..]), from, to)
  {
    for i := 0 to a.Length
      invariant forall j | 0 <= j < i :: a[j] == if old(a[j]) == from then to else old(a[j])
      invariant forall j | i <= j < a.Length :: a[j] == old(a[j])
    {
      if a[i] == from {
        a[i] := to;
      }
    }
  }

  // ---------------------------------------------------------------- when Remove is right

  lemma {:induction false} SkipScanKeepsSecond(list: seq<string>, s: string)
    requires AdjacentPair(list, s)
    ensures s in SkipScan(list, s)
  {
    var i, j :| 0 <= i && j == i + 1 && j < |list| && list[i] == s && list[j] == s;
    if list[0] != s {
      assert list[1..][i - 1] == s && list[1..][j - 1] == s;
      SkipScanKeepsSecond(list[1..], s);
    } else if list[1] != s {
      assert list[2..][i - 2] == s && list[2..][j - 2] == s;
      SkipScanKeepsSecond(list[2..], s);
    }
  }

  lemma {:induction false} SkipScanFilters(list: seq<string>, s: string)
    requires !AdjacentPair(list, s)
    ensures SkipScan(list, s) == Without(list, s)
  {
    if list != [] {
      if list[0] != s || |list| == 1 {
        NoPairInTail(list, s, 1);
        SkipScanFilters(list[1..], s);
      } else {
        assert list[1] != s;
        NoPairInTail(list, s, 2);
        SkipScanFilters(list[2..], s);
        assert list[1..][1..] == list[2..];
      }
    }
  }

  /** What the scan puts in front of its own result for the rest of the list. */
  lemma SkipScanStep(list: seq<string>, s: string)
    requires list != []
    ensures list[0] != s ==>
      (multiset(list) == multiset(list[1..]) + multiset{list[0]}
       && multiset(SkipScan(list, s)) == multiset(SkipScan(list[1..], s)) + multiset{list[0]})
    ensures list[0] == s && |list| > 1 ==>
      (multiset(list) == multiset(list[2..]) + multiset{list[1]} + multiset{s}
       && multiset(SkipScan(list, s)) == multiset(SkipScan(list[2..], s)) + multiset{list[1]})
  {
    if list[0] != s {
      assert list == [list[0]] + list[1..];
    } else if |list| > 1 {
      assert list == [s] + ([list[1]] + list[2..]);
    }
  }

  /** Whatever the duplicates, one removal keeps all other strings and drops at least one copy. */
  lemma {:induction false} SkipScanCounts(list: seq<string>, s: string, x: string)
    ensures x != s ==> multiset(SkipScan(list, s))[x] == multiset(list)[x]
    ensures s in list ==> multiset(SkipScan(list, s))[s] < multiset(list)[s]
    ensures multiset(SkipScan(list, s))[s] <= multiset(list)[s]
    decreases |list|
  {
    if list != [] {
      SkipScanStep(list, s);
      if list[0] != s {
        SkipScanCounts(list[1..], s, x);
      } else if |list| > 1 {
        SkipScanCounts(list[2..], s, x);
      }
    }
  }

  lemma SkipScanMembers(list: seq<string>, s: string, x: string)
    ensures x in SkipScan(list, s) ==> x in list
    ensures x != s && x in list ==> x in SkipScan(list, s)
  {
    SkipScanCounts(list, s, x);
    assert x in list <==> x in multiset(list);
    assert x in SkipScan(list, s) <==> x in multiset(SkipScan(list, s));
  }

  /** `at` lists, in order, the places of `list` that `r` keeps; every other place holds `s`. */
  ghost predicate Embeds(r: seq<string>, list: seq<string>, s: string, at: seq<nat>) {
    && |at| == |r|
    && (forall k | 0 <= k < |r| :: at[k] < |list| && r[k] == list[at[k]])
    && (forall k, l | 0 <= k < l < |at| :: at[k] < at[l])
    && (forall j: nat | j < |list| && j !in at :: list[j] == s)
  }

  function Later(at: seq<nat>): (r: seq<nat>)
    ensures |r| == |at| && forall k | 0 <= k < |at| :: r[k] == at[k] + 1
    ensures forall j: nat :: j + 1 in r <==> j in at
  {
    var r: seq<nat> := seq(|at|, k requires 0 <= k < |at| => at[k] + 1);
    assert forall k | 0 <= k < |at| :: r[k] == at[k] + 1;
    assert forall j: nat | j in at :: j + 1 in r by {
      forall j: nat | j in at ensures j + 1 in r {
        var k :| 0 <= k < |at| && at[k] == j;
        assert r[k] == j + 1;
      }
    }
    r
  }

  lemma EmbedsDropped(r: seq<string>, list: seq<string>, s: string, at: seq<nat>)
    requires Embeds(r, list, s, at)
    ensures Embeds(r, [s] + list, s, Later(at))
  {
    var all := [s] + list;
    forall j: nat | j < |all| && j !in Later(at) ensures all[j] == s {
      assert j > 0 ==> j - 1 !in at && all[j] == list[j - 1];
    }
  }

  lemma EmbedsKept(x: string, r: seq<string>, list: seq<string>, s: string, at: seq<nat>)
    requires Embeds(r, list, s, at)
    ensures Embeds([x] + r, [x] + list, s, [0] + Later(at))
  {
    var later := Later(at);
    EmbedsDropped(r, list, s, at);
    KeptFirst(x, r, list, s, later);
  }

  lemma KeptFirst(x: string, r: seq<string>, list: seq<string>, s: string, later: seq<nat>)
    requires Embeds(r, [s] + list, s, later) && forall k | 0 <= k < |later| :: later[k] > 0
    ensures Embeds([x] + r, [x] + list, s, [0] + later)
  {
    assert forall j | 0 < j <= |list| :: ([x] + list)[j] == ([s] + list)[j];
    assert forall j :: j in [0] + later <==> j == 0 || j in later;
  }

  /** What follows a kept place in `list` is dropped or follows in `r`. */
  lemma EmbeddedAfter(r: seq<string>, list: seq<string>, s: string, at: seq<nat>, i: nat, m: nat)
    requires Embeds(r, list, s, at) && i < |r| && at[i] < m < |list|
    ensures list[m] == s || exists k | i < k < |r| :: r[k] == list[m]
  {
    if m in at {
      var k :| 0 <= k < |at| && at[k] == m;
      assert k > i && r[k] == list[m];
    }
  }

  lemma EmbedsPassing(list: seq<string>, s: string, at: seq<nat>)
    requires list != [] && list[0] != s && Embeds(SkipScan(list[1..], s), list[1..], s, at)
    ensures Embeds(SkipScan(list, s), list, s, [0] + Later(at))
  {
    EmbedsKept(list[0], SkipScan(list[1..], s), list[1..], s, at);
    assert list == [list[0]] + list[1..];
  }

  lemma EmbedsRemoving(list: seq<string>, s: string, at: seq<nat>)
    requires |list| > 1 && list[0] == s && Embeds(SkipScan(list[2..], s), list[2..], s, at)
    ensures Embeds(SkipScan(list, s), list, s, Later([0] + Later(at)))
  {
    var x, r, rest := list[1], SkipScan(list[2..], s), list[2..];
    EmbedsKept(x, r, rest, s, at);
    EmbedsDropped([x] + r, [x] + rest, s, [0] + Later(at));
    assert list == [s] + ([x] + rest);
  }

  /** One removal leaves a subsequence and drops nothing but copies of its string. */
  lemma {:induction false} SkipScanEmbeds(list: seq<string>, s: string) returns (at: seq<nat>)
    ensures Embeds(SkipScan(list, s), list, s, at)
    decreases |list|
  {
    if list == [] || (list[0] == s && |list| == 1) {
      at := [];
    } else if list[0] != s {
      var rest := SkipScanEmbeds(list[1..], s);
      EmbedsPassing(list, s, rest);
      at := [0] + Later(rest);
    } else {
      var rest := SkipScanEmbeds(list[2..], s);
      EmbedsRemoving(list, s, rest);
      at := Later([0] + Later(rest));
    }
  }

  lemma {:induction false} SkipScanShortens(list: seq<string>, s: string)
    ensures |SkipScan(list, s)| <= |list| && (s in list ==> |SkipScan(list, s)| < |list|)
    decreases |list|
  {
    if list != [] {
      SkipScanShortens(list[1..], s);
      if |list| > 1 {
        SkipScanShortens(list[2..], s);
      }
    }
  }

  lemma NoPairInTail(list: seq<string>, s: string, d: nat)
    requires d <= |list| && !AdjacentPair(list, s)
    ensures !AdjacentPair(list[d..], s)
  {
  }

  /** Exactly the lists on which `Remove` neither runs off its slice nor leaves anything but the
      filtered list: `s` never twice in a row, and not last unless it occurs once. */
  lemma RemoveRightIff(list: seq<string>, s: string)
    ensures (!RunsOff(list, s) && SkipScan(list, s) == Without(list, s))
       <==> (!AdjacentPair(list, s) && (list != [] && list[|list| - 1] == s ==> s !in list[..|list| - 1]))
  {
    if AdjacentPair(list, s) {
      SkipScanKeepsSecond(list, s);
    } else {
      SkipScanFilters(list, s);
    }
  }

  /** Duplicate-free lists are among them. */
  lemma RemoveFromDuplicateFree(list: seq<string>, s: string)
    requires NoDuplicates(list)
    ensures !RunsOff(list, s) && SkipScan(list, s) == Without(list, s)
  {
    RemoveRightIff(list, s);
  }

  // ---------------------------------------------------------------- duplicate-freedom is kept

  lemma {:induction false} WithoutKeepsNoDuplicates(list: seq<string>, s: string)
    requires NoDuplicates(list)
    ensures NoDuplicates(Without(list, s))
  {
    if list != [] {
      WithoutKeepsNoDuplicates(list[1..], s);
      assert list[0] !in list[1..];
      assert list[0] !in Without(list[1..], s);
    }
  }

  /** Replacing keeps a duplicate-free list duplicate-free exactly when not both strings occur. */
  lemma ReplaceNoDuplicatesIff(list: seq<string>, from: string, to: string)
    requires NoDuplicates(list) && from != to
    ensures NoDuplicates(Replaced(list, from, to)) <==> !(from in list && to in list)
  {
    var r := Replaced(list, from, to);
    if from in list && to in list {
      var i, j :| 0 <= i < |list| && 0 <= j < |list| && list[i] == from && list[j] == to;
      assert r[i] == r[j];
    }
  }
}
