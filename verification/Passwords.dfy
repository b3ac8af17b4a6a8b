/** pkg/resources/password.go: characters drawn class by class, then shuffled in place. */
module Passwords {
  import opened Options

  const LOWER := "abcdedfghijklmnopqrst"
  const UPPER := "ABCDEFGHIJKLMNOPQRSTUVWXYZ"
  const SPECIAL := "!@#$%&*"
  const NUMBERS := "0123456789"
  const ALL := LOWER + UPPER + SPECIAL + NUMBERS

  /** The random source: the k-th draw below `bound`, or a failure. */
  type Source = (nat, nat) -> Option<nat>

  ghost predicate InRange(random: Source) {
    forall k: nat, bound: nat | bound > 0 && random(k, bound).Some? :: random(k, bound).value < bound
  }

  function Max0(n: int): nat { if n > 0 then n else 0 }

  // ---------------------------------------------------------------- counting a class of characters

  function Count(s: string, kind: string): nat {
    if s == "" then 0
    else Count(s[..|s| - 1], kind) + if s[|s| - 1] in kind then 1 else 0
  }

  lemma {:induction false} CountOfConcat(s: string, t: string, kind: string)
    ensures Count(s + t, kind) == Count(s, kind) + Count(t, kind)
  {
    if t == "" {
      assert s + t == s;
    } else {
      var u := s + t;
      assert u[..|u| - 1] == s + t[..|t| - 1];
      CountOfConcat(s, t[..|t| - 1], kind);
    }
  }

  lemma {:induction false} CountAll(s: string, kind: string)
    requires forall c | c in s :: c in kind
    ensures Count(s, kind) == |s|
  {
    if s != "" {
      CountAll(s[..|s| - 1], kind);
    }
  }

  lemma CountOfOne(c: char, kind: string)
    ensures Count([c], kind) == if c in kind then 1 else 0
  {
    assert [c][..0] == "";
    assert Count("", kind) == 0;
  }

  function Removed(s: string, i: nat): string
    requires i < |s|
  {
    s[..i] + s[i + 1..]
  }

  lemma CountOfRemoved(s: string, i: nat, kind: string)
    requires i < |s|
    ensures Count(s, kind) == Count(Removed(s, i), kind) + if s[i] in kind then 1 else 0
  {
    assert s == s[..i] + ([s[i]] + s[i + 1..]);
    CountOfConcat(s[..i], [s[i]] + s[i + 1..], kind);
    CountOfConcat([s[i]], s[i + 1..], kind);
    CountOfConcat(s[..i], s[i + 1..], kind);
    CountOfOne(s[i], kind);
  }

  lemma RemovedMultiset(s: string, i: nat)
    requires i < |s|
    ensures multiset(Removed(s, i)) == multiset(s) - multiset{s[i]}
  {
    assert s == s[..i] + ([s[i]] + s[i + 1..]);
  }

  /** Rearranging a string keeps the count of every class. */
  lemma {:induction false} CountOfPermutation(s: string, t: string, kind: string)
    requires multiset(s) == multiset(t)
    ensures Count(s, kind) == Count(t, kind)
    decreases |s|
  {
    if s == "" {
      assert |multiset(t)| == 0;
    } else {
      assert s[0] in multiset(t);
      var i :| 0 <= i < |t| && t[i] == s[0];
      RemovedMultiset(s, 0);
      RemovedMultiset(t, i);
      CountOfRemoved(s, 0, kind);
      CountOfRemoved(t, i, kind);
      CountOfPermutation(Removed(s, 0), Removed(t, i), kind);
    }
  }

  // ---------------------------------------------------------------- drawing

  /** One of the `n` draws from the `drawn`-th on fails. */
  ghost predicate DrawFails(random: Source, drawn: nat, n: int, bound: nat) {
    exists k: nat | drawn <= k < drawn + n :: random(k, bound).None?
  }

  /** `after` is `before` followed by `n` characters of a set. */
  ghost predicate Extends(before: string, after: string, chars: string, n: int) {
    && |after| == |before| + Max0(n)
    && after[..|before|] == before
    && forall c | c in after[|before|..] :: c in chars
  }

  /** `c` is the character of the set that the `k`-th draw picks. */
  predicate Drawn(random: Source, k: nat, chars: string, c: char) {
    random(k, |chars|).Some? && random(k, |chars|).value < |chars| && c == chars[random(k, |chars|).value]
  }

  /** One of the four loops: `n` characters of a set appended, or a failure of the source. */
  method Append(password: string, chars: string, n: int, random: Source, drawn: nat) returns (r: Option<string>)
    requires InRange(random) && chars != ""
    ensures r.None? <==> DrawFails(random, drawn, n, |chars|)
    ensures r.Some? ==> Extends(password, r.value, chars, n)
    ensures r.Some? ==> forall j | |password| <= j < |r.value| ::
      Drawn(random, drawn + j - |password|, chars, r.value[j])
  {
    var s := password;
    var i := 0;
    while i < n
      invariant 0 <= i <= Max0(n) && Extends(password, s, chars, i)
      invariant !DrawFails(random, drawn, i, |chars|)
      invariant forall j | |password| <= j < |s| :: Drawn(random, drawn + j - |password|, chars, s[j])
    {
      var j := random(drawn + i, |chars|);
      if j.None? {
        return None;
      }
      var c := chars[j.value];
      assert (s + [c])[|password|..] == s[|password|..] + [c];
      s := s + [c];
      i := i + 1;
    }
    r := Some(s);
  }

  /** A loop adds its length to the count of its own set and lowers the count of none. */
  lemma ExtendedCount(before: string, after: string, chars: string, n: int, kind: string)
    requires Extends(before, after, chars, n)
    ensures Count(after, kind) >= Count(before, kind)
    ensures kind == chars ==> Count(after, kind) == Count(before, kind) + Max0(n)
  {
    assert after == before + after[|before|..];
    CountOfConcat(before, after[|before|..], kind);
    if kind == chars {
      CountAll(after[|before|..], kind);
    }
  }

  lemma ExtendedWithin(before: string, after: string, chars: string, n: int)
    requires Extends(before, after, chars, n)
    requires (forall c | c in before :: c in ALL) && forall c | c in chars :: c in ALL
    ensures forall c | c in after :: c in ALL
  {
    assert after == before + after[|before|..];
  }

  // ---------------------------------------------------------------- shuffling

  /** Indices a shuffle may draw, by the position they are drawn for. */
  predicate Picks(picks: seq<nat>) { forall i | 0 <= i < |picks| :: picks[i] <= i }

  function Swapped(s: string, i: nat, j: nat): (r: string)
    requires i < |s| && j < |s|
    ensures |r| == |s|
  {
    s[i := s[j]][j := s[i]]
  }

  /** As many leading characters shuffled as there are picks: the last of them is exchanged with the
      picked one, and so on down. */
  function Shuffled(s: string, picks: seq<nat>): (r: string)
    requires |picks| <= |s| && Picks(picks)
    ensures |r| == |s|
    decreases |picks|
  {
    var n := |picks| - 1;
    if n <= 0 then s else Shuffled(Swapped(s, n, picks[n]), picks[..n])
  }

  lemma SwappedPermutes(s: string, i: nat, j: nat)
    requires i < |s| && j < |s|
    ensures multiset(Swapped(s, i, j)) == multiset(s)
  {
  }

  /** A shuffle only rearranges. */
  lemma {:induction false} ShuffledPermutes(s: string, picks: seq<nat>)
    requires |picks| <= |s| && Picks(picks)
    ensures multiset(Shuffled(s, picks)) == multiset(s)
    decreases |picks|
  {
    var n := |picks| - 1;
    if n > 0 {
      SwappedPermutes(s, n, picks[n]);
      ShuffledPermutes(Swapped(s, n, picks[n]), picks[..n]);
    }
  }

  /** `Rand.Shuffle` with the swap the program gives it. */
  method Shuffle(a: array<char>, picks: seq<nat>)
    requires |picks| == a.Length && Picks(picks)
    modifies a
    ensures a[..] == Shuffled(old(a[..]), picks)
  {
    var i := a.Length;
    assert picks[..i] == picks;
    while i > 1
      invariant 0 <= i <= a.Length
      invariant Shuffled(a[..], picks[..i]) == Shuffled(old(a[..]), picks)
    {
      ghost var before := a[..];
      i := i - 1;
      var j := picks[i];
      a[i], a[j] := a[j], a[i];
      assert a[..] == Swapped(before, i, j);
      assert picks[..i + 1][..i] == picks[..i];
    }
  }

  lemma LastRemoved(s: string, t: string, n: nat)
    requires 0 < n <= |s| && n <= |t| && multiset(s[..n]) == multiset(t[..n]) && s[n - 1] == t[n - 1]
    ensures multiset(s[..n - 1]) == multiset(t[..n - 1])
  {
    assert s[..n] == s[..n - 1] + [s[n - 1]] && t[..n] == t[..n - 1] + [t[n - 1]];
    assert multiset(s[..n - 1]) == multiset(s[..n]) - multiset{s[n - 1]};
    assert multiset(t[..n - 1]) == multiset(t[..n]) - multiset{t[n - 1]};
  }

  lemma SwappedPrefix(s: string, n: nat, j: nat)
    requires j < n <= |s|
    ensures multiset(Swapped(s, n - 1, j)[..n]) == multiset(s[..n]) && Swapped(s, n - 1, j)[n..] == s[n..]
  {
    SwappedPermutes(s[..n], n - 1, j);
    assert Swapped(s, n - 1, j)[..n] == Swapped(s[..n], n - 1, j);
  }

  lemma PicksExtend(picks: seq<nat>, j: nat)
    requires Picks(picks) && j <= |picks|
    ensures Picks(picks + [j])
  {
  }

  lemma LastPlaced(s: string, t: string, n: nat) returns (j: nat)
    requires 0 < n <= |s| == |t| && multiset(s[..n]) == multiset(t[..n]) && s[n..] == t[n..]
    ensures j < n
    ensures var u := Swapped(s, n - 1, j); multiset(u[..n - 1]) == multiset(t[..n - 1]) && u[n - 1..] == t[n - 1..]
  {
    assert t[..n][n - 1] in multiset(s[..n]);
    j :| 0 <= j < n && s[..n][j] == t[n - 1];
    var u := Swapped(s, n - 1, j);
    SwappedPrefix(s, n, j);
    LastRemoved(u, t, n);
    assert u[n - 1..] == [u[n - 1]] + u[n..] && t[n - 1..] == [t[n - 1]] + t[n..];
  }

  /** Every arrangement of the characters is the result of some picks. */
  lemma {:induction false} EveryArrangementReachable(s: string, t: string, n: nat) returns (picks: seq<nat>)
    requires n <= |s| == |t| && multiset(s[..n]) == multiset(t[..n]) && s[n..] == t[n..]
    ensures |picks| == n && Picks(picks) && Shuffled(s, picks) == t
    decreases n
  {
    picks := [];
    if n == 0 {
      assert s == s[n..] && t == t[n..];
    } else {
      var j := LastPlaced(s, t, n);
      var u := Swapped(s, n - 1, j);
      var rest := EveryArrangementReachable(u, t, n - 1);
      PicksExtend(rest, j);
      picks := rest + [j];
      assert picks[..n - 1] == rest;
      if n == 1 {
        assert u == s;
      }
    }
  }

  // ---------------------------------------------------------------- the password

  /** The length of the password when the source does not fail. */
  function Length(length: int, special: int, numeric: int, upper: int): (n: nat)
    ensures special >= 0 && numeric >= 0 && upper >= 0 ==>
      n == (var sum := special + numeric + upper; if length > sum then length else sum)
  {
    Max0(special) + Max0(numeric) + Max0(upper) + Max0(length - special - numeric - upper)
  }

  /** Length and character classes of a finished password. */
  ghost predicate Meets(s: string, length: int, special: int, numeric: int, upper: int) {
    && |s| == Length(length, special, numeric, upper)
    && Count(s, SPECIAL) >= special
    && Count(s, NUMBERS) >= numeric
    && Count(s, UPPER) >= upper
    && forall c | c in s :: c in ALL
  }

  /** Some draw of the four loops fails. */
  ghost predicate Fails(random: Source, length: int, special: int, numeric: int, upper: int) {
    var a := Max0(special);
    var b := a + Max0(numeric);
    var c := b + Max0(upper);
    || DrawFails(random, 0, special, |SPECIAL|)
    || DrawFails(random, a, numeric, |NUMBERS|)
    || DrawFails(random, b, upper, |UPPER|)
    || DrawFails(random, c, length - special - numeric - upper, |ALL|)
  }

  /** The four loops one after another give what was asked for. */
  lemma DrawsMeet(s: string, n: string, u: string, w: string, length: int, special: int, numeric: int, upper: int)
    requires Extends("", s, SPECIAL, special) && Extends(s, n, NUMBERS, numeric) && Extends(n, u, UPPER, upper)
    requires Extends(u, w, ALL, length - special - numeric - upper)
    ensures Meets(w, length, special, numeric, upper)
  {
    var rest := length - special - numeric - upper;
    ExtendedCount("", s, SPECIAL, special, SPECIAL);
    ExtendedCount(s, n, NUMBERS, numeric, SPECIAL);
    ExtendedCount(s, n, NUMBERS, numeric, NUMBERS);
    ExtendedCount(n, u, UPPER, upper, SPECIAL);
    ExtendedCount(n, u, UPPER, upper, NUMBERS);
    ExtendedCount(n, u, UPPER, upper, UPPER);
    ExtendedCount(u, w, ALL, rest, SPECIAL);
    ExtendedCount(u, w, ALL, rest, NUMBERS);
    ExtendedCount(u, w, ALL, rest, UPPER);
    ExtendedWithin("", s, SPECIAL, special);
    ExtendedWithin(s, n, NUMBERS, numeric);
    ExtendedWithin(n, u, UPPER, upper);
    ExtendedWithin(u, w, ALL, rest);
  }

  /** Rearranging a password keeps all of it. */
  lemma MeetsPermuted(s: string, t: string, length: int, special: int, numeric: int, upper: int)
    requires multiset(s) == multiset(t) && Meets(s, length, special, numeric, upper)
    ensures Meets(t, length, special, numeric, upper)
  {
    assert |multiset(s)| == |multiset(t)|;
    CountOfPermutation(s, t, SPECIAL);
    CountOfPermutation(s, t, NUMBERS);
    CountOfPermutation(s, t, UPPER);
    assert forall c | c in t :: c in multiset(s);
  }

  method Draw(length: int, special: int, numeric: int, upper: int, random: Source) returns (r: Option<string>)
    requires InRange(random)
    ensures r.None? <==> Fails(random, length, special, numeric, upper)
    ensures r.Some? ==> Meets(r.value, length, special, numeric, upper)
  {
    var drawn := Max0(special);
    var s := Append("", SPECIAL, special, random, 0);
    if s.None? { return None; }
    var n := Append(s.value, NUMBERS, numeric, random, drawn);
    if n.None? { return None; }
    drawn := drawn + Max0(numeric);
    var u := Append(n.value, UPPER, upper, random, drawn);
    if u.None? { return None; }
    drawn := drawn + Max0(upper);
    var w := Append(u.value, ALL, length - special - numeric - upper, random, drawn);
    if w.None? { return None; }
    DrawsMeet(s.value, n.value, u.value, w.value, length, special, numeric, upper);
    r := w;
  }

  /** The whole generator; `picks` are the indices the shuffle draws. */
  method GenerateRandomPassword(length: int, special: int, numeric: int, upper: int, random: Source, picks: seq<nat>)
    returns (password: string)
    requires InRange(random) && |picks| == Length(length, special, numeric, upper) && Picks(picks)
    ensures Fails(random, length, special, numeric, upper) ==> password == ""
    ensures !Fails(random, length, special, numeric, upper) ==> Meets(password, length, special, numeric, upper)
  {
    var s := Draw(length, special, numeric, upper, random);
    if s.None? { return ""; }
    var a := new char[|s.value|](i requires 0 <= i < |s.value| => s.value[i]);
    assert a[..] == s.value;
    Shuffle(a, picks);
    password := a[..];
    ShuffledPermutes(s.value, picks);
    MeetsPermuted(s.value, password, length, special, numeric, upper);
  }
}
