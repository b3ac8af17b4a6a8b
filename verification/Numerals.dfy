/** Decimal numerals as Go reads and prints them (`strconv.Atoi`, `%d`). */
module Numerals {
  import opened Options

  const MAX_INT: int := 0x7FFF_FFFF_FFFF_FFFF

  predicate IsDigit(c: char) { '0' <= c <= '9' }

  predicate AllDigits(s: string) { forall c | c in s :: IsDigit(c) }

  function Digit(c: char): nat { if IsDigit(c) then c as nat - '0' as nat else 0 }

  function Value(s: string): nat
    requires AllDigits(s)
  {
    if s == "" then 0
    else 10 * Value(s[..|s| - 1]) + Digit(s[|s| - 1])
  }

  function Print(n: nat): (s: string)
    ensures s != "" && AllDigits(s)
  {
    if n < 10 then ['0' + n as char] else Print(n / 10) + ['0' + (n % 10) as char]
  }

  /** Printing and reading back gives the same number. */
  lemma {:induction false} ValueOfPrint(n: nat)
    ensures Value(Print(n)) == n
  {
    if n < 10 {
      assert Print(n)[..0] == "";
    } else {
      ValueOfPrint(n / 10);
      var s := Print(n);
      assert s[..|s| - 1] == Print(n / 10);
    }
  }

  /** `strconv.Atoi` on a string of digits. */
  function Atoi(s: string): (r: Option<nat>)
    requires AllDigits(s)
  {
    if Value(s) <= MAX_INT then Some(Value(s)) else None
  }

  /** The length of the longest prefix of digits. */
  function DigitPrefix(s: string): (n: nat)
    ensures n <= |s| && AllDigits(s[..n]) && (n < |s| ==> !IsDigit(s[n]))
  {
    if s == "" || !IsDigit(s[0]) then 0
    else
      var n := 1 + DigitPrefix(s[1..]);
      assert s[..n] == [s[0]] + s[1..][..n - 1];
      n
  }

  /** Digits followed by something that is no digit: the prefix found is exactly those digits. */
  lemma {:induction false} DigitPrefixOfConcat(d: string, t: string)
    requires AllDigits(d) && (t == "" || !IsDigit(t[0]))
    ensures DigitPrefix(d + t) == |d|
  {
    if d == "" {
      assert d + t == t;
    } else {
      assert (d + t)[0] == d[0] && (d + t)[1..] == d[1..] + t;
      DigitPrefixOfConcat(d[1..], t);
    }
  }

  /** A string cut after its leading digits: the digits, the next character and what follows. */
  datatype Pieces = Pieces(digits: string, next: char, rest: string)

  function Cut(s: string): Option<Pieces> {
    var n := DigitPrefix(s);
    if n == 0 || n == |s| then None else Some(Pieces(s[..n], s[n], s[n + 1..]))
  }

  function Pasted(p: Pieces): string { p.digits + ([p.next] + p.rest) }

  /** A string can be cut in at most one way, and `Cut` finds it when there is one. */
  lemma CutIff(s: string, p: Pieces)
    ensures Cut(s) == Some(p) <==> (p.digits != "" && AllDigits(p.digits) && !IsDigit(p.next) && s == Pasted(p))
  {
    if Cut(s) == Some(p) {
      assert s[..|p.digits|] + ([p.next] + p.rest) == s;
    }
    if p.digits != "" && AllDigits(p.digits) && !IsDigit(p.next) && s == Pasted(p) {
      DigitPrefixOfConcat(p.digits, [p.next] + p.rest);
      assert s[..|p.digits|] == p.digits && s[|p.digits|] == p.next && s[|p.digits| + 1..] == p.rest;
    }
  }

  predicate IsNumeral(s: string) { s != "" && AllDigits(s) }
}
