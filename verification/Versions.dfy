/** pkg/resources/version.go: parsing, printing and ordering of operator versions. */
module Versions {
  import opened Options
  import opened Numerals

  datatype Version = Version(major: nat, minor: nat, patch: nat) {
    predicate Equals(o: Version) { major == o.major && minor == o.minor && patch == o.patch }

    predicate IsNewerThan(o: Version) {
      || major > o.major
      || (major == o.major && minor > o.minor)
      || (major == o.major && minor == o.minor && patch > o.patch)
    }
  }

  datatype Parts = Parts(major: string, minor: string, patch: string)

  /** The regular expression `^[Vv]?([0-9]+)\.([0-9]+)(\.|\-)([0-9]+)$`, as the strings it matches. */
  ghost predicate Matches(s: string, p: Parts) {
    && IsNumeral(p.major) && IsNumeral(p.minor) && IsNumeral(p.patch)
    && exists prefix, sep | prefix in {"", "V", "v"} && sep in {'.', '-'} :: s == Spelled(prefix, p, sep)
  }

  function Spelled(prefix: string, p: Parts, sep: char): string { prefix + Body(p, sep) }

  function Body(p: Parts, sep: char): string { p.major + (['.'] + Tail(p, sep)) }

  function Tail(p: Parts, sep: char): string { p.minor + ([sep] + p.patch) }

  function WithoutV(s: string): string {
    if s != "" && (s[0] == 'V' || s[0] == 'v') then s[1..] else s
  }

  /** The submatches, found from left to right. */
  function Split(s: string): Option<Parts> {
    match Cut(WithoutV(s))
    case None => None
    case Some(x) =>
      match Cut(x.rest)
      case None => None
      case Some(y) =>
        if x.next == '.' && (y.next == '.' || y.next == '-') && IsNumeral(y.rest)
        then Some(Parts(x.digits, y.digits, y.rest)) else None
  }

  function NewVersion(s: string): Option<Version> {
    match Split(s)
    case None => None
    case Some(p) =>
      SplitIsDigits(s);
      match (Atoi(p.major), Atoi(p.minor), Atoi(p.patch))
      case (Some(x), Some(y), Some(z)) => Some(Version(x, y, z))
      case _ => None
  }

  function AsString(v: Version): string {
    Print(v.major) + (['.'] + (Print(v.minor) + (['.'] + Print(v.patch))))
  }

  lemma SplitIsDigits(s: string)
    requires Split(s).Some?
    ensures var p := Split(s).value; AllDigits(p.major) && AllDigits(p.minor) && AllDigits(p.patch)
  {
  }

  // ---------------------------------------------------------------- the parser and the expression

  lemma SplitSound(s: string)
    requires Split(s).Some?
    ensures Matches(s, Split(s).value)
  {
    var p, t := Split(s).value, WithoutV(s);
    var x := Cut(t).value;
    var y := Cut(x.rest).value;
    CutIff(t, x);
    CutIff(x.rest, y);
    assert t == Body(p, y.next);
    var prefix := LeadingV(s);
    assert s == Spelled(prefix, p, y.next);
  }

  lemma LeadingV(s: string) returns (prefix: string)
    ensures prefix in {"", "V", "v"} && s == prefix + WithoutV(s)
  {
    prefix := if s != "" && (s[0] == 'V' || s[0] == 'v') then [s[0]] else "";
    assert s == prefix + WithoutV(s);
    assert prefix == "" || prefix == "V" || prefix == "v";
  }

  lemma SplitComplete(s: string, p: Parts)
    requires Matches(s, p)
    ensures Split(s) == Some(p)
  {
    var prefix, sep :| prefix in {"", "V", "v"} && sep in {'.', '-'} && s == Spelled(prefix, p, sep);
    WithoutPrefix(prefix, p, sep);
    CutIff(Body(p, sep), Pieces(p.major, '.', Tail(p, sep)));
    CutIff(Tail(p, sep), Pieces(p.minor, sep, p.patch));
  }

  lemma WithoutPrefix(prefix: string, p: Parts, sep: char)
    requires prefix in {"", "V", "v"} && IsNumeral(p.major)
    ensures WithoutV(Spelled(prefix, p, sep)) == Body(p, sep)
  {
    assert p.major[0] in p.major;
    assert Body(p, sep)[0] == p.major[0];
  }

  /** The left-to-right parser finds exactly the submatches of the regular expression. */
  lemma SplitIffMatches(s: string, p: Parts)
    ensures Split(s) == Some(p) <==> Matches(s, p)
  {
    if Split(s) == Some(p) {
      SplitSound(s);
    }
    if Matches(s, p) {
      SplitComplete(s, p);
    }
  }

  /** A string that matches is accepted exactly when its three numbers fit an `int`, and the version
      then holds those numbers. */
  lemma NewVersionIff(s: string, p: Parts, v: Version)
    requires Matches(s, p)
    ensures NewVersion(s) == Some(v) <==> Denotes(p, v)
  {
    SplitComplete(s, p);
  }

  /** Nothing else is accepted. */
  lemma NewVersionNeedsMatch(s: string)
    ensures NewVersion(s).Some? ==> exists p :: Matches(s, p)
  {
    if NewVersion(s).Some? {
      SplitSound(s);
    }
  }

  /** The three numerals have the version's components as values, and each fits an `int`. */
  predicate Denotes(p: Parts, v: Version) {
    && AllDigits(p.major) && AllDigits(p.minor) && AllDigits(p.patch)
    && Value(p.major) == v.major <= MAX_INT
    && Value(p.minor) == v.minor <= MAX_INT
    && Value(p.patch) == v.patch <= MAX_INT
  }

  // ---------------------------------------------------------------- round trips

  /** Every version whose components fit an `int` is read back as printed. */
  lemma ParseOfPrint(v: Version)
    requires v.major <= MAX_INT && v.minor <= MAX_INT && v.patch <= MAX_INT
    ensures NewVersion(AsString(v)) == Some(v)
  {
    var p := Parts(Print(v.major), Print(v.minor), Print(v.patch));
    ValueOfPrint(v.major);
    ValueOfPrint(v.minor);
    ValueOfPrint(v.patch);
    PrintMatches(v, p);
    NewVersionIff(AsString(v), p, v);
  }

  lemma PrintMatches(v: Version, p: Parts)
    requires p == Parts(Print(v.major), Print(v.minor), Print(v.patch))
    ensures Matches(AsString(v), p)
  {
    assert AsString(v) == Spelled("", p, '.');
  }

  /** Printing a parsed string normalises it: it still denotes the same version, and normalising
      again changes nothing, whatever prefix, separator or leading zeros the string had. */
  lemma PrintOfParseNormalises(s: string)
    requires NewVersion(s).Some?
    ensures var t := AsString(NewVersion(s).value);
      NewVersion(t) == NewVersion(s) && AsString(NewVersion(t).value) == t
  {
    SplitIsDigits(s);
    ParseOfPrint(NewVersion(s).value);
  }

  /** The version as one number, in a base that none of the smaller components reaches. */
  function Weight(v: Version, base: nat): nat { (v.major * base + v.minor) * base + v.patch }

  lemma DigitsDecide(a: nat, b: nat, x: nat, y: nat, base: nat)
    requires x < base && y < base
    ensures a * base + x > b * base + y <==> (a > b || (a == b && x > y))
  {
    if a > b {
      assert a * base >= (b + 1) * base;
    } else if a < b {
      assert b * base >= (a + 1) * base;
    }
  }

  /** The newer of two versions is the one that weighs more: a larger major version counts first, then a
      larger minor one, then a larger patch. */
  lemma NewerIffHeavier(a: Version, b: Version, base: nat)
    requires a.minor < base && a.patch < base && b.minor < base && b.patch < base
    ensures a.IsNewerThan(b) <==> Weight(a, base) > Weight(b, base)
    ensures a.Equals(b) <==> Weight(a, base) == Weight(b, base)
  {
    DigitsDecide(a.major, b.major, a.minor, b.minor, base);
    DigitsDecide(b.major, a.major, b.minor, a.minor, base);
    DigitsDecide(a.major * base + a.minor, b.major * base + b.minor, a.patch, b.patch, base);
    DigitsDecide(b.major * base + b.minor, a.major * base + a.minor, b.patch, a.patch, base);
  }

  /** `IsNewerThan` is a strict total order whose equality is `Equals`. */
  lemma NewerIsStrictTotalOrder(a: Version, b: Version, c: Version)
    ensures !a.IsNewerThan(a)
    ensures a.IsNewerThan(b) && b.IsNewerThan(c) ==> a.IsNewerThan(c)
    ensures a.IsNewerThan(b) || b.IsNewerThan(a) || a.Equals(b)
    ensures a.Equals(b) <==> a == b
    ensures a.Equals(b) ==> !a.IsNewerThan(b)
  {
  }
}
