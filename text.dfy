/** The string operations the request handler applies to the raw request,
    with the semantics of the MicroPython interpreter the controller runs on:
    `s.split('\n', 1)[0]`, `s.strip()`, `s.split()`, `s.split('/')`,
    `s.startswith(p)` (written `p <= s`) and `int(s)`. */
module Text {
  import opened Wrappers

  /** The interpreter's whitespace test (ASCII only): space, \t, \n, \v, \f, \r. */
  predicate IsSpace(c: char) {
    c == ' ' || '\t' <= c <= '\r'
  }

  predicate NoSpace(s: string) {
    forall i :: 0 <= i < |s| ==> !IsSpace(s[i])
  }

  // ---------------------------------------------------------------------
  // First line of the request: `s.split('\n', 1)[0]`
  // ---------------------------------------------------------------------

  /** Everything before the first '\n' (all of `s` when there is none). */
  function FirstLine(s: string): (r: string)
    ensures r <= s && '\n' !in r
    ensures |r| < |s| ==> s[|r|] == '\n'
  {
    if s == [] || s[0] == '\n' then [] else [s[0]] + FirstLine(s[1..])
  }

  /** The contract of FirstLine determines its result: a line without a
      newline, followed by a newline, is exactly the first line. */
  lemma FirstLineOf(line: string, rest: string)
    requires '\n' !in line
    ensures FirstLine(line + "\n" + rest) == line
  {
    var s := line + "\n" + rest;
    assert forall k :: 0 <= k < |line| ==> s[k] == line[k] && line[k] in line;
    assert s[|line|] == '\n';
  }

  // ---------------------------------------------------------------------
  // `s.strip()`
  // ---------------------------------------------------------------------

  function TrimStart(s: string): (r: string)
    ensures r == [] || !IsSpace(r[0])
    ensures |r| <= |s| && r == s[|s| - |r|..]
  {
    if s != [] && IsSpace(s[0]) then TrimStart(s[1..]) else s
  }

  function TrimEnd(s: string): (r: string)
    ensures r == [] || !IsSpace(r[|r| - 1])
    ensures r <= s
  {
    if s != [] && IsSpace(s[|s| - 1]) then TrimEnd(s[..|s| - 1]) else s
  }

  /** Python's `s.strip()`. */
  function Strip(s: string): string {
    TrimEnd(TrimStart(s))
  }

  /** `strip()` leaves no whitespace at either end, and keeps a text that
      has none there as it is. */
  lemma StripTrims(s: string)
    ensures |Strip(s)| <= |s|
    ensures Strip(s) == [] || (!IsSpace(Strip(s)[0]) && !IsSpace(Strip(s)[|Strip(s)| - 1]))
    ensures s != [] && !IsSpace(s[0]) && !IsSpace(s[|s| - 1]) ==> Strip(s) == s
  {
    var t := TrimStart(s);
    var r := TrimEnd(t);
    assert Strip(s) == r;
    if r != [] {
      assert r[0] == t[0];
    }
    if s != [] && !IsSpace(s[0]) && !IsSpace(s[|s| - 1]) {
      assert t == s;
      assert r == s;
    }
  }

  // ---------------------------------------------------------------------
  // `s.split()`: maximal runs of non-space characters
  // ---------------------------------------------------------------------

  /** The leading run of non-space characters of `s`. */
  function Word(s: string): (w: string)
    ensures w <= s && NoSpace(w)
    ensures |w| < |s| ==> IsSpace(s[|w|])
  {
    if s == [] || IsSpace(s[0]) then [] else [s[0]] + Word(s[1..])
  }

  /** Python's `s.split()` with no separator: the words of `s`, in order;
      none is empty and none holds whitespace. */
  function Tokens(s: string): (ts: seq<string>)
    ensures forall i :: 0 <= i < |ts| ==> ts[i] != [] && NoSpace(ts[i])
    decreases |s|
  {
    if s == [] then []
    else if IsSpace(s[0]) then Tokens(s[1..])
    else
      var w := Word(s);
      [w] + Tokens(s[|w|..])
  }

  /** Words joined by single spaces: the partner of Tokens. */
  function Unwords(ts: seq<string>): string
  {
    if ts == [] then []
    else if |ts| == 1 then ts[0]
    else ts[0] + " " + Unwords(ts[1..])
  }

  lemma {:induction false} WordOfWordThenSpace(w: string, rest: string)
    requires NoSpace(w)
    ensures Word(w + " " + rest) == w
  {
    if w != [] {
      assert (w + " " + rest)[1..] == w[1..] + " " + rest;
      WordOfWordThenSpace(w[1..], rest);
    }
  }

  lemma {:induction false} WordOfWord(w: string)
    requires NoSpace(w)
    ensures Word(w) == w
  {
    if w != [] {
      WordOfWord(w[1..]);
    }
  }

  /** A word followed by a space is the first word. */
  lemma TokensOfWordThenSpace(w: string, rest: string)
    requires w != [] && NoSpace(w)
    ensures Tokens(w + " " + rest) == [w] + Tokens(rest)
  {
    var s := w + " " + rest;
    WordOfWordThenSpace(w, rest);
    assert s[|w|..] == " " + rest;
    assert (" " + rest)[1..] == rest;
  }

  /** Splitting words joined by single spaces gives back the words. */
  lemma {:induction false} TokensOfUnwords(ts: seq<string>)
    requires forall i :: 0 <= i < |ts| ==> ts[i] != [] && NoSpace(ts[i])
    ensures Tokens(Unwords(ts)) == ts
  {
    if |ts| == 1 {
      var w := ts[0];
      WordOfWord(w);
      assert w[|w|..] == [];
    } else if |ts| > 1 {
      var w, rest := ts[0], Unwords(ts[1..]);
      var s := w + " " + rest;
      WordOfWordThenSpace(w, rest);
      assert s[|w|..] == " " + rest;
      assert (" " + rest)[1..] == rest;
      TokensOfUnwords(ts[1..]);
    }
  }

  lemma {:induction false} WordIgnoresTrailingSpace(s: string, c: char)
    requires IsSpace(c)
    ensures Word(s + [c]) == Word(s)
  {
    if s != [] && !IsSpace(s[0]) {
      assert (s + [c])[1..] == s[1..] + [c];
      WordIgnoresTrailingSpace(s[1..], c);
    }
  }

  /** Trailing whitespace does not change the words. */
  lemma {:induction false} TokensIgnoreTrailingSpace(s: string, c: char)
    requires IsSpace(c)
    ensures Tokens(s + [c]) == Tokens(s)
    decreases |s|
  {
    if s == [] {
      assert [c][1..] == [];
    } else if IsSpace(s[0]) {
      assert (s + [c])[1..] == s[1..] + [c];
      TokensIgnoreTrailingSpace(s[1..], c);
    } else {
      var w := Word(s);
      WordIgnoresTrailingSpace(s, c);
      assert (s + [c])[|w|..] == s[|w|..] + [c];
      TokensIgnoreTrailingSpace(s[|w|..], c);
    }
  }

  lemma {:induction false} TokensOfTrimStart(s: string)
    ensures Tokens(TrimStart(s)) == Tokens(s)
  {
    if s != [] && IsSpace(s[0]) {
      TokensOfTrimStart(s[1..]);
    }
  }

  lemma {:induction false} TokensOfTrimEnd(s: string)
    ensures Tokens(TrimEnd(s)) == Tokens(s)
  {
    if s != [] && IsSpace(s[|s| - 1]) {
      var init := s[..|s| - 1];
      TokensOfTrimEnd(init);
      assert s == init + [s[|s| - 1]];
      TokensIgnoreTrailingSpace(init, s[|s| - 1]);
    }
  }

  /** `s.strip().split() == s.split()`: the handler's strip does not change
      the request line's words. */
  lemma TokensOfStrip(s: string)
    ensures Tokens(Strip(s)) == Tokens(s)
  {
    TokensOfTrimEnd(TrimStart(s));
    TokensOfTrimStart(s);
  }

  // ---------------------------------------------------------------------
  // `s.split(sep)` for a one-character separator
  // ---------------------------------------------------------------------

  /** Python's `s.split(sep)`: the pieces between separators, empty ones
      included, so there is always at least one. */
  function Split(s: string, sep: char): (parts: seq<string>)
    ensures |parts| >= 1
    ensures forall i :: 0 <= i < |parts| ==> sep !in parts[i]
    decreases |s|
  {
    if s == [] then [[]]
    else
      var rest := Split(s[1..], sep);
      if s[0] == sep then [[]] + rest
      else [[s[0]] + rest[0]] + rest[1..]
  }

  /** Python's `sep.join(parts)`. */
  function Join(parts: seq<string>, sep: char): string
  {
    if parts == [] then []
    else if |parts| == 1 then parts[0]
    else parts[0] + [sep] + Join(parts[1..], sep)
  }

  /** `sep.join(parts)` starts with the first part and ends with the last. */
  lemma {:induction false} JoinKeepsEnds(parts: seq<string>, sep: char)
    requires parts != []
    ensures parts[0] <= Join(parts, sep)
    ensures var r := Join(parts, sep); var last := parts[|parts| - 1];
            |last| <= |r| && r[|r| - |last|..] == last
    decreases |parts|
  {
    if |parts| > 1 {
      JoinKeepsEnds(parts[1..], sep);
      var rest := Join(parts[1..], sep);
      assert Join(parts, sep) == (parts[0] + [sep]) + rest;
    }
  }

  /** Joining the pieces of `s` gives back `s`. */
  lemma {:induction false} JoinOfSplit(s: string, sep: char)
    ensures Join(Split(s, sep), sep) == s
    decreases |s|
  {
    if s != [] {
      var rest := Split(s[1..], sep);
      JoinOfSplit(s[1..], sep);
      if s[0] == sep {
        assert Split(s, sep) == [[]] + rest;
      } else {
        if |rest| == 1 {
          assert Split(s, sep) == [[s[0]] + rest[0]];
        } else {
          assert Split(s, sep)[1..] == rest[1..];
        }
      }
    }
  }

  lemma {:induction false} SplitOfPiece(w: string, sep: char)
    requires sep !in w
    ensures Split(w, sep) == [w]
  {
    if w != [] {
      assert w[0] in w;
      assert forall c :: c in w[1..] ==> c in w;
      SplitOfPiece(w[1..], sep);
      assert [w[0]] + w[1..] == w;
    }
  }

  lemma {:induction false} SplitOfPieceThenSep(w: string, rest: string, sep: char)
    requires sep !in w
    ensures Split(w + [sep] + rest, sep) == [w] + Split(rest, sep)
  {
    if w == [] {
      assert ([sep] + rest)[1..] == rest;
    } else {
      assert w[0] in w;
      assert forall c :: c in w[1..] ==> c in w;
      assert (w + [sep] + rest)[1..] == w[1..] + [sep] + rest;
      SplitOfPieceThenSep(w[1..], rest, sep);
      assert [w[0]] + w[1..] == w;
    }
  }

  /** Splitting pieces that hold no separator, joined by it, gives back the
      pieces. */
  lemma {:induction false} SplitOfJoin(parts: seq<string>, sep: char)
    requires |parts| >= 1
    requires forall i :: 0 <= i < |parts| ==> sep !in parts[i]
    ensures Split(Join(parts, sep), sep) == parts
  {
    if |parts| == 1 {
      SplitOfPiece(parts[0], sep);
    } else {
      SplitOfPieceThenSep(parts[0], Join(parts[1..], sep), sep);
      SplitOfJoin(parts[1..], sep);
    }
  }

  // ---------------------------------------------------------------------
  // `int(s)`
  // ---------------------------------------------------------------------

  predicate IsDigit(c: char) {
    '0' <= c <= '9'
  }

  predicate AllDigits(s: string) {
    forall i :: 0 <= i < |s| ==> IsDigit(s[i])
  }

  /** A character's digit value as MicroPython's integer parser reads it:
      '0'-'9' are 0-9 and letters of either case are 10-35; anything else
      is 36, a digit in no base. */
  function DigitValue(c: char): (d: nat)
    ensures d <= 36
    ensures IsDigit(c) <==> d < 10
  {
    if '0' <= c <= '9' then c as int - '0' as int
    else if 'a' <= c <= 'z' then c as int - 'a' as int + 10
    else if 'A' <= c <= 'Z' then c as int - 'A' as int + 10
    else 36
  }

  predicate AllDigitsIn(s: string, base: nat) {
    forall i :: 0 <= i < |s| ==> DigitValue(s[i]) < base
  }

  /** The value of a nonempty run of digits in `base`; None for anything
      else. */
  function ParseDigits(s: string, base: nat): (r: Option<nat>)
    ensures r.Some? <==> s != [] && AllDigitsIn(s, base)
  {
    if s == [] || DigitValue(s[|s| - 1]) >= base then None
    else
      var d := DigitValue(s[|s| - 1]);
      if |s| == 1 then Some(d)
      else match ParseDigits(s[..|s| - 1], base)
        case None => None
        case Some(v) => ProductIsNat(base, v); Some(base * v + d)
  }

  lemma ProductIsNat(a: nat, b: nat)
    ensures a * b >= 0
  {
  }

  /** MicroPython's base detection for `int(s)` after the sign: a `0x`,
      `0o` or `0b` prefix, in either case, selects base 16, 8 or 2 and is
      dropped; any other text is read in base 10. */
  function Radix(u: string): (r: (nat, string))
    ensures r.0 == 10 ==> r.1 == u
    ensures r.0 != 10 ==> |u| >= 2 && u[0] == '0' && r.1 == u[2..]
    ensures r.0 == 16 <==> |u| >= 2 && u[0] == '0' && (u[1] == 'x' || u[1] == 'X')
    ensures r.0 == 8 <==> |u| >= 2 && u[0] == '0' && (u[1] == 'o' || u[1] == 'O')
    ensures r.0 == 2 <==> |u| >= 2 && u[0] == '0' && (u[1] == 'b' || u[1] == 'B')
  {
    if |u| >= 2 && u[0] == '0' && (u[1] == 'x' || u[1] == 'X') then (16, u[2..])
    else if |u| >= 2 && u[0] == '0' && (u[1] == 'o' || u[1] == 'O') then (8, u[2..])
    else if |u| >= 2 && u[0] == '0' && (u[1] == 'b' || u[1] == 'B') then (2, u[2..])
    else (10, u)
  }

  /** The text after an optional leading sign. */
  function Unsigned(t: string): string {
    if t != [] && (t[0] == '-' || t[0] == '+') then t[1..] else t
  }

  /** MicroPython's one-argument `int(s)`: surrounding whitespace, an
      optional sign, an optional base prefix, then one or more digits of
      that base; None where `int` raises ValueError. */
  function ParseInt(s: string): Option<int>
  {
    var t := Strip(s);
    var radix := Radix(Unsigned(t));
    match ParseDigits(radix.1, radix.0)
    case None => None
    case Some(v) => Some(if t != [] && t[0] == '-' then -(v as int) else v)
  }

  function DigitChar(d: nat): (c: char)
    requires d < 10
    ensures IsDigit(c)
  {
    ('0' as int + d) as char
  }

  /** Decimal rendering of a natural number, as `str(n)` writes it. */
  function NatToString(n: nat): (s: string)
    ensures s != [] && AllDigits(s)
  {
    if n < 10 then [DigitChar(n)] else NatToString(n / 10) + [DigitChar(n % 10)]
  }

  /** Decimal rendering of an integer, as `str(i)` writes it. */
  function IntToString(i: int): (s: string)
    ensures s != [] && NoSpace(s) && '/' !in s
  {
    var s := if i < 0 then "-" + NatToString(-i) else NatToString(i);
    assert forall k :: 0 <= k < |s| ==> s[k] == '-' || IsDigit(s[k]);
    s
  }

  lemma {:induction false} ParseDigitsOfNatToString(n: nat)
    ensures ParseDigits(NatToString(n), 10) == Some(n)
  {
    if n >= 10 {
      var s := NatToString(n);
      assert s[..|s| - 1] == NatToString(n / 10);
      ParseDigitsOfNatToString(n / 10);
    }
  }

  /** Leading zeros do not change a number: `int("007") == 7`. */
  lemma {:induction false} LeadingZeroIgnored(s: string, base: nat)
    requires s != [] && base >= 2
    ensures ParseDigits(['0'] + s, base) == ParseDigits(s, base)
    decreases |s|
  {
    var z := ['0'] + s;
    if |s| > 1 {
      assert z[..|z| - 1] == ['0'] + s[..|s| - 1];
      LeadingZeroIgnored(s[..|s| - 1], base);
    } else {
      assert z[..|z| - 1] == ['0'];
    }
  }

  lemma StripOfNoSpace(s: string)
    requires s != [] && NoSpace(s)
    ensures Strip(s) == s
  {
  }

  /** `int(s)` succeeds exactly on a stripped text that is, after at most
      one sign, either a run of decimal digits or a `0x`, `0o` or `0b`
      prefix followed by digits of base 16, 8 or 2; its value is negative
      only after a minus sign. */
  lemma ParseIntAccepts(s: string)
    ensures var u := Unsigned(Strip(s));
            ParseInt(s).Some? <==>
              (u != [] && AllDigits(u)) ||
              (|u| > 2 && u[0] == '0' &&
                (((u[1] == 'x' || u[1] == 'X') && AllDigitsIn(u[2..], 16)) ||
                 ((u[1] == 'o' || u[1] == 'O') && AllDigitsIn(u[2..], 8)) ||
                 ((u[1] == 'b' || u[1] == 'B') && AllDigitsIn(u[2..], 2))))
    ensures ParseInt(s).Some? && ParseInt(s).value < 0 ==> Strip(s)[0] == '-'
  {
    var u := Unsigned(Strip(s));
    if |u| >= 2 && IsDigit(u[1]) {
      assert Radix(u).0 == 10;
    }
    if u != [] && AllDigits(u) {
      assert forall i :: 0 <= i < |u| ==> DigitValue(u[i]) < 10;
    }
  }

  /** The letters of a base prefix. */
  predicate IsPrefixLetter(c: char) {
    c == 'x' || c == 'X' || c == 'o' || c == 'O' || c == 'b' || c == 'B'
  }

  /** The base a prefix letter selects: `x` 16, `o` 8, `b` 2, in either
      case. */
  function PrefixBase(c: char): nat {
    if c == 'x' || c == 'X' then 16 else if c == 'o' || c == 'O' then 8 else 2
  }

  /** `int` of a stripped text reads the digits its base prefix leaves,
      negated after a minus sign. */
  lemma ParseIntOfParts(t: string, u: string, base: nat, ds: string)
    requires Strip(t) == t && Unsigned(t) == u && Radix(u) == (base, ds)
    ensures ParseInt(t) ==
              (if ParseDigits(ds, base).None? then None
               else if t != [] && t[0] == '-' then Some(-(ParseDigits(ds, base).value as int))
               else Some(ParseDigits(ds, base).value as int))
  {
    assert Radix(Unsigned(Strip(t))) == (base, ds);
    match ParseDigits(ds, base)
    case None =>
    case Some(v) =>
  }

  /** `int("0x" + ds)` reads `ds` in base 16, and likewise for `0o` and
      `0b`, in either case. */
  lemma PrefixSelectsBase(t: string)
    requires |t| >= 2 && t[0] == '0' && IsPrefixLetter(t[1]) && NoSpace(t)
    ensures ParseInt(t) ==
              (if ParseDigits(t[2..], PrefixBase(t[1])).Some? then Some(ParseDigits(t[2..], PrefixBase(t[1])).value as int)
               else None)
  {
    StripOfNoSpace(t);
    assert Unsigned(t) == t;
    assert Radix(t) == (PrefixBase(t[1]), t[2..]);
    ParseIntOfParts(t, t, PrefixBase(t[1]), t[2..]);
  }

  /** `int("-0x" + ds)` is the negation of `int("0x" + ds)`. */
  lemma NegatedPrefixSelectsBase(t: string)
    requires |t| >= 3 && t[0] == '-' && t[1] == '0' && IsPrefixLetter(t[2]) && NoSpace(t)
    ensures ParseInt(t) ==
              (if ParseDigits(t[3..], PrefixBase(t[2])).Some? then Some(-(ParseDigits(t[3..], PrefixBase(t[2])).value as int))
               else None)
  {
    StripOfNoSpace(t);
    var u := t[1..];
    assert Unsigned(t) == u;
    assert u[2..] == t[3..];
    assert Radix(u) == (PrefixBase(t[2]), t[3..]);
    ParseIntOfParts(t, u, PrefixBase(t[2]), t[3..]);
  }

  lemma HexDigits()
    ensures ParseDigits("10", 16) == Some(16)
  {
    assert ParseDigits("1", 16) == Some(1);
  }

  /** `int("0x10") == 16`. */
  lemma HexScenario(t: string)
    requires t == "0x10"
    ensures ParseInt(t) == Some(16)
  {
    PrefixSelectsBase(t);
    assert t[2..] == "10";
    HexDigits();
  }

  lemma OctalDigits()
    ensures ParseDigits("17", 8) == Some(15)
  {
    assert ParseDigits("1", 8) == Some(1);
  }

  /** `int("-0o17") == -15`. */
  lemma NegatedOctalScenario(t: string)
    requires t == "-0o17"
    ensures ParseInt(t) == Some(-15)
  {
    NegatedPrefixSelectsBase(t);
    assert t[3..] == "17";
    OctalDigits();
  }

  /** `int("0x")` raises: a prefix needs at least one digit after it. */
  lemma BarePrefixScenario(t: string)
    requires t == "0x"
    ensures ParseInt(t) == None
  {
    PrefixSelectsBase(t);
    assert t[2..] == "";
  }

  /** A run of decimal digits carries no base prefix. */
  lemma DecimalRadix(u: string)
    requires u != [] && AllDigits(u)
    ensures Radix(u) == (10, u)
  {
    if |u| >= 2 {
      assert IsDigit(u[1]);
    }
  }

  /** `int(str(i)) == i`. */
  lemma ParseIntOfIntToString(i: int)
    ensures ParseInt(IntToString(i)) == Some(i)
  {
    var s := IntToString(i);
    StripOfNoSpace(s);
    var n := if i < 0 then -i else i;
    var digits := NatToString(n);
    if i < 0 {
      assert s[1..] == digits;
    }
    assert Unsigned(s) == digits;
    DecimalRadix(digits);
    ParseDigitsOfNatToString(n);
  }
}
