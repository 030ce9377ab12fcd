/** The pieces of Python's `str` and `int` behaviour that the scripts rely on:
    whitespace stripping, ASCII lower-casing, digit tests, `int(...)` parsing,
    decimal rendering and splitting on a character class. */
module PyStr {

  datatype Option<T> = None | Some(value: T)

  /** `str.isspace()` and the regular-expression class `\s`: the same set of code points. */
  predicate IsSpace(c: char)
  {
    c == '\t' || c == '\n' || c == '\U{0B}' || c == '\U{0C}' || c == '\r'
    || ('\U{1C}' <= c <= '\U{1F}') || c == ' ' || c == '\U{85}' || c == '\U{A0}'
    || c == '\U{1680}' || ('\U{2000}' <= c <= '\U{200A}')
    || c == '\U{2028}' || c == '\U{2029}' || c == '\U{202F}' || c == '\U{205F}' || c == '\U{3000}'
  }

  /** Number of leading characters that satisfy `IsSpace`. */
  function LeadingSpaces(s: string): (n: nat)
    ensures n <= |s|
    ensures forall k :: 0 <= k < n ==> IsSpace(s[k])
    ensures n == |s| || !IsSpace(s[n])
  {
    if s == [] || !IsSpace(s[0]) then 0 else 1 + LeadingSpaces(s[1..])
  }

  /** Number of trailing characters that satisfy `IsSpace`. */
  function TrailingSpaces(s: string): (n: nat)
    ensures n <= |s|
    ensures forall k :: |s| - n <= k < |s| ==> IsSpace(s[k])
    ensures n == |s| || !IsSpace(s[|s| - 1 - n])
  {
    if s == [] || !IsSpace(s[|s| - 1]) then 0 else 1 + TrailingSpaces(s[..|s| - 1])
  }

  /** `s.strip()`: the slice of `s` between its leading and trailing whitespace. */
  function Strip(s: string): (r: string)
    ensures LeadingSpaces(s) + |r| <= |s|
    ensures r == s[LeadingSpaces(s)..LeadingSpaces(s) + |r|]
    ensures forall k :: 0 <= k < LeadingSpaces(s) ==> IsSpace(s[k])
    ensures forall k :: LeadingSpaces(s) + |r| <= k < |s| ==> IsSpace(s[k])
    ensures r != [] ==> !IsSpace(r[0]) && !IsSpace(r[|r| - 1])
  {
    var t := s[LeadingSpaces(s)..];
    t[..|t| - TrailingSpaces(t)]
  }

  /** Stripping only removes characters. */
  lemma InStripped(s: string, c: char)
    requires c in Strip(s)
    ensures c in s
  {
    var r := Strip(s);
    var k :| 0 <= k < |r| && r[k] == c;
    assert s[LeadingSpaces(s) + k] == c;
  }

  /** `s.strip(c)` for a single character `c`. */
  function StripChar(s: string, c: char): (r: string)
    ensures |r| <= |s|
    ensures r != [] ==> r[0] != c && r[|r| - 1] != c
    ensures forall k :: 0 <= k < |r| ==> r[k] in s
  {
    if s == [] then []
    else if s[0] == c then StripChar(s[1..], c)
    else if s[|s| - 1] == c then StripChar(s[..|s| - 1], c)
    else s
  }

  /** `s.lstrip(c)` for a single character `c`. */
  function LStripChar(s: string, c: char): (r: string)
    ensures |r| <= |s| && r == s[|s| - |r|..]
    ensures forall k :: 0 <= k < |s| - |r| ==> s[k] == c
    ensures r != [] ==> r[0] != c
  {
    if s != [] && s[0] == c then LStripChar(s[1..], c) else s
  }

  function LowerChar(c: char): char
  {
    if 'A' <= c <= 'Z' then (c as int + 32) as char else c
  }

  /** `s.lower()` on the ASCII letters. */
  function Lower(s: string): (r: string)
    ensures |r| == |s|
    ensures forall k :: 0 <= k < |s| ==> r[k] == LowerChar(s[k])
  {
    if s == [] then [] else [LowerChar(s[0])] + Lower(s[1..])
  }

  predicate IsDigit(c: char)
  {
    '0' <= c <= '9'
  }

  /** `s.isdigit()`: non-empty and every character a digit. */
  predicate IsDigits(s: string)
  {
    |s| > 0 && forall k :: 0 <= k < |s| ==> IsDigit(s[k])
  }

  /** The number a string of decimal digits denotes (leading zeros allowed). */
  function DigitValue(c: char): nat
    requires IsDigit(c)
  {
    c as int - '0' as int
  }

  function DigitsValue(s: string): nat
    requires forall k :: 0 <= k < |s| ==> IsDigit(s[k])
  {
    if s == [] then 0 else 10 * DigitsValue(s[..|s| - 1]) + DigitValue(s[|s| - 1])
  }

  function DigitChar(d: nat): char
    requires d < 10
  {
    ('0' as int + d) as char
  }

  /** `str(n)` for a natural number. */
  function NatToStr(n: nat): (r: string)
    ensures IsDigits(r)
    ensures r[0] == '0' ==> n == 0
  {
    if n < 10 then [DigitChar(n)] else NatToStr(n / 10) + [DigitChar(n % 10)]
  }

  /** `str(i)` for an integer. */
  function IntToStr(i: int): (r: string)
    ensures |r| > 0
  {
    if i < 0 then "-" + NatToStr(-i) else NatToStr(i)
  }

  /** Reading back a rendered number gives the number. */
  lemma {:induction false} NatToStrRoundTrip(n: nat)
    ensures DigitsValue(NatToStr(n)) == n
  {
    if n >= 10 {
      var s := NatToStr(n);
      assert s[..|s| - 1] == NatToStr(n / 10);
      NatToStrRoundTrip(n / 10);
    }
  }

  /** Rendering is injective: two numbers with the same text are equal. */
  lemma NatToStrInjective(m: nat, n: nat)
    requires NatToStr(m) == NatToStr(n)
    ensures m == n
  {
    NatToStrRoundTrip(m);
    NatToStrRoundTrip(n);
  }

  /** The characters at `k` and `k + 1` are not both `_`. */
  predicate NoDoubleAt(s: string, k: nat)
    requires k + 1 < |s|
  {
    s[k] != '_' || s[k + 1] != '_'
  }

  /** Digits with single underscores between them, as `int()` accepts after the sign. */
  predicate IsDigitGroup(s: string)
  {
    && |s| > 0 && IsDigit(s[0]) && IsDigit(s[|s| - 1])
    && (forall k :: 0 <= k < |s| ==> IsDigit(s[k]) || s[k] == '_')
    && (forall k: nat :: k + 1 < |s| ==> NoDoubleAt(s, k))
  }

  function DropUnderscores(s: string): (r: string)
    ensures forall k :: 0 <= k < |r| ==> r[k] != '_' && r[k] in s
    ensures (forall k :: 0 <= k < |s| ==> s[k] != '_') ==> r == s
  {
    if s == [] then [] else (if s[0] == '_' then [] else [s[0]]) + DropUnderscores(s[1..])
  }

  /** `int(s)` in base 10: surrounding whitespace, an optional sign, and digits
      with single underscores between them; `None` where Python raises ValueError. */
  function PyInt(s: string): (r: Option<int>)
    ensures r.Some? ==> Strip(s) != []
  {
    var t := Strip(s);
    if t == [] then None
    else SignedGroup(t)
  }

  /** The part of `int()` after stripping: an optional sign, then a digit group. */
  function SignedGroup(t: string): Option<int>
    requires t != []
  {
    var body := if t[0] == '-' || t[0] == '+' then t[1..] else t;
    if !IsDigitGroup(body) then None
    else
      var v: int := DigitsValue(DropUnderscores(body));
      Some(if t[0] == '-' then -v else v)
  }

  /** A string with no whitespace at either end is its own strip. */
  lemma StripUntrimmed(s: string)
    requires s != [] && !IsSpace(s[0]) && !IsSpace(s[|s| - 1])
    ensures Strip(s) == s
  {
    assert LeadingSpaces(s) == 0;
    assert TrailingSpaces(s) == 0;
  }

  /** Stripping twice is stripping once. */
  lemma StripIdempotent(s: string)
    ensures Strip(Strip(s)) == Strip(s)
  {
    if Strip(s) != [] {
      StripUntrimmed(Strip(s));
    }
  }

  lemma DigitsAreGroup(d: string)
    requires IsDigits(d)
    ensures IsDigitGroup(d) && DropUnderscores(d) == d
  {
  }

  /** A plain digit string is read as its decimal value. */
  lemma PyIntOfDigits(s: string)
    requires IsDigits(s)
    ensures PyInt(s) == Some(DigitsValue(s))
  {
    StripUntrimmed(s);
    DigitsAreGroup(s);
  }

  /** A minus sign before a digit string is read as the negated value. */
  lemma SignedGroupOfNegative(t: string)
    requires |t| >= 2 && t[0] == '-' && IsDigits(t[1..])
    ensures SignedGroup(t) == Some(-(DigitsValue(t[1..]) as int))
  {
    DigitsAreGroup(t[1..]);
  }

  lemma PyIntOfNegative(s: string)
    requires |s| >= 2 && s[0] == '-' && IsDigits(s[1..])
    ensures PyInt(s) == Some(-(DigitsValue(s[1..]) as int))
  {
    assert IsDigit(s[1..][|s| - 2]);
    StripUntrimmed(s);
    SignedGroupOfNegative(s);
  }

  /** `int(str(i)) == i`. */
  lemma PyIntRoundTrip(i: int)
    ensures PyInt(IntToStr(i)) == Some(i)
  {
    var n: nat := if i < 0 then -i else i;
    var d := NatToStr(n);
    NatToStrRoundTrip(n);
    if i < 0 {
      assert IntToStr(i)[1..] == d;
      PyIntOfNegative(IntToStr(i));
    } else {
      PyIntOfDigits(d);
    }
  }

  /** A string that `int()` rejects: one more witness that the parser has an error path. */
  lemma PyIntRejectsLetters()
    ensures PyInt("12a") == None
    ensures PyInt("") == None
    ensures PyInt("1__0") == None
  {
    StripUntrimmed("12a");
    assert !IsDigitGroup("12a") by { assert !IsDigit("12a"[2]); }
    StripUntrimmed("1__0");
    assert !IsDigitGroup("1__0") by { assert !NoDoubleAt("1__0", 1); }
  }

  /** `re.split("[...]", s)` on a set of single separator characters. */
  function SplitOn(s: string, seps: set<char>): (r: seq<string>)
    ensures |r| >= 1
    ensures forall i, k :: 0 <= i < |r| && 0 <= k < |r[i]| ==> r[i][k] !in seps
    ensures forall i, k :: 0 <= i < |r| && 0 <= k < |r[i]| ==> r[i][k] in s
  {
    if s == [] then [[]]
    else
      var rest := SplitOn(s[1..], seps);
      if s[0] in seps then [[]] + rest
      else [[s[0]] + rest[0]] + rest[1..]
  }

  /** Every character that is not a separator survives the split, in order. */
  function Concat(parts: seq<string>): string
  {
    if parts == [] then [] else parts[0] + Concat(parts[1..])
  }

  function Without(s: string, seps: set<char>): string
  {
    if s == [] then [] else (if s[0] in seps then [] else [s[0]]) + Without(s[1..], seps)
  }

  lemma {:induction false} SplitKeepsNonSeparators(s: string, seps: set<char>)
    ensures Concat(SplitOn(s, seps)) == Without(s, seps)
  {
    if s != [] {
      SplitKeepsNonSeparators(s[1..], seps);
      var rest := SplitOn(s[1..], seps);
      if s[0] !in seps {
        calc {
          Concat(SplitOn(s, seps));
          ([s[0]] + rest[0]) + Concat(rest[1..]);
          [s[0]] + (rest[0] + Concat(rest[1..]));
          [s[0]] + Concat(rest);
        }
      }
    }
  }

  /** The number of pieces is one more than the number of separators. */
  function CountIn(s: string, seps: set<char>): nat
  {
    if s == [] then 0 else (if s[0] in seps then 1 else 0) + CountIn(s[1..], seps)
  }

  lemma {:induction false} SplitPieceCount(s: string, seps: set<char>)
    ensures |SplitOn(s, seps)| == CountIn(s, seps) + 1
  {
    if s != [] {
      SplitPieceCount(s[1..], seps);
    }
  }

  /** `[p.strip() for p in parts if p.strip()]`: the stripped, non-empty pieces, in order. */
  function Pieces(parts: seq<string>): (r: seq<string>)
    ensures forall i :: 0 <= i < |r| ==> r[i] != []
  {
    if parts == [] then []
    else
      var p := Strip(parts[|parts| - 1]);
      Pieces(parts[..|parts| - 1]) + (if p != [] then [p] else [])
  }

  /** `s` holds none of the characters in `seps`. */
  predicate Avoids(s: string, seps: set<char>)
  {
    forall k :: 0 <= k < |s| ==> s[k] !in seps
  }

  /** Every piece is the stripped form of some part, so it is stripped and keeps the parts' characters. */
  lemma {:induction false} PiecesShape(parts: seq<string>, seps: set<char>)
    requires forall k :: 0 <= k < |parts| ==> Avoids(parts[k], seps)
    ensures forall i :: 0 <= i < |Pieces(parts)| ==> Avoids(Pieces(parts)[i], seps) && Strip(Pieces(parts)[i]) == Pieces(parts)[i]
  {
    if parts != [] {
      var last := parts[|parts| - 1];
      PiecesShape(parts[..|parts| - 1], seps);
      var p := Strip(last);
      StripIdempotent(last);
      assert Avoids(p, seps) by {
        forall k | 0 <= k < |p| ensures p[k] !in seps {
          assert p[k] == last[LeadingSpaces(last) + k];
        }
      }
    }
  }

  /** Each stripped non-empty part is among the pieces. */
  lemma {:induction false} PartsInPieces(parts: seq<string>, k: nat)
    requires k < |parts| && Strip(parts[k]) != []
    ensures Strip(parts[k]) in Pieces(parts)
  {
    var front := parts[..|parts| - 1];
    if k < |front| {
      assert front[k] == parts[k];
      PartsInPieces(front, k);
    }
  }

}
