/**
 * The string operations of the Java and TypeScript sources, written out
 * character by character: Java's `trim`, `split`, `replace` and
 * `equalsIgnoreCase`, and JavaScript's `parseInt` and `Number#toString`.
 * Strings are sequences of `char`.
 */
module Text {
  import opened Wrappers

  // ------------------------------------------------------------------
  // Prefixes and infixes (Java `startsWith`/`contains`, JS `startsWith`/`includes`)
  // ------------------------------------------------------------------

  predicate StartsWith(s: string, prefix: string) {
    |prefix| <= |s| && s[..|prefix|] == prefix
  }

  /** `part` occurs somewhere in `s`. */
  predicate Includes(s: string, part: string)
    decreases |s|
  {
    StartsWith(s, part) || (s != [] && Includes(s[1..], part))
  }

  lemma {:induction false} IncludesAfter(a: string, s: string, part: string)
    requires Includes(s, part)
    ensures Includes(a + s, part)
    decreases |a|
  {
    if a == [] {
      assert a + s == s;
    } else {
      IncludesAfter(a[1..], s, part);
      assert (a + s)[1..] == a[1..] + s;
    }
  }

  // ------------------------------------------------------------------
  // Java String.trim()
  // ------------------------------------------------------------------

  /** A character that `String.trim()` strips: every code point up to U+0020. */
  predicate IsTrimmable(c: char) {
    c <= ' '
  }

  function TrimLeading(s: string): (r: string)
    ensures |r| <= |s| && r == s[|s| - |r|..]
    ensures forall k :: 0 <= k < |s| - |r| ==> IsTrimmable(s[k])
    ensures r != [] ==> !IsTrimmable(r[0])
    decreases |s|
  {
    if s != [] && IsTrimmable(s[0]) then TrimLeading(s[1..]) else s
  }

  function TrimTrailing(s: string): (r: string)
    ensures |r| <= |s| && r == s[..|r|]
    ensures forall k :: |r| <= k < |s| ==> IsTrimmable(s[k])
    ensures r != [] ==> !IsTrimmable(r[|r| - 1])
    decreases |s|
  {
    if s != [] && IsTrimmable(s[|s| - 1]) then TrimTrailing(s[..|s| - 1]) else s
  }

  /** Java's `s.trim()`. */
  function Trim(s: string): string {
    TrimTrailing(TrimLeading(s))
  }

  /** Trimming leaves nothing exactly when every character is trimmable. */
  lemma TrimEmptyIffAllTrimmable(s: string)
    ensures Trim(s) == [] <==> forall k :: 0 <= k < |s| ==> IsTrimmable(s[k])
  {
    var l := TrimLeading(s);
    assert l != [] ==> l[0] == s[|s| - |l|];
  }

  /** A string without trimmable characters at either end is its own trim. */
  lemma TrimUntrimmed(s: string)
    requires s != [] ==> !IsTrimmable(s[0]) && !IsTrimmable(s[|s| - 1])
    ensures Trim(s) == s
  {
  }

  // ------------------------------------------------------------------
  // Java String.split with a one-character separator and no limit
  // ------------------------------------------------------------------

  /**
   * Every piece of `s` between occurrences of `sep`, empty pieces
   * included: always one piece more than there are separators.
   */
  function Pieces(s: string, sep: char): (r: seq<string>)
    ensures |r| >= 1
    ensures forall k :: 0 <= k < |r| ==> sep !in r[k]
    decreases |s|
  {
    if s == [] then [[]]
    else
      var rest := Pieces(s[1..], sep);
      if s[0] == sep then [[]] + rest
      else [[s[0]] + rest[0]] + rest[1..]
  }

  /** The inverse of `Pieces`: glue the pieces back with `sep`. */
  function Join(pieces: seq<string>, sep: char): string
    requires |pieces| >= 1
    decreases |pieces|
  {
    if |pieces| == 1 then pieces[0] else pieces[0] + [sep] + Join(pieces[1..], sep)
  }

  /** Cutting at every separator and gluing back returns the input. */
  lemma {:induction false} JoinPieces(s: string, sep: char)
    ensures Join(Pieces(s, sep), sep) == s
    decreases |s|
  {
    if s != [] {
      var rest := Pieces(s[1..], sep);
      JoinPieces(s[1..], sep);
      if s[0] != sep {
        if |rest| == 1 {
          assert Pieces(s, sep) == [[s[0]] + rest[0]];
        } else {
          assert Pieces(s, sep)[1..] == rest[1..];
        }
      }
    }
  }

  /** Drops the empty pieces at the end, as `split` without a limit does. */
  function DropTrailingEmpty(pieces: seq<string>): (r: seq<string>)
    ensures |r| <= |pieces| && r == pieces[..|r|]
    ensures forall k :: |r| <= k < |pieces| ==> pieces[k] == []
    ensures r != [] ==> r[|r| - 1] != []
    decreases |pieces|
  {
    if pieces == [] then []
    else if pieces[|pieces| - 1] == [] then DropTrailingEmpty(pieces[..|pieces| - 1])
    else pieces
  }

  /**
   * Java's `s.split(sep)` for a one-character, non-special separator:
   * the pieces between separators with trailing empty pieces removed,
   * except that a string without any separator yields itself.
   */
  function Split(s: string, sep: char): (r: seq<string>)
    ensures forall k :: 0 <= k < |r| ==> sep !in r[k]
  {
    if sep !in s then [s] else DropTrailingEmpty(Pieces(s, sep))
  }

  lemma {:induction false} PiecesWithoutSeparator(s: string, sep: char)
    requires sep !in s
    ensures Pieces(s, sep) == [s]
    decreases |s|
  {
    if s != [] {
      PiecesWithoutSeparator(s[1..], sep);
      assert [s[0]] + s[1..] == s;
    }
  }

  /** A separator-free head `d` becomes part of the first piece. */
  lemma {:induction false} PiecesOfConcat(d: string, t: string, sep: char)
    requires sep !in d
    ensures Pieces(d + t, sep) == [d + Pieces(t, sep)[0]] + Pieces(t, sep)[1..]
    decreases |d|
  {
    var pt := Pieces(t, sep);
    if d == [] {
      assert d + t == t && d + pt[0] == pt[0];
      assert [pt[0]] + pt[1..] == pt;
    } else {
      assert (d + t)[1..] == d[1..] + t;
      PiecesOfConcat(d[1..], t, sep);
      assert [d[0]] + (d[1..] + pt[0]) == d + pt[0];
    }
  }

  /** A separator-free piece followed by a separator is cut off as the first piece. */
  lemma PiecesAfterSeparator(p: string, t: string, sep: char)
    requires sep !in p
    ensures Pieces(p + [sep] + t, sep) == [p] + Pieces(t, sep)
  {
    assert p + [sep] + t == p + ([sep] + t);
    assert ([sep] + t)[1..] == t;
    assert Pieces([sep] + t, sep) == [[]] + Pieces(t, sep);
    PiecesOfConcat(p, [sep] + t, sep);
    assert p + [] == p;
  }

  /** Gluing separator-free pieces and cutting again returns the pieces. */
  lemma {:induction false} PiecesOfJoin(pieces: seq<string>, sep: char)
    requires |pieces| >= 1
    requires forall k :: 0 <= k < |pieces| ==> sep !in pieces[k]
    ensures Pieces(Join(pieces, sep), sep) == pieces
    decreases |pieces|
  {
    if |pieces| == 1 {
      PiecesWithoutSeparator(pieces[0], sep);
    } else {
      PiecesOfJoin(pieces[1..], sep);
      PiecesAfterSeparator(pieces[0], Join(pieces[1..], sep), sep);
      assert [pieces[0]] + pieces[1..] == pieces;
    }
  }

  /**
   * `split` undoes gluing with the separator when no piece holds the
   * separator and the last piece is not empty.
   */
  lemma SplitOfJoin(pieces: seq<string>, sep: char)
    requires |pieces| >= 1 && pieces[|pieces| - 1] != []
    requires forall k :: 0 <= k < |pieces| ==> sep !in pieces[k]
    ensures Split(Join(pieces, sep), sep) == pieces
  {
    PiecesOfJoin(pieces, sep);
    var s := Join(pieces, sep);
    if |pieces| > 1 {
      assert s[|pieces[0]|] == sep;
    }
  }

  /** Every piece is empty exactly when the string is made only of separators. */
  lemma {:induction false} PiecesAllEmpty(s: string, sep: char)
    ensures (forall k :: 0 <= k < |Pieces(s, sep)| ==> Pieces(s, sep)[k] == [])
        <==> (forall k :: 0 <= k < |s| ==> s[k] == sep)
    decreases |s|
  {
    if s != [] {
      PiecesAllEmpty(s[1..], sep);
      var rest := Pieces(s[1..], sep);
      var ps := Pieces(s, sep);
      if s[0] == sep {
        assert ps == [[]] + rest;
        assert (forall k :: 0 <= k < |ps| ==> ps[k] == [])
          <==> (forall k :: 0 <= k < |rest| ==> rest[k] == []) by {
          assert forall k :: 0 <= k < |rest| ==> rest[k] == ps[k + 1];
        }
        assert (forall k :: 0 <= k < |s| ==> s[k] == sep)
          <==> (forall k :: 0 <= k < |s[1..]| ==> s[1..][k] == sep) by {
          assert forall k :: 1 <= k < |s| ==> s[k] == s[1..][k - 1];
        }
      } else {
        assert ps[0] != [];
      }
    }
  }

  /**
   * `split` returns no piece at all exactly when the string is non-empty and
   * made only of separators (so that every piece is a trailing empty one).
   */
  lemma SplitEmptyIffOnlySeparators(s: string, sep: char)
    ensures Split(s, sep) == [] <==> (s != [] && forall k :: 0 <= k < |s| ==> s[k] == sep)
  {
    PiecesAllEmpty(s, sep);
    var ps := Pieces(s, sep);
    if sep in s {
      var r := DropTrailingEmpty(ps);
      assert r != [] ==> r[|r| - 1] == ps[|r| - 1];
    } else if s != [] {
      assert s[0] != sep;
    }
  }

  // ------------------------------------------------------------------
  // Java String.replace(target, "")
  // ------------------------------------------------------------------

  /**
   * Java's `s.replace(pattern, "")`: scanning from the left, every
   * occurrence of `pattern` that does not overlap an earlier removed one is
   * deleted.
   */
  function RemoveAll(s: string, pattern: string): (r: string)
    requires pattern != []
    ensures |r| <= |s|
    decreases |s|
  {
    if |s| < |pattern| then s
    else if s[..|pattern|] == pattern then RemoveAll(s[|pattern|..], pattern)
    else [s[0]] + RemoveAll(s[1..], pattern)
  }

  /** A leading occurrence of the pattern is dropped and removal goes on after it. */
  lemma RemoveAllLeading(pattern: string, rest: string)
    requires pattern != []
    ensures RemoveAll(pattern + rest, pattern) == RemoveAll(rest, pattern)
  {
    var s := pattern + rest;
    assert s[..|pattern|] == pattern && s[|pattern|..] == rest;
  }

  /** A first character that does not start an occurrence is kept. */
  lemma RemoveAllKeeps(c: char, rest: string, pattern: string)
    requires pattern != []
    requires |[c] + rest| < |pattern| || ([c] + rest)[..|pattern|] != pattern
    ensures RemoveAll([c] + rest, pattern) == [c] + RemoveAll(rest, pattern)
  {
    var s := [c] + rest;
    assert s[0] == c && s[1..] == rest;
  }

  /**
   * When the pattern's last character occurs nowhere else in it, and `x`
   * lacks that character, no occurrence starts inside `x`.
   */
  lemma NoOccurrenceFrom(x: string, pattern: string, y: string)
    requires pattern != [] && x != []
    requires pattern[|pattern| - 1] !in x && pattern[|pattern| - 1] !in pattern[..|pattern| - 1]
    ensures |x + pattern + y| >= |pattern| && (x + pattern + y)[..|pattern|] != pattern
  {
    var s, n := x + pattern + y, |pattern|;
    if n - 1 < |x| {
      assert s[n - 1] == x[n - 1];
    } else {
      assert s[n - 1] == pattern[n - 1 - |x|] == pattern[..n - 1][n - 1 - |x|];
    }
    assert s[..n][n - 1] == s[n - 1];
  }

  /**
   * Text lacking the pattern's last character, which occurs nowhere else in
   * the pattern, is kept before an occurrence, and removal goes on after it.
   */
  lemma {:induction false} RemoveAllAfterFree(x: string, pattern: string, y: string)
    requires pattern != []
    requires pattern[|pattern| - 1] !in x && pattern[|pattern| - 1] !in pattern[..|pattern| - 1]
    ensures RemoveAll(x + pattern + y, pattern) == x + RemoveAll(y, pattern)
    decreases |x|
  {
    if x == [] {
      assert x + pattern + y == pattern + y;
      RemoveAllLeading(pattern, y);
    } else {
      var rest := x[1..] + pattern + y;
      NoOccurrenceFrom(x, pattern, y);
      calc {
        RemoveAll(x + pattern + y, pattern);
        { assert x + pattern + y == [x[0]] + rest; }
        RemoveAll([x[0]] + rest, pattern);
        { RemoveAllKeeps(x[0], rest, pattern); }
        [x[0]] + RemoveAll(rest, pattern);
        { RemoveAllAfterFree(x[1..], pattern, y); }
        [x[0]] + (x[1..] + RemoveAll(y, pattern));
        { assert x == [x[0]] + x[1..]; }
        x + RemoveAll(y, pattern);
      }
    }
  }

  /** A string lacking a character of the pattern contains no occurrence, so nothing is removed. */
  lemma {:induction false} RemoveAllAbsent(s: string, pattern: string, c: char)
    requires pattern != [] && c in pattern && c !in s
    ensures RemoveAll(s, pattern) == s
    decreases |s|
  {
    if |s| >= |pattern| {
      RemoveAllAbsent(s[1..], pattern, c);
    }
  }

  // ------------------------------------------------------------------
  // Java String.equalsIgnoreCase against a lower-case ASCII word
  // ------------------------------------------------------------------

  predicate IsLowerAscii(c: char) {
    'a' <= c <= 'z'
  }

  function UpperAscii(c: char): char
    requires IsLowerAscii(c)
  {
    (c as int - 32) as char
  }

  /**
   * Whether `c` matches the lower-case ASCII letter `l` the way
   * `String.equalsIgnoreCase` compares characters (equal, equal after
   * `Character.toUpperCase`, or equal after `toLowerCase` of those): the
   * letter itself, its upper-case form, and the four non-ASCII letters that
   * case-map onto ASCII: U+017F long s (upper case S), U+212A Kelvin sign
   * (lower case k), U+0131 dotless i (upper case I) and U+0130 capital I with
   * dot above (lower case i).
   */
  predicate CharEqualsIgnoreCase(c: char, l: char)
    requires IsLowerAscii(l)
  {
    || c == l
    || c == UpperAscii(l)
    || (l == 's' && c == '\U{017F}')
    || (l == 'k' && c == '\U{212A}')
    || (l == 'i' && (c == '\U{0131}' || c == '\U{0130}'))
  }

  /** Java's `s.equalsIgnoreCase(word)` for a lower-case ASCII `word`. */
  predicate EqualsIgnoreCase(s: string, word: string)
    requires forall k :: 0 <= k < |word| ==> IsLowerAscii(word[k])
  {
    |s| == |word| && forall k :: 0 <= k < |s| ==> CharEqualsIgnoreCase(s[k], word[k])
  }

  // ------------------------------------------------------------------
  // JavaScript Number#toString and parseInt on integers
  // ------------------------------------------------------------------

  function DecimalDigit(d: nat): char
    requires d < 10
  {
    ('0' as int + d) as char
  }

  /** The decimal numeral of `n`, without leading zeros. */
  function NatToDecimal(n: nat): (r: string)
    ensures r != []
    ensures forall k :: 0 <= k < |r| ==> '0' <= r[k] <= '9'
    ensures r[0] == '0' <==> n == 0
    ensures n == 0 ==> r == "0"
    decreases n
  {
    if n < 10 then [DecimalDigit(n)] else NatToDecimal(n / 10) + [DecimalDigit(n % 10)]
  }

  /** `n.toString()` for an integral JavaScript number (no exponent form is modelled). */
  function NumberToString(n: int): string {
    if n < 0 then "-" + NatToDecimal(-n) else NatToDecimal(n)
  }

  /** The value of `c` as a digit in `radix` (10 or 16), as `parseInt` reads digits. */
  function DigitValue(c: char, radix: nat): Option<nat> {
    var v :=
      if '0' <= c <= '9' then Some(c as int - '0' as int)
      else if 'a' <= c <= 'z' then Some(c as int - 'a' as int + 10)
      else if 'A' <= c <= 'Z' then Some(c as int - 'A' as int + 10)
      else None;
    if v.Some? && v.value < radix then Some(v.value as nat) else None
  }

  /** The longest prefix of `s` made of digits in `radix`. */
  function LeadingDigits(s: string, radix: nat): (r: string)
    ensures StartsWith(s, r)
    ensures forall k :: 0 <= k < |r| ==> DigitValue(r[k], radix).Some?
    ensures |r| < |s| ==> DigitValue(s[|r|], radix).None?
    decreases |s|
  {
    if s != [] && DigitValue(s[0], radix).Some? then [s[0]] + LeadingDigits(s[1..], radix) else []
  }

  /** The value of a numeral whose characters are all digits in `radix`. */
  function NumeralValue(ds: string, radix: nat): int
    requires forall k :: 0 <= k < |ds| ==> DigitValue(ds[k], radix).Some?
    decreases |ds|
  {
    if ds == [] then 0
    else
      NumeralValue(ds[..|ds| - 1], radix) * radix + DigitValue(ds[|ds| - 1], radix).value
  }

  /**
   * ECMAScript's white space and line terminators, which `parseInt` skips:
   * TAB, LF, VT, FF, CR, the space separators (Zs), U+FEFF, U+2028, U+2029.
   */
  predicate IsJsWhiteSpace(c: char) {
    || c == '\t' || c == '\n' || c == '\U{000B}' || c == '\U{000C}' || c == '\r'
    || c == ' ' || c == '\U{00A0}' || c == '\U{1680}' || ('\U{2000}' <= c <= '\U{200A}')
    || c == '\U{2028}' || c == '\U{2029}' || c == '\U{202F}' || c == '\U{205F}' || c == '\U{3000}'
    || c == '\U{FEFF}'
  }

  function SkipJsWhiteSpace(s: string): (r: string)
    ensures |r| <= |s|
    decreases |s|
  {
    if s != [] && IsJsWhiteSpace(s[0]) then SkipJsWhiteSpace(s[1..]) else s
  }

  /**
   * The unsigned part of `parseInt`: hexadecimal after "0x" or "0X",
   * decimal otherwise, reading the longest run of digits; `None` when there
   * is no digit.
   */
  function ParseUnsigned(u: string): Option<int> {
    var hex := |u| >= 2 && u[0] == '0' && (u[1] == 'x' || u[1] == 'X');
    var radix := if hex then 16 else 10;
    var ds := LeadingDigits(if hex then u[2..] else u, radix);
    if ds == [] then None else Some(NumeralValue(ds, radix))
  }

  /**
   * JavaScript's `parseInt(s)` with no radix: skip leading white space, read
   * an optional sign, then the unsigned numeral. `None` stands for NaN.
   */
  function ParseInt(s: string): Option<int> {
    var t := SkipJsWhiteSpace(s);
    var negative := t != [] && t[0] == '-';
    var u := if t != [] && (t[0] == '-' || t[0] == '+') then t[1..] else t;
    match ParseUnsigned(u)
    case None => None
    case Some(v) =>
      var r: int := if negative then -v else v;
      Some(r)
  }

  lemma {:induction false} DecimalValue(n: nat)
    ensures forall k :: 0 <= k < |NatToDecimal(n)| ==> DigitValue(NatToDecimal(n)[k], 10).Some?
    ensures NumeralValue(NatToDecimal(n), 10) == n
    decreases n
  {
    if n >= 10 {
      DecimalValue(n / 10);
      var ds := NatToDecimal(n);
      assert ds[..|ds| - 1] == NatToDecimal(n / 10);
    }
  }

  lemma {:induction false} LeadingDigitsOfDigits(s: string, radix: nat)
    requires forall k :: 0 <= k < |s| ==> DigitValue(s[k], radix).Some?
    ensures LeadingDigits(s, radix) == s
    decreases |s|
  {
    if s != [] {
      LeadingDigitsOfDigits(s[1..], radix);
    }
  }

  /** `parseInt` reads back what `toString` wrote. */
  lemma ParseUnsignedDecimal(m: nat)
    ensures ParseUnsigned(NatToDecimal(m)) == Some(m)
  {
    var ds := NatToDecimal(m);
    DecimalValue(m);
    LeadingDigitsOfDigits(ds, 10);
    assert !(|ds| >= 2 && ds[0] == '0');
  }

  /** `parseInt` reads back what `toString` wrote. */
  lemma ParseIntOfNumberToString(n: int)
    ensures ParseInt(NumberToString(n)) == Some(n)
  {
    var m: nat := if n < 0 then -n else n;
    var ds := NatToDecimal(m);
    ParseUnsignedDecimal(m);
    assert '0' <= ds[0] <= '9';
    if n < 0 {
      var s := "-" + ds;
      assert s[0] == '-' && s[1..] == ds;
      assert SkipJsWhiteSpace(s) == s;
    } else {
      assert SkipJsWhiteSpace(ds) == ds;
    }
  }
}
