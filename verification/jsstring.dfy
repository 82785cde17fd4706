/**
 * The string built-ins the modelled code relies on: `String.prototype.split`
 * with a one-character separator, `Array.prototype.join`, `parseInt(s, 10)`,
 * decimal printing of integers, ASCII lower-casing and the ASCII character
 * classes its regular expressions use.
 */
module JsString {
  import opened Results

  predicate IsAsciiUpper(c: char) { 'A' <= c <= 'Z' }
  predicate IsAsciiLower(c: char) { 'a' <= c <= 'z' }
  predicate IsAsciiLetter(c: char) { IsAsciiUpper(c) || IsAsciiLower(c) }
  predicate IsAsciiDigit(c: char) { '0' <= c <= '9' }
  /** The regular-expression class `[A-Za-z0-9]`. */
  predicate IsAsciiAlnum(c: char) { IsAsciiLetter(c) || IsAsciiDigit(c) }

  predicate StartsWith(s: string, prefix: string) { |prefix| <= |s| && s[..|prefix|] == prefix }
  predicate EndsWith(s: string, suffix: string) { |suffix| <= |s| && s[|s| - |suffix|..] == suffix }

  /** Number of occurrences of `c` in `s`. */
  function Count(s: string, c: char): nat
  {
    if |s| == 0 then 0 else (if s[0] == c then 1 else 0) + Count(s[1..], c)
  }

  lemma {:induction false} CountZero(s: string, c: char)
    ensures Count(s, c) == 0 <==> c !in s
  {
    if |s| > 0 {
      CountZero(s[1..], c);
      assert s == [s[0]] + s[1..];
    }
  }

  /**
   * `s.split(sep)` for a one-character separator: the pieces between
   * separators, always at least one (`"".split(":")` is `[""]`).
   */
  function Split(s: string, sep: char): (parts: seq<string>)
    ensures |parts| == Count(s, sep) + 1
    ensures forall i :: 0 <= i < |parts| ==> sep !in parts[i]
    decreases |s|
  {
    if |s| == 0 then [""]
    else
      var rest := Split(s[1..], sep);
      if s[0] == sep then [""] + rest
      else [[s[0]] + rest[0]] + rest[1..]
  }

  /** `parts[0] + parts[1] + ...`: the pieces of a message, concatenated. */
  function Concat(parts: seq<string>): string
  {
    if |parts| == 0 then "" else parts[0] + Concat(parts[1..])
  }

  /** `parts.join(sep)`; the empty list joins to the empty string. */
  function Join(parts: seq<string>, sep: char): string
  {
    if |parts| == 0 then ""
    else if |parts| == 1 then parts[0]
    else parts[0] + [sep] + Join(parts[1..], sep)
  }

  /** Joining the pieces of a split gives back the original string. */
  lemma {:induction false} JoinSplit(s: string, sep: char)
    ensures Join(Split(s, sep), sep) == s
    decreases |s|
  {
    if |s| > 0 {
      var rest := Split(s[1..], sep);
      JoinSplit(s[1..], sep);
      if s[0] == sep {
        assert ([""] + rest)[1..] == rest;
        assert s == [sep] + s[1..];
      } else {
        var parts := [[s[0]] + rest[0]] + rest[1..];
        if |rest| == 1 {
          assert s == [s[0]] + s[1..];
        } else {
          assert parts[1..] == rest[1..];
          assert Join(rest, sep) == rest[0] + [sep] + Join(rest[1..], sep);
          assert s == [s[0]] + s[1..];
        }
      }
    }
  }

  /** A string without the separator splits into itself. */
  lemma {:induction false} SplitNoSep(s: string, sep: char)
    requires sep !in s
    ensures Split(s, sep) == [s]
    decreases |s|
  {
    if |s| > 0 {
      SplitNoSep(s[1..], sep);
      assert s == [s[0]] + s[1..];
    }
  }

  /** Splitting `p + sep + t`, where `p` holds no separator, peels off `p`. */
  lemma {:induction false} SplitAfterPiece(p: string, sep: char, t: string)
    requires sep !in p
    ensures Split(p + [sep] + t, sep) == [p] + Split(t, sep)
    decreases |p|
  {
    var s := p + [sep] + t;
    if |p| == 0 {
      assert s == [sep] + t;
      assert s[1..] == t;
    } else {
      SplitAfterPiece(p[1..], sep, t);
      assert s[1..] == p[1..] + [sep] + t;
      assert p == [p[0]] + p[1..];
    }
  }

  /** Splitting a join of separator-free pieces gives back the pieces. */
  lemma {:induction false} SplitJoin(parts: seq<string>, sep: char)
    requires |parts| >= 1
    requires forall i :: 0 <= i < |parts| ==> sep !in parts[i]
    ensures Split(Join(parts, sep), sep) == parts
    decreases |parts|
  {
    if |parts| == 1 {
      SplitNoSep(parts[0], sep);
    } else {
      SplitJoin(parts[1..], sep);
      SplitAfterPiece(parts[0], sep, Join(parts[1..], sep));
      assert [parts[0]] + parts[1..] == parts;
    }
  }

  /** Index of the first occurrence of `c`, if any (`s.indexOf(c)`). */
  function IndexOf(s: string, c: char): (r: Option<nat>)
    ensures r.None? <==> c !in s
    ensures r.Some? ==> r.value < |s| && s[r.value] == c && c !in s[..r.value]
  {
    if |s| == 0 then None
    else if s[0] == c then Some(0)
    else
      var rest := IndexOf(s[1..], c);
      if rest.None? then None
      else
        assert s[..rest.value + 1] == [s[0]] + s[1..][..rest.value];
        Some(rest.value + 1)
  }

  /** The first `c` of `a + [c] + b`, where `a` holds none, is the one after `a`. */
  lemma {:induction false} IndexOfAfter(a: string, c: char, b: string)
    requires c !in a
    ensures IndexOf(a + [c] + b, c) == Some(|a|)
  {
    var s := a + [c] + b;
    assert s[..|a|] == a && s[|a|] == c;
  }

  /** The first piece of a split is the text before the first separator. */
  lemma {:induction false} SplitHead(s: string, sep: char)
    ensures Split(s, sep)[0] == (match IndexOf(s, sep) case None => s case Some(i) => s[..i])
    decreases |s|
  {
    if |s| > 0 {
      SplitHead(s[1..], sep);
      if s[0] != sep {
        match IndexOf(s[1..], sep)
        case None =>
          assert s == [s[0]] + s[1..];
        case Some(i) =>
          assert s[..i + 1] == [s[0]] + s[1..][..i];
      }
    }
  }

  /** The pieces after the first, joined back, are the text after the first separator. */
  lemma {:induction false} SplitTail(s: string, sep: char, i: nat)
    requires IndexOf(s, sep) == Some(i)
    ensures Join(Split(s, sep)[1..], sep) == s[i + 1..]
    decreases |s|
  {
    if s[0] == sep {
      assert i == 0;
      var rest := Split(s[1..], sep);
      assert Split(s, sep)[1..] == rest;
      JoinSplit(s[1..], sep);
    } else {
      var rest := Split(s[1..], sep);
      SplitTail(s[1..], sep, i - 1);
      assert Split(s, sep)[1..] == rest[1..];
      assert s[1..][i..] == s[i + 1..];
    }
  }

  // ---------------------------------------------------------------------
  // Decimal integers

  function DigitChar(d: nat): char
    requires d < 10
  {
    ['0', '1', '2', '3', '4', '5', '6', '7', '8', '9'][d]
  }

  function DigitValue(c: char): nat
    requires IsAsciiDigit(c)
  {
    (c as int - '0' as int) as nat
  }

  lemma DigitRoundTrip(d: nat)
    requires d < 10
    ensures IsAsciiDigit(DigitChar(d)) && DigitValue(DigitChar(d)) == d
  {
  }

  predicate AllDigits(s: string) { forall i :: 0 <= i < |s| ==> IsAsciiDigit(s[i]) }

  /** Decimal text of a natural number, without leading zeros. */
  function NatToString(n: nat): (s: string)
    ensures |s| > 0 && AllDigits(s)
  {
    DigitRoundTrip(n % 10);
    if n < 10 then [DigitChar(n)] else NatToString(n / 10) + [DigitChar(n % 10)]
  }

  /** `String(i)` for an integer. */
  function IntToString(i: int): string
  {
    if i < 0 then "-" + NatToString(-i) else NatToString(i)
  }

  /** Value of a string of decimal digits. */
  function DigitsValue(s: string): nat
    requires AllDigits(s)
  {
    if |s| == 0 then 0 else DigitsValue(s[..|s| - 1]) * 10 + DigitValue(s[|s| - 1])
  }

  lemma {:induction false} NatToStringValue(n: nat)
    ensures DigitsValue(NatToString(n)) == n
  {
    var s := NatToString(n);
    DigitRoundTrip(n % 10);
    if n >= 10 {
      NatToStringValue(n / 10);
      assert s[..|s| - 1] == NatToString(n / 10);
    }
  }

  /** The longest prefix of ASCII digits. */
  function DigitPrefix(s: string): (d: string)
    ensures AllDigits(d) && |d| <= |s| && d == s[..|d|]
    ensures |d| < |s| ==> !IsAsciiDigit(s[|d|])
  {
    if |s| == 0 || !IsAsciiDigit(s[0]) then ""
    else [s[0]] + DigitPrefix(s[1..])
  }

  lemma {:induction false} DigitPrefixAll(s: string)
    requires AllDigits(s)
    ensures DigitPrefix(s) == s
  {
    if |s| > 0 {
      DigitPrefixAll(s[1..]);
      assert s == [s[0]] + s[1..];
    }
  }

  /** The white space `parseInt` skips: ECMAScript's WhiteSpace and LineTerminator. */
  predicate IsJsWhiteSpace(c: char)
  {
    || c == '\t' || c == '\n' || c == '\U{000B}' || c == '\U{000C}' || c == '\r' || c == ' '
    || c == '\U{00A0}' || c == '\U{1680}' || ('\U{2000}' <= c <= '\U{200A}')
    || c == '\U{2028}' || c == '\U{2029}' || c == '\U{202F}' || c == '\U{205F}'
    || c == '\U{3000}' || c == '\U{FEFF}'
  }

  function TrimStart(s: string): (t: string)
    ensures |t| <= |s| && t == s[|s| - |t|..]
    ensures |t| > 0 ==> !IsJsWhiteSpace(t[0])
  {
    if |s| > 0 && IsJsWhiteSpace(s[0]) then TrimStart(s[1..]) else s
  }

  /**
   * `parseInt(s, 10)`: skip leading white space, read an optional sign and
   * the longest run of decimal digits; `None` stands for `NaN` (no digit).
   */
  function ParseInt(s: string): (r: Option<int>)
    ensures r.None? <==> DigitPrefix(SignStripped(TrimStart(s))) == ""
  {
    var t := TrimStart(s);
    var body := SignStripped(t);
    var digits := DigitPrefix(body);
    if |digits| == 0 then None
    else
      var v: int := DigitsValue(digits);
      if |t| > 0 && t[0] == '-' then Some(-v) else Some(v)
  }

  function SignStripped(t: string): string
  {
    if |t| > 0 && (t[0] == '-' || t[0] == '+') then t[1..] else t
  }

  lemma ParseIntOfNatString(n: nat)
    ensures ParseInt(NatToString(n)) == Some(n)
  {
    var s := NatToString(n);
    NatToStringValue(n);
    assert DigitsValue(s) == n;
    DigitPrefixAll(s);
    assert DigitPrefix(s) == s;
    TrimStartNoWhiteSpace(s);
    assert TrimStart(s) == s;
    assert SignStripped(s) == s;
    assert ParseInt(s) == Some(DigitsValue(s));
  }

  lemma ParseIntOfNegString(n: nat)
    requires n > 0
    ensures ParseInt(IntToString(-(n as int))) == Some(-(n as int))
  {
    var d := NatToString(n);
    var s := "-" + d;
    assert IntToString(-(n as int)) == s;
    NatToStringValue(n);
    assert DigitsValue(d) == n;
    DigitPrefixAll(d);
    assert DigitPrefix(d) == d;
    TrimStartNoWhiteSpace(s);
    assert TrimStart(s) == s;
    assert SignStripped(s) == d;
    assert ParseInt(s) == Some(-(DigitsValue(d) as int));
  }

  /** Text whose first character is neither blank, sign nor digit is `NaN`. */
  lemma ParseIntNoDigit(s: string)
    requires |s| > 0 && !IsJsWhiteSpace(s[0]) && !IsAsciiDigit(s[0]) && s[0] != '-' && s[0] != '+'
    ensures ParseInt(s) == None
  {
    assert TrimStart(s) == s;
    assert SignStripped(s) == s;
  }

  lemma TrimStartNoWhiteSpace(s: string)
    requires |s| > 0 && (s[0] == '-' || IsAsciiDigit(s[0]))
    ensures TrimStart(s) == s
  {
    assert !IsJsWhiteSpace(s[0]);
  }

  /** `parseInt` reads back what `String` prints for an integer. */
  lemma {:induction false} ParseIntOfIntToString(i: int)
    ensures ParseInt(IntToString(i)) == Some(i)
  {
    if i < 0 {
      var n: nat := -i;
      assert -(n as int) == i;
      ParseIntOfNegString(n);
    } else {
      assert IntToString(i) == NatToString(i);
      ParseIntOfNatString(i);
    }
  }

  // ---------------------------------------------------------------------
  // Case

  function ToLowerChar(c: char): char
  {
    if IsAsciiUpper(c) then (c as int + 32) as char else c
  }

  /** `s.toLowerCase()` restricted to the ASCII letters. */
  function ToLowerAscii(s: string): (r: string)
    ensures |r| == |s| && forall i :: 0 <= i < |s| ==> r[i] == ToLowerChar(s[i])
  {
    if |s| == 0 then "" else [ToLowerChar(s[0])] + ToLowerAscii(s[1..])
  }

  // ---------------------------------------------------------------------
  // Ordering (the default comparison of `Array.prototype.sort` on strings)

  /** `a` sorts strictly before `b`: lexicographic on character codes. */
  predicate Less(a: string, b: string)
  {
    if |a| == 0 then |b| > 0
    else if |b| == 0 then false
    else a[0] < b[0] || (a[0] == b[0] && Less(a[1..], b[1..]))
  }

  lemma {:induction false} LessIrreflexive(a: string)
    ensures !Less(a, a)
  {
    if |a| > 0 { LessIrreflexive(a[1..]); }
  }

  lemma {:induction false} LessTotal(a: string, b: string)
    requires a != b
    ensures Less(a, b) || Less(b, a)
  {
    if |a| > 0 && |b| > 0 && a[0] == b[0] {
      assert a == [a[0]] + a[1..] && b == [b[0]] + b[1..];
      LessTotal(a[1..], b[1..]);
    }
  }

  lemma {:induction false} LessAsymmetric(a: string, b: string)
    requires Less(a, b)
    ensures !Less(b, a)
  {
    if |a| > 0 && |b| > 0 && a[0] == b[0] {
      LessAsymmetric(a[1..], b[1..]);
    }
  }

  lemma {:induction false} LessTransitive(a: string, b: string, c: string)
    requires Less(a, b) && Less(b, c)
    ensures Less(a, c)
  {
    if |a| > 0 && |b| > 0 && |c| > 0 && a[0] == b[0] == c[0] {
      LessTransitive(a[1..], b[1..], c[1..]);
    }
  }

  predicate LessEq(a: string, b: string) { a == b || Less(a, b) }

  lemma LessEqTransitive(a: string, b: string, c: string)
    requires LessEq(a, b) && LessEq(b, c)
    ensures LessEq(a, c)
  {
    if a != b && b != c { LessTransitive(a, b, c); }
  }

  predicate IsSorted(s: seq<string>)
  {
    forall i, j :: 0 <= i < j < |s| ==> LessEq(s[i], s[j])
  }

  /** A sorted sequence stays sorted under a new head that sorts before all of it. */
  lemma PrependSorted(h: string, r: seq<string>)
    requires IsSorted(r) && forall y :: y in r ==> LessEq(h, y)
    ensures IsSorted([h] + r)
  {
    forall i, j | 0 <= i < j < |[h] + r| ensures LessEq(([h] + r)[i], ([h] + r)[j]) {
      if i > 0 {
        assert ([h] + r)[i] == r[i - 1] && ([h] + r)[j] == r[j - 1];
      } else {
        assert ([h] + r)[j] in r;
      }
    }
  }

  /** The head of a sorted `s` sorts before `x` inserted into the rest, when `x` does not go first. */
  lemma InsertedTailBound(x: string, s: seq<string>, rest: seq<string>)
    requires |s| > 0 && IsSorted(s) && !LessEq(x, s[0])
    requires multiset(rest) == multiset(s[1..]) + multiset{x}
    ensures forall y :: y in rest ==> LessEq(s[0], y)
  {
    LessTotal(x, s[0]);
    forall y | y in rest ensures LessEq(s[0], y) {
      assert y in multiset(rest);
      if y != x {
        assert y in multiset(s[1..]);
        var j :| 0 <= j < |s[1..]| && s[1..][j] == y;
        assert s[j + 1] == y;
      }
    }
  }

  /** Inserts `x` before the first element it does not sort after. */
  function Insert(x: string, s: seq<string>): (r: seq<string>)
    ensures multiset(r) == multiset(s) + multiset{x}
    ensures IsSorted(s) ==> IsSorted(r)
  {
    if |s| == 0 then [x]
    else if LessEq(x, s[0]) then
      assert IsSorted(s) ==> IsSorted([x] + s) by {
        if IsSorted(s) {
          forall y | y in s ensures LessEq(x, y) {
            SortedFirstIsLeast(s, y);
            LessEqTransitive(x, s[0], y);
          }
          PrependSorted(x, s);
        }
      }
      [x] + s
    else
      var rest := Insert(x, s[1..]);
      assert s == [s[0]] + s[1..];
      assert IsSorted(s) ==> IsSorted([s[0]] + rest) by {
        if IsSorted(s) {
          InsertedTailBound(x, s, rest);
          PrependSorted(s[0], rest);
        }
      }
      [s[0]] + rest
  }

  /** `Array.prototype.sort()` on strings: sorted, with the same elements. */
  function SortStrings(s: seq<string>): (r: seq<string>)
    ensures multiset(r) == multiset(s)
    ensures IsSorted(r)
  {
    if |s| == 0 then []
    else
      assert s == [s[0]] + s[1..];
      Insert(s[0], SortStrings(s[1..]))
  }

  lemma SortedFirstIsLeast(a: seq<string>, x: string)
    requires IsSorted(a) && x in a
    ensures LessEq(a[0], x)
  {
    var i :| 0 <= i < |a| && a[i] == x;
    if i > 0 { assert LessEq(a[0], a[i]); }
  }

  lemma MultisetTail(a: seq<string>)
    requires |a| > 0
    ensures multiset(a[1..]) == multiset(a) - multiset{a[0]}
  {
    assert a == [a[0]] + a[1..];
  }

  /** There is one sorted order of a collection of strings: the order they come in does not matter. */
  lemma {:induction false} SortedUnique(a: seq<string>, b: seq<string>)
    requires IsSorted(a) && IsSorted(b) && multiset(a) == multiset(b)
    ensures a == b
  {
    if |a| == 0 {
      assert |b| == |multiset(b)| == 0;
    } else {
      assert a[0] in multiset(b) && |b| > 0;
      assert b[0] in multiset(a);
      SortedFirstIsLeast(b, a[0]);
      SortedFirstIsLeast(a, b[0]);
      if a[0] != b[0] { LessAsymmetric(a[0], b[0]); }
      MultisetTail(a);
      MultisetTail(b);
      SortedUnique(a[1..], b[1..]);
      assert a == [a[0]] + a[1..] && b == [b[0]] + b[1..];
    }
  }

  /** Sorting does not depend on the order of its input. */
  lemma SortStringsCanonical(a: seq<string>, b: seq<string>)
    requires multiset(a) == multiset(b)
    ensures SortStrings(a) == SortStrings(b)
  {
    SortedUnique(SortStrings(a), SortStrings(b));
  }
}
