/** The JavaScript string operations the site relies on, over `seq<char>`:
    the `\s` character class, ASCII case mapping, `includes`, `startsWith`,
    `split` on one character and `join`, `trim`, decimal rendering and
    `parseInt` on decimal text. */
module Strings {

  import opened Wrappers

  /** The characters ECMAScript's `\s` matches and `String.prototype.trim`
      strips: WhiteSpace and LineTerminator code points. */
  predicate IsSpace(c: char) {
    var n := c as int;
    || 0x09 <= n <= 0x0D
    || n == 0x20 || n == 0xA0 || n == 0x1680
    || 0x2000 <= n <= 0x200A
    || n == 0x2028 || n == 0x2029 || n == 0x202F || n == 0x205F || n == 0x3000 || n == 0xFEFF
  }

  predicate AllSpace(s: string) {
    forall i | 0 <= i < |s| :: IsSpace(s[i])
  }

  /** `s.length > 0`. */
  predicate NonEmpty(s: string) {
    s != ""
  }

  predicate IsUpperAscii(c: char) { 'A' <= c <= 'Z' }

  predicate IsLowerAscii(c: char) { 'a' <= c <= 'z' }

  function LowerChar(c: char): (d: char)
    ensures !IsUpperAscii(d)
    ensures IsUpperAscii(c) || d == c
  {
    if IsUpperAscii(c) then (c as int + 32) as char else c
  }

  function UpperChar(c: char): (d: char)
    ensures !IsLowerAscii(d)
    ensures IsLowerAscii(c) || d == c
  {
    if IsLowerAscii(c) then (c as int - 32) as char else c
  }

  /** `toLowerCase`, restricted to the ASCII letters. */
  function Lower(s: string): (r: string)
    ensures |r| == |s|
    ensures forall i | 0 <= i < |s| :: r[i] == LowerChar(s[i])
  {
    if |s| == 0 then "" else [LowerChar(s[0])] + Lower(s[1..])
  }

  /** `toUpperCase`, restricted to the ASCII letters. */
  function Upper(s: string): (r: string)
    ensures |r| == |s|
    ensures forall i | 0 <= i < |s| :: r[i] == UpperChar(s[i])
  {
    if |s| == 0 then "" else [UpperChar(s[0])] + Upper(s[1..])
  }

  lemma LowerIdempotent(s: string)
    ensures Lower(Lower(s)) == Lower(s)
  {
  }

  /** Text with no upper-case ASCII letter is its own lower case. */
  lemma LowerOfLowercase(s: string)
    requires forall i | 0 <= i < |s| :: !IsUpperAscii(s[i])
    ensures Lower(s) == s
  {
  }

  lemma LowerAppend(a: string, b: string)
    ensures Lower(a + b) == Lower(a) + Lower(b)
  {
  }

  // ---------------------------------------------------------------------
  // includes / startsWith

  predicate OccursAt(s: string, sub: string, i: int) {
    0 <= i <= |s| - |sub| && s[i..i + |sub|] == sub
  }

  /** `s.includes(sub)`. */
  predicate Contains(s: string, sub: string) {
    exists i | 0 <= i <= |s| - |sub| :: OccursAt(s, sub, i)
  }

  /** `s.startsWith(p)`. */
  predicate StartsWith(s: string, p: string) {
    |p| <= |s| && s[..|p|] == p
  }

  /** A needle with a character the haystack lacks occurs nowhere in it. */
  lemma NotContainsChar(s: string, sub: string, k: nat)
    requires k < |sub| && sub[k] !in s
    ensures !Contains(s, sub)
  {
    forall i | 0 <= i <= |s| - |sub|
      ensures !OccursAt(s, sub, i)
    {
      assert s[i..i + |sub|][k] == s[i + k];
    }
  }

  /** A text in which two consecutive characters of `sub` never appear
      side by side does not contain `sub`. */
  lemma NotContainsPair(s: string, sub: string, k: nat)
    requires k + 1 < |sub|
    requires forall i | 0 <= i < |s| - 1 :: !(s[i] == sub[k] && s[i + 1] == sub[k + 1])
    ensures !Contains(s, sub)
  {
    forall i | 0 <= i <= |s| - |sub|
      ensures !OccursAt(s, sub, i)
    {
      assert s[i..i + |sub|][k] == s[i + k] && s[i..i + |sub|][k + 1] == s[i + k + 1];
    }
  }
  /** Why a word cannot occur in a text: the text lacks the word's `k`-th
      letter, or never has its `k`-th and `k + 1`-th letters side by side. */
  datatype Absence = Letter(k: nat) | Pair(k: nat)

  predicate Absent(s: string, word: string, why: Absence) {
    match why
    case Letter(k) => k < |word| && word[k] !in s
    case Pair(k) => k + 1 < |word| && forall i | 0 <= i < |s| - 1 :: !(s[i] == word[k] && s[i + 1] == word[k + 1])
  }

  lemma AbsentNotContains(s: string, word: string, why: Absence)
    requires Absent(s, word, why)
    ensures !Contains(s, word)
  {
    match why
    case Letter(k) => NotContainsChar(s, word, k);
    case Pair(k) => NotContainsPair(s, word, k);
  }

  /** A word occurs in none of the texts when each text has a reason to lack it. */
  lemma NoneContains(texts: seq<string>, word: string, why: seq<Absence>)
    requires |why| == |texts|
    requires forall i | 0 <= i < |texts| :: Absent(texts[i], word, why[i])
    ensures forall i | 0 <= i < |texts| :: !Contains(texts[i], word)
  {
    forall i | 0 <= i < |texts|
      ensures !Contains(texts[i], word)
    {
      AbsentNotContains(texts[i], word, why[i]);
    }
  }


  // ---------------------------------------------------------------------
  // split / join

  /** `s.split(sep)` for a one-character separator: the pieces between
      separators, one more piece than there are separators. */
  function Split(s: string, sep: char): (parts: seq<string>)
    ensures |parts| >= 1
    ensures forall k | 0 <= k < |parts| :: sep !in parts[k]
  {
    if |s| == 0 then [""]
    else
      var rest := Split(s[1..], sep);
      if s[0] == sep then [""] + rest
      else [[s[0]] + rest[0]] + rest[1..]
  }

  /** `parts.join(sep)`. */
  function Join(parts: seq<string>, sep: string): string {
    if |parts| == 0 then ""
    else if |parts| == 1 then parts[0]
    else parts[0] + sep + Join(parts[1..], sep)
  }

  /** Joining the pieces of a split with the same separator gives back the
      original string. */
  lemma {:induction false} SplitJoin(s: string, sep: char)
    ensures Join(Split(s, sep), [sep]) == s
  {
    if |s| > 0 {
      var rest := Split(s[1..], sep);
      SplitJoin(s[1..], sep);
      assert s == [s[0]] + s[1..];
      if s[0] == sep {
        var parts := [""] + rest;
        assert Split(s, sep) == parts;
        assert parts[1..] == rest;
      } else {
        var parts := [[s[0]] + rest[0]] + rest[1..];
        assert Split(s, sep) == parts;
        if |rest| > 1 {
          assert parts[1..] == rest[1..];
          assert Join(rest, [sep]) == rest[0] + [sep] + Join(rest[1..], [sep]);
        }
      }
    }
  }

  /** Splitting a piece free of the separator, followed by the separator and
      more text, yields that piece first. */
  lemma {:induction false} SplitCons(p: string, sep: char, rest: string)
    requires sep !in p
    ensures Split(p + [sep] + rest, sep) == [p] + Split(rest, sep)
  {
    var s := p + [sep] + rest;
    if |p| > 0 {
      SplitCons(p[1..], sep, rest);
      assert s[1..] == p[1..] + [sep] + rest;
      assert s[0] == p[0] && p[0] != sep;
      var tail := Split(s[1..], sep);
      assert tail == [p[1..]] + Split(rest, sep);
      assert Split(s, sep) == [[p[0]] + tail[0]] + tail[1..];
      assert [p[0]] + p[1..] == p;
    } else {
      assert s == [sep] + rest;
      assert s[1..] == rest;
    }
  }

  /** A separator splits the text around it: the pieces of what precedes
      it, then the pieces of what follows. */
  lemma {:induction false} SplitAround(a: string, sep: char, b: string)
    ensures Split(a + [sep] + b, sep) == Split(a, sep) + Split(b, sep)
    decreases |a|
  {
    var s := a + [sep] + b;
    if |a| == 0 {
      assert s == [sep] + b && s[1..] == b;
    } else {
      assert s[0] == a[0] && s[1..] == a[1..] + [sep] + b;
      SplitAround(a[1..], sep, b);
      var front := Split(a[1..], sep);
      var tail := Split(s[1..], sep);
      assert tail == front + Split(b, sep);
      if a[0] != sep {
        assert tail[0] == front[0];
        assert tail[1..] == front[1..] + Split(b, sep);
      }
    }
  }

  /** A string free of the separator splits into itself alone. */
  lemma {:induction false} SplitNoSep(p: string, sep: char)
    requires sep !in p
    ensures Split(p, sep) == [p]
  {
    if |p| > 0 {
      SplitNoSep(p[1..], sep);
      assert [p[0]] + p[1..] == p;
    }
  }

  /** Splitting a join of separator-free pieces gives back the pieces. */
  lemma {:induction false} JoinSplit(parts: seq<string>, sep: char)
    requires |parts| >= 1
    requires forall k | 0 <= k < |parts| :: sep !in parts[k]
    ensures Split(Join(parts, [sep]), sep) == parts
  {
    if |parts| == 1 {
      SplitNoSep(parts[0], sep);
    } else {
      JoinSplit(parts[1..], sep);
      assert Join(parts, [sep]) == parts[0] + [sep] + Join(parts[1..], [sep]);
      SplitCons(parts[0], sep, Join(parts[1..], [sep]));
      assert [parts[0]] + parts[1..] == parts;
    }
  }

  /** `s.replace(c, '')` with a one-character string pattern: only the first
      occurrence is removed. */
  function RemoveFirst(s: string, c: char): (r: string)
    ensures c !in s ==> r == s
    ensures c in s ==> |r| == |s| - 1
  {
    if |s| == 0 then ""
    else if s[0] == c then s[1..]
    else [s[0]] + RemoveFirst(s[1..], c)
  }

  /** The occurrence removed is the first one: what precedes it and what
      follows it are kept as they are. */
  lemma {:induction false} RemoveFirstAt(p: string, c: char, rest: string)
    requires c !in p
    ensures RemoveFirst(p + [c] + rest, c) == p + rest
  {
    var s := p + [c] + rest;
    if p == [] {
      assert s[1..] == rest;
    } else {
      assert s[1..] == p[1..] + [c] + rest;
      assert p[0] != c;
      RemoveFirstAt(p[1..], c, rest);
    }
  }

  // ---------------------------------------------------------------------
  // trim

  function TrimStart(s: string): (r: string)
    ensures |r| <= |s| && r == s[|s| - |r|..]
    ensures AllSpace(s[..|s| - |r|])
    ensures r == "" || !IsSpace(r[0])
  {
    if |s| > 0 && IsSpace(s[0]) then
      var r := TrimStart(s[1..]);
      assert s[..|s| - |r|] == [s[0]] + s[1..][..|s| - 1 - |r|];
      r
    else s
  }

  /** A whitespace run followed by text that does not start with
      whitespace: trimming the start removes exactly the run. */
  lemma {:induction false} TrimStartRun(w: string, b: string)
    requires AllSpace(w)
    requires b == "" || !IsSpace(b[0])
    ensures TrimStart(w + b) == b
  {
    if |w| > 0 {
      assert (w + b)[0] == w[0] && (w + b)[1..] == w[1..] + b;
      assert AllSpace(w[1..]) by {
        assert forall i | 0 <= i < |w| - 1 :: w[1..][i] == w[i + 1];
      }
      TrimStartRun(w[1..], b);
    } else {
      assert w + b == b;
    }
  }

  function TrimEnd(s: string): (r: string)
    ensures |r| <= |s| && r == s[..|r|]
    ensures AllSpace(s[|r|..])
    ensures r == "" || !IsSpace(r[|r| - 1])
  {
    if |s| > 0 && IsSpace(s[|s| - 1]) then
      var r := TrimEnd(s[..|s| - 1]);
      assert s[|r|..] == s[..|s| - 1][|r|..] + [s[|s| - 1]];
      r
    else s
  }

  /** `s.trim()`: the infix left once the leading and trailing whitespace runs
      are removed. */
  function Trim(s: string): (r: string)
    ensures r == "" || (!IsSpace(r[0]) && !IsSpace(r[|r| - 1]))
    ensures exists i | 0 <= i <= |s| - |r| :: OccursAt(s, r, i) && AllSpace(s[..i]) && AllSpace(s[i + |r|..])
    ensures r == "" <==> AllSpace(s)
  {
    var t := TrimStart(s);
    var r := TrimEnd(t);
    TrimParts(s, t, r);
    r
  }

  lemma TrimParts(s: string, t: string, r: string)
    requires |t| <= |s| && t == s[|s| - |t|..] && AllSpace(s[..|s| - |t|])
    requires |r| <= |t| && r == t[..|r|] && AllSpace(t[|r|..])
    requires r == "" || !IsSpace(r[0])
    ensures exists i | 0 <= i <= |s| - |r| :: OccursAt(s, r, i) && AllSpace(s[..i]) && AllSpace(s[i + |r|..])
    ensures r == "" <==> AllSpace(s)
  {
    var i := |s| - |t|;
    assert OccursAt(s, r, i) && AllSpace(s[..i]) && AllSpace(s[i + |r|..]) by {
      assert s[i..i + |r|] == t[..|r|];
      assert s[i + |r|..] == t[|r|..];
    }
    assert s[i..i + |r|] == t[..|r|];
    assert s[i + |r|..] == t[|r|..];
    if r == "" {
      forall k | 0 <= k < |s| ensures IsSpace(s[k]) {
        if k < i { assert s[k] == s[..i][k]; } else { assert s[k] == t[k - i]; }
      }
    } else {
      assert s[i] == r[0];
    }
  }

  // ---------------------------------------------------------------------
  // decimal numbers

  predicate IsDigit(c: char) { '0' <= c <= '9' }

  predicate AllDigits(s: string) {
    forall i | 0 <= i < |s| :: IsDigit(s[i])
  }

  function DigitChar(d: nat): (c: char)
    requires d < 10
    ensures IsDigit(c)
  {
    ('0' as int + d) as char
  }

  /** The value of a decimal digit string, most significant digit first. */
  function DigitsValue(s: string): nat
    requires AllDigits(s)
  {
    if |s| == 0 then 0
    else 10 * DigitsValue(s[..|s| - 1]) + (s[|s| - 1] as int - '0' as int)
  }

  /** The decimal rendering of a natural number (JavaScript's `String(n)`). */
  function NatToString(n: nat): (s: string)
    ensures |s| >= 1 && AllDigits(s)
    ensures DigitsValue(s) == n
    ensures s[0] != '0' || n == 0
  {
    if n < 10 then [DigitChar(n)]
    else
      var s := NatToString(n / 10) + [DigitChar(n % 10)];
      assert s[..|s| - 1] == NatToString(n / 10);
      s
  }

  /** The length of the longest run of digits `s` starts with. */
  function DigitPrefixLen(s: string): (n: nat)
    ensures n <= |s| && AllDigits(s[..n])
    ensures n == |s| || !IsDigit(s[n])
  {
    if |s| == 0 || !IsDigit(s[0]) then 0
    else
      var n := 1 + DigitPrefixLen(s[1..]);
      assert s[..n] == [s[0]] + s[1..][..n - 1];
      n
  }

  /** `parseInt(s)` without a radix, for decimal text: leading whitespace is
      skipped, one sign is read, then the longest run of digits; `None`
      stands for `NaN` (no digit where one is needed). */
  function ParseInt(s: string): (r: Option<int>)
    ensures r.Some? <==>
              var t := TrimStart(s);
              var u := if |t| > 0 && (t[0] == '-' || t[0] == '+') then t[1..] else t;
              |u| > 0 && IsDigit(u[0])
  {
    var t := TrimStart(s);
    var negative := |t| > 0 && t[0] == '-';
    var u := if |t| > 0 && (t[0] == '-' || t[0] == '+') then t[1..] else t;
    var n := DigitPrefixLen(u);
    if n == 0 then None
    else
      var v: int := DigitsValue(u[..n]);
      Some(if negative then -v else v)
  }

  lemma DigitPrefixStep(d: string, rest: string)
    requires |d| > 0 && IsDigit(d[0])
    requires DigitPrefixLen(d[1..] + rest) == |d| - 1
    ensures DigitPrefixLen(d + rest) == |d|
  {
    assert (d + rest)[0] == d[0] && (d + rest)[1..] == d[1..] + rest;
  }

  /** A run of digits ends where the first non-digit starts. */
  lemma {:induction false} DigitPrefixOfDigits(d: string, rest: string)
    requires AllDigits(d)
    requires rest == "" || !IsDigit(rest[0])
    ensures DigitPrefixLen(d + rest) == |d|
  {
    if |d| > 0 {
      assert AllDigits(d[1..]);
      DigitPrefixOfDigits(d[1..], rest);
      DigitPrefixStep(d, rest);
    } else {
      assert d + rest == rest;
    }
  }

  /** A rendered number holds no separator other than digits. */
  lemma NoSepInNumber(n: nat, sep: char)
    requires !IsDigit(sep)
    ensures sep !in NatToString(n)
  {
  }

  /** Text that starts with a digit has no leading whitespace to skip. */
  lemma TrimStartAtDigit(s: string)
    requires |s| > 0 && IsDigit(s[0])
    ensures TrimStart(s) == s
  {
    assert !IsSpace(s[0]);
  }

  /** `parseInt` reads a leading run of digits, whatever non-digit text
      follows it. */
  lemma ParseIntDigits(d: string, rest: string)
    requires |d| > 0 && AllDigits(d)
    requires rest == "" || !IsDigit(rest[0])
    ensures ParseInt(d + rest) == Some(DigitsValue(d))
  {
    var s := d + rest;
    assert s[0] == d[0];
    ParseIntAtDigit(s);
    DigitPrefixOfDigits(d, rest);
    assert s[..|d|] == d;
  }

  /** Text that starts with a digit is read from its first character, with
      no whitespace and no sign. */
  lemma ParseIntAtDigit(s: string)
    requires |s| > 0 && IsDigit(s[0])
    ensures DigitPrefixLen(s) > 0
    ensures ParseInt(s) == Some(DigitsValue(s[..DigitPrefixLen(s)]))
  {
    TrimStartAtDigit(s);
    ParseIntUnsigned(s);
  }

  /** Text with no leading whitespace and no sign is read as its leading
      run of digits. */
  lemma ParseIntUnsigned(s: string)
    requires TrimStart(s) == s
    requires s == "" || (s[0] != '-' && s[0] != '+')
    ensures ParseInt(s) == if DigitPrefixLen(s) == 0 then None else Some(DigitsValue(s[..DigitPrefixLen(s)]))
  { }

  /** `parseInt` reads back a rendered number, whatever non-digit text
      follows it. */
  lemma ParseIntRendered(n: nat, rest: string)
    requires rest == "" || !IsDigit(rest[0])
    ensures ParseInt(NatToString(n) + rest) == Some(n)
  {
    ParseIntDigits(NatToString(n), rest);
  }
}
