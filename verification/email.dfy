/** The email pattern `/^[^\s@]+@[^\s@]+\.[^\s@]+$/` shared by the booking
    form (`SimpleBookingModal.tsx`) and `isValidEmail` (`utils.ts`): its
    meaning as a regular expression, a one-pass checker, and the proof that
    the two agree. */
module EmailPattern {

  import opened Strings

  /** A character of the class `[^\s@]`. */
  predicate PartChar(c: char) {
    !IsSpace(c) && c != '@'
  }

  predicate AllPartChars(s: string) {
    forall j | 0 <= j < |s| :: PartChar(s[j])
  }

  /** The pattern matches with its `@` at `i` and its escaped `.` at `k`: three
      non-empty runs of `[^\s@]` around them, covering the whole string. */
  predicate MatchesAt(s: string, i: int, k: int) {
    && 0 < i && i + 1 < k && k + 1 < |s|
    && s[i] == '@' && s[k] == '.'
    && AllPartChars(s[..i]) && AllPartChars(s[i + 1..k]) && AllPartChars(s[k + 1..])
  }

  /** `regex.test(s)`, as the regular expression defines it. */
  predicate Matches(s: string) {
    exists i, k | 0 <= i < k < |s| :: MatchesAt(s, i, k)
  }

  /** The same language in plain words: no whitespace, exactly one `@`, not
      at the start, and a `.` in the domain with a character on each side. */
  predicate WellShaped(s: string) {
    && (forall j | 0 <= j < |s| :: !IsSpace(s[j]))
    && exists i | 0 < i < |s| ::
         && s[i] == '@'
         && (forall j | 0 <= j < |s| && j != i :: s[j] != '@')
         && exists k | i + 1 < k < |s| - 1 :: s[k] == '.'
  }

  /** The regular expression and the plain description accept the same
      strings. */
  lemma MatchesIffWellShaped(s: string)
    ensures Matches(s) <==> WellShaped(s)
  {
    if Matches(s) {
      var i, k :| 0 <= i < k < |s| && MatchesAt(s, i, k);
      forall j | 0 <= j < |s| ensures !IsSpace(s[j]) && (j != i ==> s[j] != '@') {
        if j < i {
          assert s[j] == s[..i][j];
        } else if i < j < k {
          assert s[j] == s[i + 1..k][j - i - 1];
        } else if j > k {
          assert s[j] == s[k + 1..][j - k - 1];
        }
      }
      assert i + 1 < k < |s| - 1 && s[k] == '.';
    }
    if WellShaped(s) {
      var i :| 0 < i < |s| && s[i] == '@' && (forall j | 0 <= j < |s| && j != i :: s[j] != '@')
               && exists k | i + 1 < k < |s| - 1 :: s[k] == '.';
      var k :| i + 1 < k < |s| - 1 && s[k] == '.';
      PartCharsBetween(s, 0, i);
      PartCharsBetween(s, i + 1, k);
      PartCharsBetween(s, k + 1, |s|);
      assert s[k + 1..|s|] == s[k + 1..];
      assert MatchesAt(s, i, k);
    }
  }

  lemma PartCharsBetween(s: string, lo: nat, hi: nat)
    requires lo <= hi <= |s|
    requires forall m | lo <= m < hi :: PartChar(s[m])
    ensures AllPartChars(s[lo..hi])
  {
  }

  /** One left-to-right pass: reject on whitespace or a second `@`, remember
      the first `@`, and note any `.` that has the `@` and one character
      before it and at least one character after it. */
  method CheckEmail(s: string) returns (ok: bool)
    ensures ok == Matches(s)
  {
    var clean := true;
    var at := -1;
    var dot := false;
    for j := 0 to |s|
      invariant -1 <= at < j || (at == -1 && j == 0)
      invariant clean <==> (forall m | 0 <= m < j :: !IsSpace(s[m]))
                           && (forall m, n | 0 <= m < n < j :: !(s[m] == '@' && s[n] == '@'))
      invariant at == -1 <==> (forall m | 0 <= m < j :: s[m] != '@')
      invariant at >= 0 ==> s[at] == '@' && forall m | 0 <= m < at :: s[m] != '@'
      invariant dot <==> at >= 0 && exists m | at + 1 < m < j && m < |s| - 1 :: s[m] == '.'
    {
      if IsSpace(s[j]) {
        clean := false;
      } else if s[j] == '@' {
        if at >= 0 {
          clean := false;
        } else {
          at := j;
        }
      } else if s[j] == '.' && at >= 0 && at + 1 < j && j < |s| - 1 {
        dot := true;
      }
    }
    ok := clean && at > 0 && dot;
    MatchesIffWellShaped(s);
    if ok {
      assert WellShaped(s) by {
        forall j | 0 <= j < |s| && j != at ensures s[j] != '@' {
          if j > at {
            assert !(s[at] == '@' && s[j] == '@');
          }
        }
      }
    }
    if WellShaped(s) {
      var i :| 0 < i < |s| && s[i] == '@' && (forall j | 0 <= j < |s| && j != i :: s[j] != '@')
               && exists k | i + 1 < k < |s| - 1 :: s[k] == '.';
      assert at == i;
    }
  }
}
