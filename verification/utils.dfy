/** The helpers of `utils.ts` that compute on strings: class-name joining,
    initials, the email pattern, the domain of an address, the personal
    webmail check and truncation. */
module Utils {

  import opened Strings
  import opened EmailPattern
  import opened Sequences
  import Booking

  // ---------------------------------------------------------------------
  // cn

  /** One argument of `cn`: a string, `null`, `undefined` or `false`. */
  datatype ClassArg = Str(s: string) | Null | Undefined | False

  /** `Boolean(arg)`: only a non-empty string is truthy. */
  predicate Truthy(a: ClassArg) {
    a.Str? && a.s != ""
  }

  /** What one argument contributes to the class list. */
  function KeptOf(a: ClassArg): (r: seq<string>)
    ensures |r| <= 1
  {
    if Truthy(a) then [a.s] else []
  }

  /** `classes.filter(Boolean)`: the truthy arguments' strings, in order. */
  function Kept(args: seq<ClassArg>): seq<string> {
    FlatMap(KeptOf, args)
  }

  /** `cn(...classes)`: the truthy arguments joined by single spaces. */
  function Cn(args: seq<ClassArg>): string {
    Join(Kept(args), " ")
  }

  /** The arguments are read in order: the first one's name (if truthy)
      comes before everything the rest contribute. */
  lemma KeptCons(a: ClassArg, args: seq<ClassArg>)
    ensures Kept([a] + args) == KeptOf(a) + Kept(args)
  {
    assert ([a] + args)[1..] == args;
  }

  /** Every kept class name is non-empty and was passed; every truthy
      argument is kept. */
  predicate KeptExactly(args: seq<ClassArg>, kept: seq<string>) {
    && (forall k | 0 <= k < |kept| :: kept[k] != "" && Str(kept[k]) in args)
    && (forall i | 0 <= i < |args| && Truthy(args[i]) :: args[i].s in kept)
  }

  lemma KeptMembersStep(args: seq<ClassArg>)
    requires |args| > 0
    requires KeptExactly(args[1..], Kept(args[1..]))
    ensures KeptExactly(args, Kept(args))
  {
    assert args == [args[0]] + args[1..];
    KeptCons(args[0], args[1..]);
    assert forall i | 1 <= i < |args| :: args[i] == args[1..][i - 1];
  }

  lemma {:induction false} KeptMembers(args: seq<ClassArg>)
    ensures |Kept(args)| <= |args|
    ensures KeptExactly(args, Kept(args))
  {
    if |args| > 0 {
      KeptMembers(args[1..]);
      KeptMembersStep(args);
    }
  }

  /** A falsy argument contributes nothing. */
  lemma KeptFalsy(a: ClassArg)
    requires !Truthy(a)
    ensures Kept([a]) == []
  {
    KeptCons(a, []);
    assert [a] + [] == [a];
  }

  lemma KeptDropsFalsy(before: seq<ClassArg>, a: ClassArg, after: seq<ClassArg>)
    requires !Truthy(a)
    ensures Kept(before + [a] + after) == Kept(before + after)
  {
    FlatMapAppend(KeptOf, before + [a], after);
    FlatMapAppend(KeptOf, before, [a]);
    FlatMapAppend(KeptOf, before, after);
    KeptFalsy(a);
    assert Kept(before) + [] == Kept(before);
  }

  /** Dropping a falsy argument anywhere changes nothing. */
  lemma CnDropsFalsy(before: seq<ClassArg>, a: ClassArg, after: seq<ClassArg>)
    requires !Truthy(a)
    ensures Cn(before + [a] + after) == Cn(before + after)
  {
    KeptDropsFalsy(before, a, after);
  }

  /** When no class name holds a space, splitting the result on spaces gives
      back exactly the truthy arguments, in order. */
  lemma CnSplit(args: seq<ClassArg>)
    requires |Kept(args)| >= 1
    requires forall i | 0 <= i < |args| && args[i].Str? :: ' ' !in args[i].s
    ensures Split(Cn(args), ' ') == Kept(args)
  {
    var kept := Kept(args);
    KeptMembers(args);
    forall k | 0 <= k < |kept| ensures ' ' !in kept[k] {
      assert Str(kept[k]) in args;
    }
    JoinSplit(kept, ' ');
  }

  // ---------------------------------------------------------------------
  // getInitials

  /** `word[0]` for every word, where an empty word's `undefined` joins as
      nothing. */
  function FirstLetters(words: seq<string>): (r: string)
    ensures |r| <= |words|
  {
    if |words| == 0 then ""
    else (if words[0] == "" then "" else [words[0][0]]) + FirstLetters(words[1..])
  }

  /** `getInitials(name)`: the first letters of the space-separated words,
      upper-cased, at most two of them. */
  function GetInitials(name: string): (r: string)
    ensures |r| <= 2
    ensures forall k | 0 <= k < |r| :: !IsLowerAscii(r[k])
  {
    var letters := Upper(FirstLetters(Split(name, ' ')));
    if |letters| <= 2 then letters else letters[..2]
  }

  /** The first character of every word, for words that all have one. */
  function Heads(words: seq<string>): (r: string)
    requires forall k | 0 <= k < |words| :: words[k] != ""
    ensures |r| == |words|
    ensures forall k | 0 <= k < |r| :: r[k] == words[k][0]
  {
    if |words| == 0 then "" else [words[0][0]] + Heads(words[1..])
  }

  lemma FirstLettersOfWordsStep(words: seq<string>)
    requires |words| > 0
    requires FirstLetters(words[1..]) == Heads(Filter(NonEmpty, words[1..]))
    ensures FirstLetters(words) == Heads(Filter(NonEmpty, words))
  {
    assert words == [words[0]] + words[1..];
    FilterCons(NonEmpty, words[0], words[1..]);
    var rest := Filter(NonEmpty, words[1..]);
    if words[0] != "" {
      assert ([words[0]] + rest)[1..] == rest;
    }
  }

  /** The first letters are exactly the first characters of the non-empty
      words, in order: an empty word contributes nothing. */
  lemma {:induction false} FirstLettersOfWords(words: seq<string>)
    ensures FirstLetters(words) == Heads(Filter(NonEmpty, words))
  {
    if |words| > 0 {
      FirstLettersOfWords(words[1..]);
      FirstLettersOfWordsStep(words);
    }
  }

  /** An empty word anywhere in the list leaves the first letters as they are. */
  lemma FirstLettersDropsEmpty(before: seq<string>, after: seq<string>)
    ensures FirstLetters(before + [""] + after) == FirstLetters(before + after)
  {
    FirstLettersOfWords(before + [""] + after);
    FirstLettersOfWords(before + after);
    FilterSkips(NonEmpty, before, "", after);
  }

  /** The initials are the upper-cased first characters of the first two
      non-empty space-separated words of the name, or of the one word when
      there is only one. */
  lemma GetInitialsOfWords(name: string)
    ensures var ws := Filter(NonEmpty, Split(name, ' '));
            |GetInitials(name)| == (if |ws| < 2 then |ws| else 2) &&
            forall k | 0 <= k < |GetInitials(name)| :: GetInitials(name)[k] == UpperChar(ws[k][0])
  {
    FirstLettersOfWords(Split(name, ' '));
  }

  /** The words around a doubled space: an empty word between them. */
  lemma SplitDoubledSpace(a: string, b: string)
    ensures Split(a + "  " + b, ' ') == Split(a, ' ') + [""] + Split(b, ' ')
  {
    SplitAround(a, ' ', " " + b);
    assert a + [' '] + (" " + b) == a + "  " + b;
    SplitAround("", ' ', b);
    assert "" + [' '] + b == " " + b;
  }

  /** The words before a trailing space, then an empty word. */
  lemma SplitTrailingSpace(a: string)
    ensures Split(a + " ", ' ') == Split(a, ' ') + [""] + []
  {
    SplitAround(a, ' ', "");
    assert a + [' '] + "" == a + " ";
  }

  /** A doubled space between two parts changes nothing: it makes an empty
      word. */
  lemma DoubledSpaceIgnored(a: string, b: string)
    ensures GetInitials(a + "  " + b) == GetInitials(a + " " + b)
  {
    SplitDoubledSpace(a, b);
    SplitAround(a, ' ', b);
    assert a + [' '] + b == a + " " + b;
    FirstLettersDropsEmpty(Split(a, ' '), Split(b, ' '));
  }

  /** A space at the end changes nothing: it makes an empty last word. */
  lemma TrailingSpaceIgnored(a: string)
    ensures GetInitials(a + " ") == GetInitials(a)
  {
    SplitTrailingSpace(a);
    FirstLettersDropsEmpty(Split(a, ' '), []);
    assert Split(a, ' ') + [] == Split(a, ' ');
  }

  /** A leading space makes an empty first word, which contributes nothing. */
  lemma LeadingSpaceIgnored(name: string)
    ensures GetInitials(" " + name) == GetInitials(name)
  {
    SplitCons("", ' ', name);
    assert "" + [' '] + name == " " + name;
    var words := Split(name, ' ');
    assert ([""] + words)[1..] == words;
  }

  /** Two plain words give their two initials. */
  lemma TwoWordInitials(first: string, last: string)
    requires first != "" && last != ""
    requires ' ' !in first && ' ' !in last
    ensures GetInitials(first + " " + last) == [UpperChar(first[0]), UpperChar(last[0])]
  {
    SplitCons(first, ' ', last);
    SplitNoSep(last, ' ');
    assert first + [' '] + last == first + " " + last;
    var words := [first, last];
    assert words[1..] == [last] && words[1..][1..] == [];
    assert FirstLetters(words) == [first[0], last[0]];
  }

  // ---------------------------------------------------------------------
  // isValidEmail

  /** `isValidEmail`: the same pattern the booking form uses. */
  predicate IsValidEmail(email: string) {
    Matches(email)
  }

  /** The helper and the booking form agree on every address: the form flags
      the email field exactly when the helper rejects the address (an empty
      address is flagged as missing, and the helper rejects it too). */
  lemma IsValidEmailAgreesWithForm(f: Booking.Form, now: int)
    ensures Booking.WorkEmailField in Booking.Validate(f, now) <==> !IsValidEmail(f.workEmail)
    ensures IsValidEmail(f.workEmail) <==> WellShaped(f.workEmail)
  {
    MatchesIffWellShaped(f.workEmail);
  }

  // ---------------------------------------------------------------------
  // getCompanyDomain / isPersonalEmail

  /** `email.split('@')[1] || ''`. */
  function GetCompanyDomain(email: string): (r: string)
    ensures '@' !in r
    ensures '@' !in email ==> r == ""
  {
    var parts := Split(email, '@');
    assert '@' !in email ==> |parts| == 1 by {
      if '@' !in email { SplitNoSep(email, '@'); }
    }
    if |parts| < 2 then "" else parts[1]
  }

  /** The domain is the text between the first and the second '@' (or the
      end of the address). */
  lemma DomainBetween(local: string, domain: string, rest: string)
    requires '@' !in local && '@' !in domain
    ensures GetCompanyDomain(local + "@" + domain) == domain
    ensures GetCompanyDomain(local + "@" + domain + "@" + rest) == domain
  {
    SplitCons(local, '@', domain);
    SplitNoSep(domain, '@');
    assert local + ['@'] + domain == local + "@" + domain;
    SplitCons(domain, '@', rest);
    SplitCons(local, '@', domain + "@" + rest);
    assert local + ['@'] + (domain + ['@'] + rest) == local + "@" + domain + "@" + rest;
  }

  const PersonalDomains: seq<string> :=
    ["gmail.com", "yahoo.com", "hotmail.com", "outlook.com", "icloud.com", "aol.com"]

  /** `isPersonalEmail`: the lower-cased domain is one of the listed webmail
      providers. */
  predicate IsPersonalEmail(email: string) {
    Lower(GetCompanyDomain(email)) in PersonalDomains
  }

  /** Splitting commutes with lower-casing when the separator is no letter. */
  lemma {:induction false} SplitLower(s: string, sep: char)
    requires !IsUpperAscii(sep) && !IsLowerAscii(sep)
    ensures |Split(Lower(s), sep)| == |Split(s, sep)|
    ensures forall k | 0 <= k < |Split(s, sep)| :: Split(Lower(s), sep)[k] == Lower(Split(s, sep)[k])
  {
    if |s| > 0 {
      SplitLower(s[1..], sep);
      var ls := Lower(s);
      assert ls[1..] == Lower(s[1..]);
      assert ls[0] == sep <==> s[0] == sep;
      var rest := Split(s[1..], sep);
      if s[0] != sep {
        assert Lower([s[0]] + rest[0]) == [ls[0]] + Lower(rest[0]);
      }
    }
  }

  /** Case in the address never changes the verdict. */
  lemma PersonalCaseInsensitive(email: string)
    ensures IsPersonalEmail(Lower(email)) <==> IsPersonalEmail(email)
  {
    SplitLower(email, '@');
    var parts := Split(email, '@');
    if |parts| >= 2 {
      LowerIdempotent(parts[1]);
    }
  }

  /** For an address with one '@', the verdict is read off its domain. */
  lemma PersonalIffDomain(local: string, domain: string)
    requires '@' !in local && '@' !in domain
    ensures IsPersonalEmail(local + "@" + domain) <==> Lower(domain) in PersonalDomains
  {
    DomainBetween(local, domain, "");
  }

  // ---------------------------------------------------------------------
  // truncateText

  /** `truncateText(text, maxLength)`: the text itself when it fits, else the
      cut text and an ellipsis. A negative length cuts that many characters
      off the end, as `slice` does. */
  function TruncateText(text: string, maxLength: int): (r: string)
    ensures |text| <= maxLength ==> r == text
    ensures |text| > maxLength ==> |r| >= 3 && r[|r| - 3..] == "..." && StartsWith(text, r[..|r| - 3])
    ensures |text| > maxLength >= 0 ==> |r| == maxLength + 3
    ensures maxLength < 0 ==> |r| == 3 + if |text| + maxLength > 0 then |text| + maxLength else 0
  {
    if |text| <= maxLength then text
    else
      var cut := if maxLength >= 0 then maxLength else if |text| + maxLength > 0 then |text| + maxLength else 0;
      text[..cut] + "..."
  }
}
