/** What the booking confirmation of `BookingSuccessState.tsx` serialises:
    the compact iCalendar timestamps, the twelve-line event file, its file
    name, and the estimate put into the shared summary. */
module Calendar {

  import opened Strings
  import opened Catalog
  import Booking

  // ---------------------------------------------------------------------
  // Dates

  /** A UTC date and time, as `toISOString` reads it. */
  datatype DateTime = DateTime(year: nat, month: nat, day: nat, hour: nat, minute: nat, second: nat, ms: nat)

  predicate IsLeapYear(y: nat) {
    (y % 4 == 0 && y % 100 != 0) || y % 400 == 0
  }

  function DaysInMonth(y: nat, m: nat): nat
    requires 1 <= m <= 12
  {
    if m == 2 then (if IsLeapYear(y) then 29 else 28)
    else if m == 4 || m == 6 || m == 9 || m == 11 then 30
    else 31
  }

  /** A real calendar moment whose year `toISOString` writes with four
      digits. */
  predicate Valid(d: DateTime) {
    && d.year <= 9999
    && 1 <= d.month <= 12 && 1 <= d.day <= DaysInMonth(d.year, d.month)
    && d.hour < 24 && d.minute < 60 && d.second < 60 && d.ms < 1000
  }

  /** `setDate(getDate() + 1)`: the same time on the following calendar day,
      rolling over the month and the year. */
  function NextDay(d: DateTime): (r: DateTime)
    requires Valid(d) && d.year < 9999
    ensures Valid(r)
    ensures (r.hour, r.minute, r.second, r.ms) == (d.hour, d.minute, d.second, d.ms)
  {
    if d.day < DaysInMonth(d.year, d.month) then d.(day := d.day + 1)
    else if d.month < 12 then d.(month := d.month + 1, day := 1)
    else d.(year := d.year + 1, month := 1, day := 1)
  }

  /** The first day of year zero, which has no day before it. */
  predicate IsFirstDay(d: DateTime) {
    d.year == 0 && d.month == 1 && d.day == 1
  }

  /** The calendar day before, at the same time. */
  function PrevDay(d: DateTime): (r: DateTime)
    requires Valid(d) && !IsFirstDay(d)
    ensures Valid(r)
  {
    if d.day > 1 then d.(day := d.day - 1)
    else if d.month > 1 then d.(month := d.month - 1, day := DaysInMonth(d.year, d.month - 1))
    else d.(year := d.year - 1, month := 12, day := 31)
  }

  /** Chronological order of valid moments. */
  predicate Before(a: DateTime, b: DateTime) {
    || a.year < b.year
    || (a.year == b.year && a.month < b.month)
    || (a.year == b.year && a.month == b.month && a.day < b.day)
  }

  /** The end is exactly one calendar day after the start: it comes later,
      and stepping one day back from it gives the start again. */
  lemma NextDayIsOneDayLater(d: DateTime)
    requires Valid(d) && d.year < 9999
    ensures Before(d, NextDay(d))
    ensures !IsFirstDay(NextDay(d)) && PrevDay(NextDay(d)) == d
  {
  }

  /** Every day after the very first is the next day of its predecessor. */
  lemma PrevDayIsOneDayEarlier(d: DateTime)
    requires Valid(d) && !IsFirstDay(d) && d.year < 9999
    ensures PrevDay(d).year < 9999 && NextDay(PrevDay(d)) == d
  {
  }

  // ---------------------------------------------------------------------
  // Timestamps

  function Pad2(n: nat): (s: string)
    requires n < 100
    ensures |s| == 2 && AllDigits(s)
  {
    [DigitChar(n / 10), DigitChar(n % 10)]
  }

  function Pad3(n: nat): (s: string)
    requires n < 1000
    ensures |s| == 3 && AllDigits(s)
  {
    [DigitChar(n / 100)] + Pad2(n % 100)
  }

  function Pad4(n: nat): (s: string)
    requires n < 10000
    ensures |s| == 4 && AllDigits(s)
  {
    [DigitChar(n / 1000)] + Pad3(n % 1000)
  }

  /** `YYYY-MM-DD`. */
  function IsoDate(d: DateTime): string
    requires Valid(d)
  {
    Pad4(d.year) + "-" + Pad2(d.month) + "-" + Pad2(d.day)
  }

  /** `HH:mm:ss`. */
  function IsoTime(d: DateTime): string
    requires Valid(d)
  {
    Pad2(d.hour) + ":" + Pad2(d.minute) + ":" + Pad2(d.second)
  }

  /** `toISOString()`: `YYYY-MM-DDTHH:mm:ss.sssZ`. */
  function Iso(d: DateTime): string
    requires Valid(d)
  {
    IsoDate(d) + "T" + IsoTime(d) + "." + Pad3(d.ms) + "Z"
  }

  /** The date and time digits of section 3.3.5 of RFC 5545 in UTC form,
      without the 'Z': `YYYYMMDDTHHMMSS`. */
  function CompactHead(d: DateTime): (r: string)
    requires Valid(d)
    ensures '.' !in r
  {
    var date := Pad4(d.year) + Pad2(d.month) + Pad2(d.day);
    var time := Pad2(d.hour) + Pad2(d.minute) + Pad2(d.second);
    assert '.' !in date && '.' !in time;
    date + "T" + time
  }

  /** `YYYYMMDDTHHMMSSZ`. */
  function Compact(d: DateTime): string
    requires Valid(d)
  {
    CompactHead(d) + "Z"
  }

  /** `replace(/[-:]/g, '')`. */
  function StripSeparators(s: string): (r: string)
    ensures '-' !in r && ':' !in r
    ensures |r| <= |s|
  {
    if |s| == 0 then ""
    else (if s[0] == '-' || s[0] == ':' then "" else [s[0]]) + StripSeparators(s[1..])
  }

  lemma {:induction false} StripAppend(a: string, b: string)
    ensures StripSeparators(a + b) == StripSeparators(a) + StripSeparators(b)
  {
    if |a| > 0 {
      StripAppend(a[1..], b);
      assert (a + b)[1..] == a[1..] + b;
    } else {
      assert a + b == b;
    }
  }

  lemma {:induction false} StripKeeps(a: string)
    requires '-' !in a && ':' !in a
    ensures StripSeparators(a) == a
  {
    if |a| > 0 {
      StripKeeps(a[1..]);
      assert a == [a[0]] + a[1..];
    }
  }

  /** `formatDate`: the ISO text without its separators, cut at the '.', and
      a 'Z' put back. */
  function FormatStamp(iso: string): (r: string)
    ensures '-' !in r && ':' !in r
    ensures |r| >= 1 && r[|r| - 1] == 'Z'
  {
    var parts := Split(StripSeparators(iso), '.');
    var r := parts[0] + "Z";
    assert '-' !in parts[0] && ':' !in parts[0] by {
      SplitPiecesFrom(StripSeparators(iso), '.', 0);
    }
    r
  }

  /** The pieces of a split hold only characters of the string split. */
  lemma {:induction false} SplitPiecesFrom(s: string, sep: char, k: nat)
    requires k < |Split(s, sep)|
    ensures forall c | c in Split(s, sep)[k] :: c in s
  {
    if |s| > 0 {
      var rest := Split(s[1..], sep);
      if s[0] == sep {
        if k > 0 {
          SplitPiecesFrom(s[1..], sep, k - 1);
        }
      } else {
        if k == 0 {
          SplitPiecesFrom(s[1..], sep, 0);
        } else {
          SplitPiecesFrom(s[1..], sep, k);
        }
      }
    }
  }

  /** A separator-free piece followed by one separator: only the separator
      goes. */
  lemma {:induction false} StripAfterPlain(a: string, c: char, rest: string)
    requires c == '-' || c == ':'
    requires '-' !in a && ':' !in a
    ensures StripSeparators(a + [c] + rest) == a + StripSeparators(rest)
  {
    var s := a + [c] + rest;
    if a == [] {
      assert s[1..] == rest;
    } else {
      assert s[1..] == a[1..] + [c] + rest;
      StripAfterPlain(a[1..], c, rest);
      assert a == [a[0]] + a[1..];
    }
  }

  /** Three separator-free pieces joined by separators lose just the
      separators. */
  lemma {:induction false} StripThree(a: string, c: char, b: string, e: string)
    requires c == '-' || c == ':'
    requires '-' !in a && ':' !in a && '-' !in b && ':' !in b && '-' !in e && ':' !in e
    ensures StripSeparators(a + [c] + b + [c] + e) == a + b + e
  {
    StripAfterPlain(b, c, e);
    StripKeeps(e);
    StripAfterPlain(a, c, b + [c] + e);
    assert a + [c] + b + [c] + e == a + [c] + (b + [c] + e);
  }

  /** The ISO text without its separators: the compact head, then the
      fraction and the 'Z'. */
  lemma {:induction false} StripIso(d: DateTime)
    requires Valid(d)
    ensures StripSeparators(Iso(d)) == CompactHead(d) + "." + Pad3(d.ms) + "Z"
  {
    var tail := "." + Pad3(d.ms) + "Z";
    StripThree(Pad4(d.year), '-', Pad2(d.month), Pad2(d.day));
    StripThree(Pad2(d.hour), ':', Pad2(d.minute), Pad2(d.second));
    StripKeeps("T");
    StripKeeps(tail);
    StripAppend(IsoDate(d), "T");
    StripAppend(IsoDate(d) + "T", IsoTime(d));
    StripAppend(IsoDate(d) + "T" + IsoTime(d), tail);
    assert Iso(d) == IsoDate(d) + "T" + IsoTime(d) + tail;
  }

  /** `formatDate` turns an ISO timestamp into the compact UTC form: every
      '-' and ':' and the fractional seconds go, and it ends in 'Z'. */
  lemma {:induction false} FormatOfIso(d: DateTime)
    requires Valid(d)
    ensures FormatStamp(Iso(d)) == Compact(d)
  {
    StripIso(d);
    var head := CompactHead(d);
    SplitCons(head, '.', Pad3(d.ms) + "Z");
    assert head + "." + Pad3(d.ms) + "Z" == head + ['.'] + (Pad3(d.ms) + "Z");
  }

  /** The worked example: midnight of 15 March 2024. */
  lemma FormatExample()
    ensures Compact(DateTime(2024, 3, 15, 0, 0, 0, 0)) == "20240315T000000Z"
  {
  }

  // ---------------------------------------------------------------------
  // The event file

  /** One line of the event file. */
  datatype IcsLine =
    | BeginCalendar | Version | ProductId | BeginEvent
    | Start(stamp: string) | End(stamp: string)
    | Summary(title: string) | Description(title: string, location: string) | Place(location: string)
    | Status | EndEvent | EndCalendar
  {
    function Text(): string {
      match this
      case BeginCalendar => "BEGIN:VCALENDAR"
      case Version => "VERSION:2.0"
      case ProductId => "PRODID:-//7DAY//Team Event//EN"
      case BeginEvent => "BEGIN:VEVENT"
      case Start(stamp) => "DTSTART:" + stamp
      case End(stamp) => "DTEND:" + stamp
      case Summary(title) => "SUMMARY:Team Event - " + title
      case Description(title, location) =>
        "DESCRIPTION:Team event at " + title + ", " + location + ". Booking inquiry submitted through 7DAY."
      case Place(location) => "LOCATION:" + location
      case Status => "STATUS:TENTATIVE"
      case EndEvent => "END:VEVENT"
      case EndCalendar => "END:VCALENDAR"
    }

    /** The line's variable text holds no line feed. */
    predicate SingleLine() {
      match this
      case Start(stamp) => '\n' !in stamp
      case End(stamp) => '\n' !in stamp
      case Summary(title) => '\n' !in title
      case Description(title, location) => '\n' !in title && '\n' !in location
      case Place(location) => '\n' !in location
      case _ => true
    }
  }

  /** The twelve lines for a venue and two stamps: the calendar wraps
      exactly one event. */
  function EventLines(title: string, location: string, startStamp: string, endStamp: string): (lines: seq<IcsLine>)
    ensures |lines| == 12
    ensures lines[0] == BeginCalendar && lines[1] == Version && lines[11] == EndCalendar
    ensures lines[3] == BeginEvent && lines[10] == EndEvent
    ensures forall k | 0 <= k < 12 && k != 3 :: lines[k] != BeginEvent
    ensures lines[4] == Start(startStamp) && lines[5] == End(endStamp)
    ensures lines[6] == Summary(title) && lines[8] == Place(location) && lines[9] == Status
    ensures lines[2] == ProductId && lines[7] == Description(title, location)
  {
    [ BeginCalendar, Version, ProductId, BeginEvent,
      Start(startStamp), End(endStamp),
      Summary(title), Description(title, location), Place(location),
      Status, EndEvent, EndCalendar ]
  }

  /** The lines of `icsContent`, before they are joined: the start is the
      chosen day, the end the day after, both in compact UTC form. */
  function IcsLines(e: Experience, start: DateTime): (lines: seq<IcsLine>)
    requires Valid(start) && start.year < 9999
    ensures lines == EventLines(e.title, e.location, Compact(start), Compact(NextDay(start)))
  {
    FormatOfIso(start);
    FormatOfIso(NextDay(start));
    EventLines(e.title, e.location, FormatStamp(Iso(start)), FormatStamp(Iso(NextDay(start))))
  }

  function Texts(lines: seq<IcsLine>): (r: seq<string>)
    ensures |r| == |lines|
    ensures forall k | 0 <= k < |lines| :: r[k] == lines[k].Text()
  {
    if |lines| == 0 then [] else [lines[0].Text()] + Texts(lines[1..])
  }

  /** `icsContent`: the lines joined with a bare line feed. */
  function IcsContent(e: Experience, start: DateTime): string
    requires Valid(start) && start.year < 9999
  {
    Join(Texts(IcsLines(e, start)), "\n")
  }

  lemma DescriptionPrefix()
    ensures '\n' !in "DESCRIPTION:Team event at "
  {
  }

  lemma DescriptionSuffix()
    ensures '\n' !in ". Booking inquiry submitted through 7DAY."
  {
  }

  lemma HeaderLines(line: IcsLine)
    requires line.BeginCalendar? || line.Version? || line.ProductId? || line.BeginEvent?
    ensures '\n' !in line.Text()
  {
  }

  lemma TrailerLines(line: IcsLine)
    requires line.Status? || line.EndEvent? || line.EndCalendar?
    ensures '\n' !in line.Text()
  {
  }

  lemma FieldLines(line: IcsLine)
    requires line.Start? || line.End? || line.Summary? || line.Place?
    requires line.SingleLine()
    ensures '\n' !in line.Text()
  {
  }

  /** No line's text holds a line feed unless its venue text does. */
  lemma NoLineFeed(line: IcsLine)
    requires line.SingleLine()
    ensures '\n' !in line.Text()
  {
    if line.Description? {
      DescriptionPrefix();
      DescriptionSuffix();
      assert '\n' !in ", ";
    } else if line.BeginCalendar? || line.Version? || line.ProductId? || line.BeginEvent? {
      HeaderLines(line);
    } else if line.Status? || line.EndEvent? || line.EndCalendar? {
      TrailerLines(line);
    } else {
      FieldLines(line);
    }
  }

  lemma NoLineFeedInCompact(d: DateTime)
    requires Valid(d)
    ensures '\n' !in Compact(d)
  {
  }

  /** Lines whose texts hold no line feed are read back exactly. */
  lemma {:induction false} LinesRoundTrip(lines: seq<IcsLine>)
    requires |lines| >= 1
    requires forall k | 0 <= k < |lines| :: lines[k].SingleLine()
    ensures Split(Join(Texts(lines), "\n"), '\n') == Texts(lines)
  {
    var texts := Texts(lines);
    forall k | 0 <= k < |texts| ensures '\n' !in texts[k] {
      NoLineFeed(lines[k]);
    }
    JoinSplit(texts, '\n');
  }

  /** Venue texts and stamps without a line feed give single lines. */
  lemma EventLinesSingle(title: string, location: string, startStamp: string, endStamp: string)
    requires '\n' !in title && '\n' !in location && '\n' !in startStamp && '\n' !in endStamp
    ensures forall k | 0 <= k < 12 :: EventLines(title, location, startStamp, endStamp)[k].SingleLine()
  {
  }

  /** Reading the file back line by line gives the twelve lines' texts,
      provided the venue's title and location hold no line feed. */
  lemma {:induction false} IcsRoundTrip(e: Experience, start: DateTime)
    requires Valid(start) && start.year < 9999
    requires '\n' !in e.title && '\n' !in e.location
    ensures Split(IcsContent(e, start), '\n') == Texts(IcsLines(e, start))
  {
    NoLineFeedInCompact(start);
    NoLineFeedInCompact(NextDay(start));
    EventLinesSingle(e.title, e.location, Compact(start), Compact(NextDay(start)));
    LinesRoundTrip(IcsLines(e, start));
  }

  // ---------------------------------------------------------------------
  // The file name

  /** `replace(/\s+/g, '-')`: every run of whitespace becomes one '-'. */
  function Slug(s: string): (r: string)
    ensures forall k | 0 <= k < |r| :: !IsSpace(r[k])
    decreases |s|
  {
    if |s| == 0 then ""
    else if IsSpace(s[0]) then
      var t := TrimStart(s);
      assert |t| < |s|;
      "-" + Slug(t)
    else [s[0]] + Slug(s[1..])
  }

  /** Text without whitespace. */
  predicate Word(s: string) {
    forall k | 0 <= k < |s| :: !IsSpace(s[k])
  }

  lemma SlugStep(c: char, rest: string)
    requires !IsSpace(c)
    ensures Slug([c] + rest) == [c] + Slug(rest)
  {
    assert ([c] + rest)[0] == c && ([c] + rest)[1..] == rest;
  }

  /** Text without whitespace is left alone. */
  lemma {:induction false} SlugKeeps(s: string)
    requires Word(s)
    ensures Slug(s) == s
  {
    if |s| > 0 {
      SlugKeeps(s[1..]);
      SlugStep(s[0], s[1..]);
      assert s == [s[0]] + s[1..];
    }
  }

  lemma WordTail(a: string)
    requires |a| > 0 && Word(a)
    ensures Word(a[1..]) && !IsSpace(a[0])
  {
    assert forall k | 0 <= k < |a| - 1 :: a[1..][k] == a[k + 1];
  }

  /** Text that starts with a whitespace run loses the run to one '-'. */
  lemma SlugRunBase(w: string, b: string)
    requires w != "" && AllSpace(w)
    requires b == "" || !IsSpace(b[0])
    ensures Slug(w + b) == "-" + Slug(b)
  {
    assert (w + b)[0] == w[0];
    TrimStartRun(w, b);
  }

  lemma SlugRunStep(a: string, w: string, b: string)
    requires |a| > 0 && !IsSpace(a[0])
    requires Slug(a[1..] + w + b) == a[1..] + "-" + Slug(b)
    ensures Slug(a + w + b) == a + "-" + Slug(b)
  {
    assert a + w + b == [a[0]] + (a[1..] + w + b);
    SlugStep(a[0], a[1..] + w + b);
    assert [a[0]] + (a[1..] + "-" + Slug(b)) == a + "-" + Slug(b);
  }

  /** A whitespace run after a word becomes a single '-', and the slug goes
      on with what follows the run. */
  lemma {:induction false} SlugRun(a: string, w: string, b: string)
    requires Word(a)
    requires w != "" && AllSpace(w)
    requires b == "" || !IsSpace(b[0])
    ensures Slug(a + w + b) == a + "-" + Slug(b)
  {
    if |a| > 0 {
      WordTail(a);
      SlugRun(a[1..], w, b);
      SlugRunStep(a, w, b);
    } else {
      assert a + w + b == w + b;
      SlugRunBase(w, b);
    }
  }

  /** The space between two words becomes a '-'. */
  lemma SlugWords(a: string, b: string)
    requires Word(a) && Word(b)
    ensures Slug(a + " " + b) == a + "-" + b
  {
    SlugRun(a, " ", b);
    SlugKeeps(b);
  }

  const FilePrefix := "7day-team-event-"
  const FileExtension := ".ics"

  /** The download name: the fixed prefix, the lower-cased title with its
      whitespace runs turned into '-', and the `.ics` extension. */
  function FileName(title: string): string {
    FilePrefix + Slug(Lower(title)) + FileExtension
  }

  /** The download name never holds whitespace, whatever the title. */
  lemma FileNameNoSpace(title: string)
    ensures Word(FileName(title))
  {
    var slug := Slug(Lower(title));
    var r := FileName(title);
    forall k | 0 <= k < |r| ensures !IsSpace(r[k]) {
      if |FilePrefix| <= k < |FilePrefix| + |slug| {
        assert r[k] == slug[k - |FilePrefix|];
      }
    }
  }

  /** Lower-casing neither makes nor removes whitespace. */
  lemma LowerWord(s: string)
    requires Word(s)
    ensures Word(Lower(s))
  {
  }

  /** Lower-casing leaves whitespace where it is. */
  lemma LowerAroundRun(a: string, w: string, b: string)
    requires AllSpace(w)
    ensures Lower(a + w + b) == Lower(a) + w + Lower(b)
  {
    LowerAppend(a + w, b);
    LowerAppend(a, w);
    LowerOfLowercase(w);
  }

  lemma Regroup(p: string, x: string, y: string, z: string, e: string)
    ensures p + (x + y + z) + e == p + x + y + z + e
  {
  }

  /** A title whose first word is followed by a whitespace run: the name
      holds the lower-cased word, one '-', and the slug of the rest. */
  lemma FileNameAroundRun(a: string, w: string, b: string)
    requires Word(a)
    requires w != "" && AllSpace(w)
    requires b == "" || !IsSpace(b[0])
    ensures FileName(a + w + b) == FilePrefix + Lower(a) + "-" + Slug(Lower(b)) + FileExtension
  {
    LowerAroundRun(a, w, b);
    LowerWord(a);
    assert Lower(b) == "" || !IsSpace(Lower(b)[0]);
    SlugRun(Lower(a), w, Lower(b));
    Regroup(FilePrefix, Lower(a), "-", Slug(Lower(b)), FileExtension);
  }

  /** A two-word title, whatever whitespace separates the words, gives its
      lower-cased words joined by one '-'. */
  lemma FileNameOfTwoWords(a: string, w: string, b: string)
    requires Word(a) && Word(b)
    requires w != "" && AllSpace(w)
    ensures FileName(a + w + b) == FilePrefix + Lower(a) + "-" + Lower(b) + FileExtension
  {
    FileNameAroundRun(a, w, b);
    LowerWord(b);
    SlugKeeps(Lower(b));
  }

  // ---------------------------------------------------------------------
  // The shared estimate

  /** The cost written into the shared summary, as the code has it: the
      capacity is taken to be twelve for every venue. */
  function ShareEstimate(price: nat, teamSize: nat): nat {
    price * Booking.CeilDiv(teamSize, 12)
  }

  /** The summary repeats the booking form's estimate only for venues that
      hold exactly twelve: for any other capacity some team size gets a
      different figure. */
  lemma ShareAgreesOnlyAtTwelve(e: Experience)
    requires e.maxGuests > 0 && e.pricePerNight > 0
    ensures e.maxGuests == 12 ==>
              forall t: nat :: ShareEstimate(e.pricePerNight, t) == Booking.EstimatedCost(e, t)
    ensures e.maxGuests != 12 ==>
              var t := if e.maxGuests < 12 then e.maxGuests + 1 else 13;
              ShareEstimate(e.pricePerNight, t) != Booking.EstimatedCost(e, t)
  {
    if e.maxGuests < 12 {
      var t := e.maxGuests + 1;
      Booking.CeilDivLeast(t, 12, 1);
      assert Booking.CeilDiv(t, e.maxGuests) == 2 by {
        Booking.CeilDivLeast(t, e.maxGuests, 2);
      }
    } else if e.maxGuests > 12 {
      Booking.CeilDivLeast(13, e.maxGuests, 1);
      assert Booking.CeilDiv(13, 12) == 2;
    }
  }

  /** Fifteen people on the Sydney Harbour charter (twenty guests, $4200):
      the form quotes one charter, the summary two. */
  lemma ShareExample()
    ensures Booking.EstimatedCost(SydneyHarbour, 15) == 4200
    ensures ShareEstimate(SydneyHarbour.pricePerNight, 15) == 8400
  {
    assert Booking.CeilDiv(15, 20) == 1;
    assert Booking.CeilDiv(15, 12) == 2;
  }

  /** The summary estimate as intended: the booking form's figure, with the
      venue's own capacity. */
  function SharedEstimate(e: Experience, teamSize: nat): nat
    requires e.maxGuests > 0
  {
    Booking.EstimatedCost(e, teamSize)
  }

  /** The intended summary keeps what the written one gets right: it agrees
      with the twelve-guest figure at twelve-guest venues, quotes one
      night's price for a team that fits, and grows with the team. */
  lemma SharedEstimateMatchesForm(e: Experience, teamSize: nat)
    requires e.maxGuests > 0
    ensures e.maxGuests == 12 ==> SharedEstimate(e, teamSize) == ShareEstimate(e.pricePerNight, teamSize)
    ensures 1 <= teamSize <= e.maxGuests ==> SharedEstimate(e, teamSize) == e.pricePerNight
    ensures forall t: nat | t <= teamSize :: SharedEstimate(e, t) <= SharedEstimate(e, teamSize)
  {
    forall t: nat | t <= teamSize ensures SharedEstimate(e, t) <= SharedEstimate(e, teamSize) {
      Booking.EstimateMonotone(e, t, teamSize);
    }
  }
}
