/** The answers of the company quiz (`CompanyQuiz.tsx`): the five questions'
    option values, and how the matcher parses the two bracket answers. */
module QuizAnswers {

  import opened Wrappers
  import opened Strings

  // ---------------------------------------------------------------------
  // Quiz answers

  /** The team-size brackets the quiz offers. */
  datatype TeamSize = Team5To10 | Team11To20 | Team21To50 | Team50Plus {

    /** The option value stored in the answers. */
    function Value(): string {
      match this
      case Team5To10 => "5-10"
      case Team11To20 => "11-20"
      case Team21To50 => "21-50"
      case Team50Plus => "50+"
    }

    /** The smallest head count of the bracket. */
    function Lower(): nat {
      match this
      case Team5To10 => 5
      case Team11To20 => 11
      case Team21To50 => 21
      case Team50Plus => 50
    }
  }

  datatype EventType = TeamBuilding | Celebration | Retreat | ClientEntertainment {
    function Value(): string {
      match this
      case TeamBuilding => "team-building"
      case Celebration => "celebration"
      case Retreat => "retreat"
      case ClientEntertainment => "client"
    }
  }

  /** The per-person budget brackets, in Australian dollars; the last one has
      no upper bound. */
  datatype Budget = Budget100To200 | Budget200To400 | Budget400To600 | Budget600Plus {
    function Value(): string {
      match this
      case Budget100To200 => "100-200"
      case Budget200To400 => "200-400"
      case Budget400To600 => "400-600"
      case Budget600Plus => "600+"
    }

    function Lower(): nat {
      match this
      case Budget100To200 => 100
      case Budget200To400 => 200
      case Budget400To600 => 400
      case Budget600Plus => 600
    }

    function Upper(): Option<nat> {
      match this
      case Budget100To200 => Some(200)
      case Budget200To400 => Some(400)
      case Budget400To600 => Some(600)
      case Budget600Plus => None
    }
  }

  datatype Location = Sydney | Melbourne | Anywhere | Remote {
    function Value(): string {
      match this
      case Sydney => "sydney"
      case Melbourne => "melbourne"
      case Anywhere => "anywhere"
      case Remote => "remote"
    }
  }

  datatype Vibe = Relaxed | Adventurous | Luxurious | Productive {
    function Value(): string {
      match this
      case Relaxed => "relaxed"
      case Adventurous => "adventurous"
      case Luxurious => "luxurious"
      case Productive => "productive"
    }
  }

  /** `QuizData`: one answer per question; `None` is the empty string the
      quiz starts with. */
  datatype Answers = Answers(
    teamSize: Option<TeamSize>,
    eventType: Option<EventType>,
    budget: Option<Budget>,
    location: Option<Location>,
    vibe: Option<Vibe>
  )

  const NoAnswers := Answers(None, None, None, None, None)

  /** The text of the team-size answer, `''` when unanswered. */
  function TeamSizeText(a: Answers): string {
    match a.teamSize
    case Some(t) => t.Value()
    case None => ""
  }

  function BudgetText(a: Answers): string {
    match a.budget
    case Some(b) => b.Value()
    case None => ""
  }

  function EventTypeText(a: Answers): string {
    match a.eventType
    case Some(e) => e.Value()
    case None => ""
  }

  function VibeText(a: Answers): string {
    match a.vibe
    case Some(v) => v.Value()
    case None => ""
  }

  // ---------------------------------------------------------------------
  // Parsing the bracket texts, as the matcher does

  /** `parseInt(text.split('-')[0])`; `None` is `NaN`. */
  function ParseTeamSize(text: string): Option<int> {
    ParseInt(Split(text, '-')[0])
  }

  /** `text.split('-').map(b => parseInt(b.replace('+', '')))`. */
  function ParseBudget(text: string): (r: seq<Option<int>>)
    ensures |r| == |Split(text, '-')|
  {
    ParseBounds(Split(text, '-'))
  }

  /** Each piece with its first '+' removed, read as an integer. */
  function ParseBounds(parts: seq<string>): (r: seq<Option<int>>)
    ensures |r| == |parts|
    ensures forall i | 0 <= i < |parts| :: r[i] == ParseInt(RemoveFirst(parts[i], '+'))
  {
    if parts == [] then []
    else [ParseInt(RemoveFirst(parts[0], '+'))] + ParseBounds(parts[1..])
  }

  function TeamNum(a: Answers): Option<int> {
    ParseTeamSize(TeamSizeText(a))
  }

  function BudgetRange(a: Answers): seq<Option<int>> {
    ParseBudget(BudgetText(a))
  }

  /** The leading number of "lo-rest" parses to lo. */
  lemma LeadingNumber(lo: nat, rest: string)
    ensures ParseTeamSize(NatToString(lo) + "-" + rest) == Some(lo)
  {
    NoSepInNumber(lo, '-');
    SplitCons(NatToString(lo), '-', rest);
    ParseIntRendered(lo, "");
    assert NatToString(lo) + "" == NatToString(lo);
  }

  /** "lo-hi" parses to its two numbers. */
  lemma TwoNumbers(lo: nat, hi: nat)
    ensures ParseBudget(NatToString(lo) + "-" + NatToString(hi)) == [Some(lo), Some(hi)]
  {
    NoSepInNumber(lo, '-');
    NoSepInNumber(hi, '-');
    var l, h := NatToString(lo), NatToString(hi);
    SplitCons(l, '-', h);
    SplitNoSep(h, '-');
    assert Split(l + "-" + h, '-') == [l, h];
    ParsePlain(lo);
    ParsePlain(hi);
  }

  /** Reading back a rendered number after removing a '+' it does not have. */
  lemma ParsePlain(n: nat)
    ensures ParseInt(RemoveFirst(NatToString(n), '+')) == Some(n)
  {
    NoSepInNumber(n, '+');
    ParseIntRendered(n, "");
    assert NatToString(n) + "" == NatToString(n);
  }

  lemma Parse5To10() ensures ParseTeamSize("5-10") == Some(5) {
    assert NatToString(5) + "-" + "10" == "5-10";
    LeadingNumber(5, "10");
  }

  lemma Parse11To20() ensures ParseTeamSize("11-20") == Some(11) {
    assert NatToString(11) + "-" + "20" == "11-20";
    LeadingNumber(11, "20");
  }

  lemma Parse21To50() ensures ParseTeamSize("21-50") == Some(21) {
    assert NatToString(21) + "-" + "50" == "21-50";
    LeadingNumber(21, "50");
  }

  lemma Parse50Plus() ensures ParseTeamSize("50+") == Some(50) {
    assert NatToString(50) + "+" == "50+";
    SplitNoSep("50+", '-');
    ParseIntRendered(50, "+");
  }

  lemma Parse100To200() ensures ParseBudget("100-200") == [Some(100), Some(200)] {
    assert NatToString(100) + "-" + NatToString(200) == "100-200";
    TwoNumbers(100, 200);
  }

  lemma Parse200To400() ensures ParseBudget("200-400") == [Some(200), Some(400)] {
    assert NatToString(200) + "-" + NatToString(400) == "200-400";
    TwoNumbers(200, 400);
  }

  lemma Parse400To600() ensures ParseBudget("400-600") == [Some(400), Some(600)] {
    assert NatToString(400) + "-" + NatToString(600) == "400-600";
    TwoNumbers(400, 600);
  }

  /** "n+" parses to its one number. */
  lemma OpenNumber(n: nat)
    ensures ParseBudget(NatToString(n) + "+") == [Some(n)]
  {
    var t := NatToString(n);
    NoSepInNumber(n, '-');
    NoSepInNumber(n, '+');
    OnePiece(t + "+");
    RemoveFirstAt(t, '+', "");
    assert t + "+" + "" == t + "+" && t + "" == t;
    ParseIntRendered(n, "");
  }

  lemma OnePiece(x: string)
    requires '-' !in x
    ensures ParseBudget(x) == [ParseInt(RemoveFirst(x, '+'))]
  {
    SplitNoSep(x, '-');
  }

  lemma Parse600Plus() ensures ParseBudget("600+") == [Some(600)] {
    assert NatToString(600) + "+" == "600+";
    OpenNumber(600);
  }

  lemma ParseEmpty() ensures ParseTeamSize("") == None && ParseBudget("") == [None] {
  }

  /** Parsing a team-size option text yields the bracket's lower bound
      (`'50+'` gives 50), and an unanswered team size gives `NaN`. */
  lemma TeamNumParses(a: Answers)
    ensures a.teamSize.Some? ==> TeamNum(a) == Some(a.teamSize.value.Lower())
    ensures a.teamSize.None? ==> TeamNum(a) == None
  {
    match a.teamSize
    case None => ParseEmpty();
    case Some(t) =>
      match t
      case Team5To10 => Parse5To10();
      case Team11To20 => Parse11To20();
      case Team21To50 => Parse21To50();
      case Team50Plus => Parse50Plus();
  }

  /** Parsing a budget option text yields its two bounds, or only the lower
      bound for `'600+'`; an unanswered budget gives one `NaN`. */
  lemma BudgetRangeParses(a: Answers)
    ensures a.budget.Some? && a.budget.value.Upper().Some? ==>
              BudgetRange(a) == [Some(a.budget.value.Lower()), Some(a.budget.value.Upper().value)]
    ensures a.budget.Some? && a.budget.value.Upper().None? ==>
              BudgetRange(a) == [Some(a.budget.value.Lower())]
    ensures a.budget.None? ==> BudgetRange(a) == [None]
  {
    match a.budget
    case None => ParseEmpty();
    case Some(b) =>
      match b
      case Budget100To200 => Parse100To200();
      case Budget200To400 => Parse200To400();
      case Budget400To600 => Parse400To600();
      case Budget600Plus => Parse600Plus();
  }
}
