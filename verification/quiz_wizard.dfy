/** The five-step wizard of `CompanyQuiz.tsx`: a step index, the answers so
    far and the matched matcher, driven by option clicks and the Next,
    Previous and "Refine My Search" buttons. */
module QuizWizard {

  import opened Wrappers
  import opened QuizAnswers
  import opened Catalog
  import opened Matching

  /** `steps.length`: the index of the results view. */
  const StepCount: nat := 5

  datatype Question = TeamSizeQuestion | EventTypeQuestion | BudgetQuestion | LocationQuestion | VibeQuestion

  /** The question shown at each step, in the order of the `steps` array. */
  function QuestionAt(step: nat): (q: Question)
    requires step < StepCount
    ensures StepOf(q) == step
  {
    if step == 0 then TeamSizeQuestion
    else if step == 1 then EventTypeQuestion
    else if step == 2 then BudgetQuestion
    else if step == 3 then LocationQuestion
    else VibeQuestion
  }

  /** The step a question is shown at. */
  function StepOf(q: Question): nat {
    match q
    case TeamSizeQuestion => 0
    case EventTypeQuestion => 1
    case BudgetQuestion => 2
    case LocationQuestion => 3
    case VibeQuestion => 4
  }

  /** One clickable option: the question it answers and the value it stores. */
  datatype Choice =
    | TeamSizeChoice(teamSize: TeamSize)
    | EventTypeChoice(eventType: EventType)
    | BudgetChoice(budget: Budget)
    | LocationChoice(location: Location)
    | VibeChoice(vibe: Vibe)
  {
    function Question(): Question {
      match this
      case TeamSizeChoice(_) => TeamSizeQuestion
      case EventTypeChoice(_) => EventTypeQuestion
      case BudgetChoice(_) => BudgetQuestion
      case LocationChoice(_) => LocationQuestion
      case VibeChoice(_) => VibeQuestion
    }
  }

  /** `quizData[key]`, with `None` for the empty string. */
  function AnswerOf(a: Answers, q: Question): Option<Choice> {
    match q
    case TeamSizeQuestion => if a.teamSize.Some? then Some(TeamSizeChoice(a.teamSize.value)) else None
    case EventTypeQuestion => if a.eventType.Some? then Some(EventTypeChoice(a.eventType.value)) else None
    case BudgetQuestion => if a.budget.Some? then Some(BudgetChoice(a.budget.value)) else None
    case LocationQuestion => if a.location.Some? then Some(LocationChoice(a.location.value)) else None
    case VibeQuestion => if a.vibe.Some? then Some(VibeChoice(a.vibe.value)) else None
  }

  predicate Answered(a: Answers, q: Question) {
    AnswerOf(a, q).Some?
  }

  /** `updateQuizData`: store one answer, leaving the other four alone. */
  function UpdateQuizData(a: Answers, c: Choice): (r: Answers)
    ensures AnswerOf(r, c.Question()) == Some(c)
    ensures forall q: Question | q != c.Question() :: AnswerOf(r, q) == AnswerOf(a, q)
  {
    match c
    case TeamSizeChoice(t) => a.(teamSize := Some(t))
    case EventTypeChoice(e) => a.(eventType := Some(e))
    case BudgetChoice(b) => a.(budget := Some(b))
    case LocationChoice(l) => a.(location := Some(l))
    case VibeChoice(v) => a.(vibe := Some(v))
  }

  /** The wizard's state: `currentStep`, `quizData` and `matchedExperiences`. */
  datatype Quiz = Quiz(step: nat, answers: Answers, matched: seq<Experience>)

  const Initial := Quiz(0, NoAnswers, [])

  /** The matcher the quiz runs: the venue match over the whole catalog. */
  function CatalogMatcher(): Answers -> seq<Experience> {
    a => Match(a, GetAllExperiences())
  }

  /** The matching effect: once the step reaches the results view, the
      matches are recomputed from the answers; before that nothing changes.
      The wizard takes the matcher as a parameter; the quiz passes
      `CatalogMatcher`. */
  function Settle(matcher: Answers -> seq<Experience>, q: Quiz): (r: Quiz)
    ensures r.step == q.step && r.answers == q.answers
    ensures q.step == StepCount ==> r.matched == matcher(q.answers)
    ensures q.step != StepCount ==> r == q
  {
    if q.step == StepCount then q.(matched := matcher(q.answers)) else q
  }

  /** `nextStep`: one step forward, never past the results view. */
  function NextStep(q: Quiz): (r: Quiz)
    ensures q.step <= StepCount ==> r.step <= StepCount
    ensures q.step < StepCount ==> r.step == q.step + 1
    ensures q.step >= StepCount ==> r.step == q.step
    ensures r.answers == q.answers && r.matched == q.matched
  {
    if q.step < StepCount then q.(step := q.step + 1) else q
  }

  /** `prevStep`: one step back, never below the first question. */
  function PrevStep(q: Quiz): (r: Quiz)
    ensures q.step > 0 ==> r.step == q.step - 1
    ensures q.step == 0 ==> r.step == 0
    ensures r.answers == q.answers && r.matched == q.matched
  {
    if q.step > 0 then q.(step := q.step - 1) else q
  }

  /** `restartQuiz`: back to the first question with no answers and no
      matches, whatever the state was. */
  function RestartQuiz(q: Quiz): (r: Quiz)
    ensures r.step == 0 && r.matched == []
    ensures forall k: Question :: !Answered(r.answers, k)
  {
    Initial
  }

  /** The Next button is enabled only once the current question is answered. */
  predicate CanAdvance(q: Quiz) {
    q.step < StepCount && Answered(q.answers, QuestionAt(q.step))
  }

  /** What the user can do: pick an option of the question on screen, press
      Next (when enabled), Previous, or restart from the results view. */
  datatype Event = Select(choice: Choice) | PressNext | PressPrevious | PressRestart

  /** One user event followed by the matching effect. An option click or a
      disabled button that the screen does not offer leaves the state alone.
      One event moves at most one step, or back to the start; choosing an
      option never moves. */
  function Step(matcher: Answers -> seq<Experience>, q: Quiz, e: Event): (r: Quiz)
    ensures r.step == q.step || r.step == q.step + 1 || r.step + 1 == q.step || r.step == 0
    ensures e.Select? ==> r.step == q.step
    ensures e.PressRestart? && q.step == StepCount ==> r.step == 0 && r.matched == []
  {
    match e
    case Select(c) =>
      if q.step < StepCount && c.Question() == QuestionAt(q.step)
      then Settle(matcher, q.(answers := UpdateQuizData(q.answers, c)))
      else q
    case PressNext => if CanAdvance(q) then Settle(matcher, NextStep(q)) else q
    case PressPrevious => if 0 < q.step < StepCount then Settle(matcher, PrevStep(q)) else q
    case PressRestart => if q.step == StepCount then Settle(matcher, RestartQuiz(q)) else q
  }

  function Run(matcher: Answers -> seq<Experience>, q: Quiz, events: seq<Event>): Quiz
    decreases |events|
  {
    if events == [] then q else Run(matcher, Step(matcher, q, events[0]), events[1..])
  }

  /** What every reachable state satisfies: the step is within range, every
      question before it has been answered, and the results view shows the
      match of the current answers. */
  predicate Valid(matcher: Answers -> seq<Experience>, q: Quiz) {
    && q.step <= StepCount
    && (forall k: Question | StepOf(k) < q.step :: Answered(q.answers, k))
    && (q.step == StepCount ==> q.matched == matcher(q.answers))
  }

  /** Each event keeps the state valid. */
  lemma StepPreservesValid(matcher: Answers -> seq<Experience>, q: Quiz, e: Event)
    requires Valid(matcher, q)
    ensures Valid(matcher, Step(matcher, q, e))
  {
    match e
    case Select(c) =>
      if q.step < StepCount && c.Question() == QuestionAt(q.step) {
        var a := UpdateQuizData(q.answers, c);
        forall k: Question | StepOf(k) < q.step ensures Answered(a, k) {
          if k != c.Question() {
            assert AnswerOf(a, k) == AnswerOf(q.answers, k);
          }
        }
      }
    case PressNext =>
      if CanAdvance(q) {
        forall k: Question | StepOf(k) < q.step + 1 ensures Answered(q.answers, k) {
          if StepOf(k) == q.step {
            assert k == QuestionAt(q.step);
          }
        }
      }
    case PressPrevious =>
    case PressRestart =>
  }

  /** Any run of events from a valid state ends in a valid state. */
  lemma {:induction false} RunPreservesValid(matcher: Answers -> seq<Experience>, q: Quiz, events: seq<Event>)
    requires Valid(matcher, q)
    ensures Valid(matcher, Run(matcher, q, events))
    decreases |events|
  {
    if events != [] {
      StepPreservesValid(matcher, q, events[0]);
      RunPreservesValid(matcher, Step(matcher, q, events[0]), events[1..]);
    }
  }

  /** The quiz starts valid. */
  lemma InitialValid(matcher: Answers -> seq<Experience>)
    ensures Valid(matcher, Initial)
  {
  }

  /** Whatever the user does, the results view is reached only with all five
      questions answered, and it shows exactly the match of those answers. */
  lemma ResultsNeedAllAnswers(matcher: Answers -> seq<Experience>, events: seq<Event>)
    ensures Run(matcher, Initial, events).step <= StepCount
    ensures var q := Run(matcher, Initial, events);
            q.step == StepCount ==>
              (forall k: Question :: Answered(q.answers, k)) && q.matched == matcher(q.answers)
  {
    InitialValid(matcher);
    RunPreservesValid(matcher, Initial, events);
    var q := Run(matcher, Initial, events);
    if q.step == StepCount {
      forall k: Question ensures Answered(q.answers, k) {
        assert StepOf(k) < q.step;
      }
    }
  }

  /** Answering each question in turn and pressing Next after each one shows
      the match of those answers. */
  lemma AnsweringEverything(matcher: Answers -> seq<Experience>, t: TeamSize, ev: EventType, b: Budget, l: Location, v: Vibe)
    ensures Run(matcher, Initial, [Select(TeamSizeChoice(t)), PressNext, Select(EventTypeChoice(ev)), PressNext,
                                  Select(BudgetChoice(b)), PressNext, Select(LocationChoice(l)), PressNext,
                                  Select(VibeChoice(v)), PressNext])
            == Quiz(StepCount, Answers(Some(t), Some(ev), Some(b), Some(l), Some(v)),
                    matcher(Answers(Some(t), Some(ev), Some(b), Some(l), Some(v))))
  {
    var a1 := UpdateQuizData(NoAnswers, TeamSizeChoice(t));
    var a2 := UpdateQuizData(a1, EventTypeChoice(ev));
    var a3 := UpdateQuizData(a2, BudgetChoice(b));
    var a4 := UpdateQuizData(a3, LocationChoice(l));
    var a5 := UpdateQuizData(a4, VibeChoice(v));
    var e5 := [Select(VibeChoice(v)), PressNext];
    var e4 := [Select(LocationChoice(l)), PressNext] + e5;
    var e3 := [Select(BudgetChoice(b)), PressNext] + e4;
    var e2 := [Select(EventTypeChoice(ev)), PressNext] + e3;
    var e1 := [Select(TeamSizeChoice(t)), PressNext] + e2;
    var r := Quiz(StepCount, a5, matcher(a5));
    assert Run(matcher, Quiz(4, a4, []), e5) == r by {
      AnswerThenNext(matcher, Quiz(4, a4, []), VibeChoice(v), []);
      assert e5 == e5 + [];
    }
    assert Run(matcher, Quiz(3, a3, []), e4) == r by {
      AnswerThenNext(matcher, Quiz(3, a3, []), LocationChoice(l), e5);
    }
    assert Run(matcher, Quiz(2, a2, []), e3) == r by {
      AnswerThenNext(matcher, Quiz(2, a2, []), BudgetChoice(b), e4);
    }
    assert Run(matcher, Quiz(1, a1, []), e2) == r by {
      AnswerThenNext(matcher, Quiz(1, a1, []), EventTypeChoice(ev), e3);
    }
    assert Run(matcher, Initial, e1) == r by {
      AnswerThenNext(matcher, Initial, TeamSizeChoice(t), e2);
    }
    assert a5 == Answers(Some(t), Some(ev), Some(b), Some(l), Some(v));
    assert e1 == [Select(TeamSizeChoice(t)), PressNext, Select(EventTypeChoice(ev)), PressNext,
                  Select(BudgetChoice(b)), PressNext, Select(LocationChoice(l)), PressNext,
                  Select(VibeChoice(v)), PressNext];
  }

  /** Picking an option of the question on screen and pressing Next moves
      to the following step with that answer stored. */
  lemma AnswerThenNext(matcher: Answers -> seq<Experience>, q: Quiz, c: Choice, rest: seq<Event>)
    requires q.step < StepCount && c.Question() == QuestionAt(q.step)
    ensures Run(matcher, q, [Select(c), PressNext] + rest)
            == Run(matcher, Settle(matcher, Quiz(q.step + 1, UpdateQuizData(q.answers, c), q.matched)), rest)
  {
    var es := [Select(c), PressNext] + rest;
    assert es[0] == Select(c) && es[1..][0] == PressNext && es[1..][1..] == rest;
    var q1 := Step(matcher, q, Select(c));
    assert q1 == q.(answers := UpdateQuizData(q.answers, c));
    assert CanAdvance(q1);
  }

  /** The Next button at the last question leads to the results view, which
      lists the match. */
  lemma NextAtLastQuestion(matcher: Answers -> seq<Experience>, q: Quiz)
    requires q.step == StepCount - 1 && Answered(q.answers, VibeQuestion)
    ensures Step(matcher, q, PressNext) == Quiz(StepCount, q.answers, matcher(q.answers))
  {
  }

  /** In the quiz as shipped, the results view lists at most three venues
      from the catalog, each scoring at least 3, in catalog order. */
  lemma ResultsAreTheCatalogMatch(events: seq<Event>)
    ensures var q := Run(CatalogMatcher(), Initial, events);
            q.step == StepCount ==>
              q.matched == Match(q.answers, GetAllExperiences())
              && |q.matched| <= 3
              && forall k | 0 <= k < |q.matched| :: q.matched[k] in Experiences && Qualifies(q.answers, q.matched[k])
  {
    ResultsNeedAllAnswers(CatalogMatcher(), events);
  }
}
