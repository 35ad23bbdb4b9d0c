/** The venue matcher of the company quiz (`CompanyQuiz.tsx`): five additive
    scoring rules per venue, a threshold of 3, and the first three survivors
    in catalog order. */
module Matching {

  import opened Wrappers
  import opened Strings
  import opened Catalog
  import opened CatalogText
  import opened Sequences
  import opened QuizAnswers

  // ---------------------------------------------------------------------
  // Per-person price

  /** `price_per_night / (max_guests * 0.7)` in exact arithmetic. */
  function PerPersonPrice(e: Experience): real
    requires e.maxGuests > 0
  {
    e.pricePerNight as real / (e.maxGuests as real * 0.7)
  }

  /** The per-person price is at or under `bound`. A venue without guests has
      an infinite (or, at price 0, undefined) quotient, which is under no
      bound. */
  predicate PerPersonAtMost(e: Experience, bound: int) {
    e.maxGuests > 0 && 10 * e.pricePerNight <= 7 * bound * e.maxGuests
  }

  /** The per-person price is at or over `bound`; an infinite quotient is over
      every bound, an undefined one over none. */
  predicate PerPersonAtLeast(e: Experience, bound: int) {
    if e.maxGuests == 0 then e.pricePerNight > 0
    else 10 * e.pricePerNight >= 7 * bound * e.maxGuests
  }

  /** The integer comparisons are the exact comparisons of the per-person
      price against the bound. */
  lemma PerPersonCrossMultiplied(e: Experience, bound: int)
    requires e.maxGuests > 0
    ensures PerPersonAtMost(e, bound) <==> PerPersonPrice(e) <= bound as real
    ensures PerPersonAtLeast(e, bound) <==> PerPersonPrice(e) >= bound as real
  {
    var p := e.pricePerNight as real;
    var d := e.maxGuests as real * 0.7;
    var b := bound as real;
    assert d > 0.0;
    assert p / d * d == p;
    assert p / d <= b <==> p <= b * d by {
      if p / d <= b { assert (p / d) * d <= b * d; }
      if p <= b * d { assert p / d <= (b * d) / d; }
    }
    assert p / d >= b <==> p >= b * d by {
      if p / d >= b { assert (p / d) * d >= b * d; }
      if p >= b * d { assert p / d >= (b * d) / d; }
    }
    assert b * d * 10.0 == (7 * bound * e.maxGuests) as real;
    assert p * 10.0 == (10 * e.pricePerNight) as real;
  }

  // ---------------------------------------------------------------------
  // The five rules, as the source states them on the answer texts

  /** +2 when the parsed team size fits the venue; nothing without an answer. */
  function TeamPoints(a: Answers, e: Experience): (r: nat)
    ensures r == 0 || r == 2
    ensures r == 2 ==> a.teamSize.Some?
  {
    TeamNumParses(a);
    var n := TeamNum(a);
    if n.Some? && n.value <= e.maxGuests then 2 else 0
  }

  /** +2 when the per-person price is within the parsed budget; nothing
      without an answer. */
  function BudgetPoints(a: Answers, e: Experience): (r: nat)
    ensures r == 0 || r == 2
    ensures r == 2 ==> a.budget.Some?
  {
    BudgetRangeParses(a);
    var bounds := BudgetRange(a);
    if (|bounds| >= 2 && bounds[1].Some? && PerPersonAtMost(e, bounds[1].value))
       || (|bounds| == 1 && bounds[0].Some? && PerPersonAtLeast(e, bounds[0].value))
    then 2 else 0
  }

  /** +2 for a state match, +1 for 'anywhere'; 'remote' and no answer give
      nothing. */
  function LocationPoints(a: Answers, e: Experience): (r: nat)
    ensures r <= 2
    ensures a.location == Some(Remote) || a.location.None? ==> r == 0
  {
    (if a.location == Some(Sydney) && Contains(e.location, "NSW") then 2 else 0)
    + (if a.location == Some(Melbourne) && Contains(e.location, "VIC") then 2 else 0)
    + (if a.location == Some(Anywhere) then 1 else 0)
  }

  /** +1 for a celebration at a venue with a bar or catering. */
  function EventPoints(a: Answers, e: Experience): (r: nat)
    ensures r <= 1
    ensures r == 1 ==> a.eventType == Some(Celebration)
  {
    if a.eventType == Some(Celebration) && HasBarOrCatering(e.amenities) then 1 else 0
  }

  /** +1 for the luxurious vibe at a venue over $1000 a night or with
      "Executive" in its title. */
  function VibePoints(a: Answers, e: Experience): (r: nat)
    ensures r <= 1
    ensures r == 1 ==> a.vibe == Some(Luxurious)
  {
    if a.vibe == Some(Luxurious) && (e.pricePerNight > 1000 || Contains(e.title, "Executive")) then 1 else 0
  }

  /** The score of one venue: the five rules added up. An unanswered quiz
      scores nothing anywhere. */
  function Score(a: Answers, e: Experience): (r: nat)
    ensures r <= 8
    ensures r > 0 ==> a.teamSize.Some? || a.budget.Some? || a.location.Some? || a.eventType.Some? || a.vibe.Some?
  {
    TeamPoints(a, e) + BudgetPoints(a, e) + LocationPoints(a, e) + EventPoints(a, e) + VibePoints(a, e)
  }

  // ---------------------------------------------------------------------
  // The rules read against the catalog, venue by venue (indices into
  // `Experiences`: 0 Blue Mountains, 1 Sydney Harbour, 2 Hunter Valley,
  // 3 Bondi Beach, 4 Melbourne rooftop, 5 Barossa Valley)

  /** Sydney earns 2 at the four NSW venues, Melbourne 2 at the rooftop,
      'anywhere' 1 everywhere; nothing else earns a location point. */
  lemma LocationPointsAtVenue(a: Answers, i: nat)
    requires i < |Experiences|
    ensures LocationPoints(a, Experiences[i])
            == if (a.location == Some(Sydney) && i < 4) || (a.location == Some(Melbourne) && i == 4) then 2
               else if a.location == Some(Anywhere) then 1
               else 0
  {
    RegionTags();
  }

  /** A celebration earns its point at exactly the harbour charter and the
      Melbourne rooftop. */
  lemma EventPointsAtVenue(a: Answers, i: nat)
    requires i < |Experiences|
    ensures EventPoints(a, Experiences[i])
            == if a.eventType == Some(Celebration) && (i == 1 || i == 4) then 1 else 0
  {
    CelebrationVenues();
  }

  /** The luxurious vibe earns its point at the three venues over $1000 a
      night (the harbour charter, Bondi Beach, the Melbourne rooftop); the
      "Executive" title adds no venue, since Bondi Beach is already among
      them. */
  lemma VibePointsAtVenue(a: Answers, i: nat)
    requires i < |Experiences|
    ensures VibePoints(a, Experiences[i])
            == if a.vibe == Some(Luxurious) && (i == 1 || i == 3 || i == 4) then 1 else 0
  {
    ExecutiveTitles();
  }

  const Threshold := 3

  predicate Qualifies(a: Answers, e: Experience) {
    Score(a, e) >= Threshold
  }

  /** The filter's callback: `exp => score(exp) >= 3`. */
  function QualifiesFor(a: Answers): Experience -> bool {
    e => Qualifies(a, e)
  }

  // ---------------------------------------------------------------------
  // The rules restated on the brackets

  /** The team rule on the bracket: +2 when the bracket's lower bound fits. */
  function BracketTeamPoints(a: Answers, e: Experience): nat {
    match a.teamSize
    case None => 0
    case Some(t) => if t.Lower() <= e.maxGuests then 2 else 0
  }

  /** The budget rule on the bracket: +2 when the per-person price is at or
      under the upper bound, or at or over 600 for the open bracket. */
  function BracketBudgetPoints(a: Answers, e: Experience): nat {
    match a.budget
    case None => 0
    case Some(b) =>
      match b.Upper()
      case Some(hi) => if PerPersonAtMost(e, hi) then 2 else 0
      case None => if PerPersonAtLeast(e, b.Lower()) then 2 else 0
  }

  /** The team rule read off the parsed text is the rule on the bracket. */
  lemma TeamPointsByBracket(a: Answers, e: Experience)
    ensures TeamPoints(a, e) == BracketTeamPoints(a, e)
  {
    TeamNumParses(a);
  }

  /** The budget rule read off the parsed text is the rule on the bracket. */
  lemma BudgetPointsByBracket(a: Answers, e: Experience)
    ensures BudgetPoints(a, e) == BracketBudgetPoints(a, e)
  {
    BudgetRangeParses(a);
  }

  /** The score is the sum of the five contributions, the two numeric ones
      read off the brackets, and lies in 0..8. */
  lemma ScoreBounds(a: Answers, e: Experience)
    ensures Score(a, e) == BracketTeamPoints(a, e) + BracketBudgetPoints(a, e)
                           + LocationPoints(a, e) + EventPoints(a, e) + VibePoints(a, e)
    ensures Score(a, e) <= 8
  {
    TeamPointsByBracket(a, e);
    BudgetPointsByBracket(a, e);
  }

  /** The budget rule on a bracket, in terms of the exact per-person price. */
  lemma BracketBudgetOnPrice(b: Budget, e: Experience)
    requires e.maxGuests > 0
    ensures b.Upper().Some? ==>
              (PerPersonAtMost(e, b.Upper().value) <==> PerPersonPrice(e) <= b.Upper().value as real)
    ensures b.Upper().None? ==>
              (PerPersonAtLeast(e, b.Lower()) <==> PerPersonPrice(e) >= 600.0)
  {
    if b.Upper().Some? {
      PerPersonCrossMultiplied(e, b.Upper().value);
    } else {
      PerPersonCrossMultiplied(e, 600);
    }
  }

  /** The budget rule in terms of the exact per-person price: a bracket with
      an upper bound gives +2 iff the price is at or under it, the open
      `'600+'` bracket iff the price is at or over 600. */
  lemma BudgetRuleOnPrice(a: Answers, e: Experience)
    requires a.budget.Some? && e.maxGuests > 0
    ensures a.budget.value.Upper().Some? ==>
              (BudgetPoints(a, e) == 2 <==> PerPersonPrice(e) <= a.budget.value.Upper().value as real)
    ensures a.budget.value.Upper().None? ==>
              (BudgetPoints(a, e) == 2 <==> PerPersonPrice(e) >= 600.0)
  {
    BudgetPointsByBracket(a, e);
    BracketBudgetOnPrice(a.budget.value, e);
  }

  // ---------------------------------------------------------------------
  // Filtering and the top three

  /** `experiences.filter(score >= 3)`: the qualifying venues, in catalog
      order. */
  function Qualifying(a: Answers, xs: seq<Experience>): (r: seq<Experience>)
    ensures |r| <= |xs|
    ensures forall k | 0 <= k < |r| :: r[k] in xs && Qualifies(a, r[k])
    ensures forall i | 0 <= i < |xs| :: Qualifies(a, xs[i]) ==> xs[i] in r
  {
    Filter(QualifiesFor(a), xs)
  }

  /** Filtering keeps catalog order: the survivors of a concatenation are the
      survivors of each part, in turn. */
  lemma QualifyingAppend(a: Answers, xs: seq<Experience>, ys: seq<Experience>)
    ensures Qualifying(a, xs + ys) == Qualifying(a, xs) + Qualifying(a, ys)
  {
    FilterAppend(QualifiesFor(a), xs, ys);
  }

  function Min(x: int, y: int): int { if x <= y then x else y }

  /** `matched.slice(0, 3)`: at most three venues, each scoring at least 3,
      forming the front of the qualifying list. */
  function Match(a: Answers, xs: seq<Experience>): (r: seq<Experience>)
    ensures |r| == Min(3, |Qualifying(a, xs)|)
    ensures forall k | 0 <= k < |r| :: r[k] in xs && Score(a, r[k]) >= 3
    ensures forall k | 0 <= k < |r| :: r[k] == Qualifying(a, xs)[k]
  {
    var q := Qualifying(a, xs);
    if |q| <= 3 then q else q[..3]
  }

  /** The match is exactly "the first three qualifying venues in catalog
      order": venue `i` is at position `k` of the result precisely when it
      qualifies and `k` qualifying venues come before it, with `k < 3`. No
      re-sorting by score takes place. */
  lemma {:induction false} MatchIsCatalogPrefix(a: Answers, xs: seq<Experience>, i: nat)
    requires i < |xs|
    ensures var k := |Qualifying(a, xs[..i])|;
            Qualifies(a, xs[i]) && k < 3 ==> |Match(a, xs)| > k && Match(a, xs)[k] == xs[i]
    ensures var k := |Qualifying(a, xs[..i])|;
            k >= 3 ==> |Match(a, xs)| == 3 && forall j | 0 <= j < 3 :: Match(a, xs)[j] == Qualifying(a, xs[..i])[j]
  {
    FilterPosition(QualifiesFor(a), xs, i);
  }

  // ---------------------------------------------------------------------
  // Two worked answers

  /** The catalog is filtered venue by venue, in its own order. */
  lemma CatalogQualifying(a: Answers)
    ensures Qualifying(a, Experiences)
            == Keep(QualifiesFor(a), BlueMountains) + Keep(QualifiesFor(a), SydneyHarbour)
               + Keep(QualifiesFor(a), HunterValley) + Keep(QualifiesFor(a), BondiBeach)
               + Keep(QualifiesFor(a), MelbourneRooftop) + Keep(QualifiesFor(a), BarossaValley)
  {
    FilterSix(QualifiesFor(a), BlueMountains, SydneyHarbour, HunterValley, BondiBeach, MelbourneRooftop, BarossaValley);
  }

  lemma CatalogIsAll()
    ensures GetAllExperiences() == Experiences
  {
  }

  /** When the first three of six venues qualify, they are the match. */
  lemma MatchOfFront(a: Answers, x0: Experience, x1: Experience, x2: Experience,
                     x3: Experience, x4: Experience, x5: Experience)
    requires QualifiesFor(a)(x0) && QualifiesFor(a)(x1) && QualifiesFor(a)(x2)
    ensures Match(a, [x0, x1, x2, x3, x4, x5]) == [x0, x1, x2]
  {
    FilterFront(QualifiesFor(a), x0, x1, x2, x3, x4, x5);
  }

  /** Eleven to twenty people, a retreat, $200-400 a head, Sydney. */
  const RetreatAnswers :=
    Answers(Some(Team11To20), Some(Retreat), Some(Budget200To400), Some(Sydney), Some(Productive))

  lemma RetreatBlueMountains()
    ensures Score(RetreatAnswers, BlueMountains) == 6
    ensures Keep(QualifiesFor(RetreatAnswers), BlueMountains) == [BlueMountains]
  {
    InlandNswTags();
    ExecutiveTitles();
    assert BracketTeamPoints(RetreatAnswers, BlueMountains) == 2;
    assert BracketBudgetPoints(RetreatAnswers, BlueMountains) == 2;
    assert LocationPoints(RetreatAnswers, BlueMountains) == 2;
    assert EventPoints(RetreatAnswers, BlueMountains) == 0;
    assert VibePoints(RetreatAnswers, BlueMountains) == 0;
    ScoreBounds(RetreatAnswers, BlueMountains);
  }

  lemma RetreatSydneyHarbour()
    ensures Score(RetreatAnswers, SydneyHarbour) == 6
    ensures Keep(QualifiesFor(RetreatAnswers), SydneyHarbour) == [SydneyHarbour]
  {
    CoastalNswTags();
    ExecutiveTitles();
    assert BracketTeamPoints(RetreatAnswers, SydneyHarbour) == 2;
    assert BracketBudgetPoints(RetreatAnswers, SydneyHarbour) == 2;
    assert LocationPoints(RetreatAnswers, SydneyHarbour) == 2;
    assert EventPoints(RetreatAnswers, SydneyHarbour) == 0;
    assert VibePoints(RetreatAnswers, SydneyHarbour) == 0;
    ScoreBounds(RetreatAnswers, SydneyHarbour);
  }

  lemma RetreatHunterValley()
    ensures Score(RetreatAnswers, HunterValley) == 6
    ensures Keep(QualifiesFor(RetreatAnswers), HunterValley) == [HunterValley]
  {
    InlandNswTags();
    ExecutiveTitles();
    assert BracketTeamPoints(RetreatAnswers, HunterValley) == 2;
    assert BracketBudgetPoints(RetreatAnswers, HunterValley) == 2;
    assert LocationPoints(RetreatAnswers, HunterValley) == 2;
    assert EventPoints(RetreatAnswers, HunterValley) == 0;
    assert VibePoints(RetreatAnswers, HunterValley) == 0;
    ScoreBounds(RetreatAnswers, HunterValley);
  }

  /** The first three venues fit eleven guests, cost at most $400 a head
      and are in New South Wales, so they are the match, in catalog order. */
  lemma RetreatMatch()
    ensures Match(RetreatAnswers, GetAllExperiences()) == [BlueMountains, SydneyHarbour, HunterValley]
  {
    RetreatBlueMountains();
    RetreatSydneyHarbour();
    RetreatHunterValley();
    CatalogIsAll();
    MatchOfFront(RetreatAnswers, BlueMountains, SydneyHarbour, HunterValley, BondiBeach, MelbourneRooftop, BarossaValley);
  }

  /** Five to ten people entertaining clients, $600+ a head, Melbourne,
      luxurious. No venue's per-person price reaches $600, so the budget
      rule scores nowhere. */
  const ClientAnswers :=
    Answers(Some(Team5To10), Some(ClientEntertainment), Some(Budget600Plus), Some(Melbourne), Some(Luxurious))

  lemma ClientBlueMountains()
    ensures Score(ClientAnswers, BlueMountains) == 2
    ensures Keep(QualifiesFor(ClientAnswers), BlueMountains) == []
  {
    InlandNswTags();
    ExecutiveTitles();
    assert BracketTeamPoints(ClientAnswers, BlueMountains) == 2;
    assert BracketBudgetPoints(ClientAnswers, BlueMountains) == 0;
    assert LocationPoints(ClientAnswers, BlueMountains) == 0;
    assert EventPoints(ClientAnswers, BlueMountains) == 0;
    assert VibePoints(ClientAnswers, BlueMountains) == 0;
    ScoreBounds(ClientAnswers, BlueMountains);
  }

  lemma ClientSydneyHarbour()
    ensures Score(ClientAnswers, SydneyHarbour) == 3
    ensures Keep(QualifiesFor(ClientAnswers), SydneyHarbour) == [SydneyHarbour]
  {
    CoastalNswTags();
    ExecutiveTitles();
    assert BracketTeamPoints(ClientAnswers, SydneyHarbour) == 2;
    assert BracketBudgetPoints(ClientAnswers, SydneyHarbour) == 0;
    assert LocationPoints(ClientAnswers, SydneyHarbour) == 0;
    assert EventPoints(ClientAnswers, SydneyHarbour) == 0;
    assert VibePoints(ClientAnswers, SydneyHarbour) == 1;
    ScoreBounds(ClientAnswers, SydneyHarbour);
  }

  lemma ClientHunterValley()
    ensures Score(ClientAnswers, HunterValley) == 2
    ensures Keep(QualifiesFor(ClientAnswers), HunterValley) == []
  {
    InlandNswTags();
    ExecutiveTitles();
    assert BracketTeamPoints(ClientAnswers, HunterValley) == 2;
    assert BracketBudgetPoints(ClientAnswers, HunterValley) == 0;
    assert LocationPoints(ClientAnswers, HunterValley) == 0;
    assert EventPoints(ClientAnswers, HunterValley) == 0;
    assert VibePoints(ClientAnswers, HunterValley) == 0;
    ScoreBounds(ClientAnswers, HunterValley);
  }

  lemma ClientBondiBeach()
    ensures Score(ClientAnswers, BondiBeach) == 3
    ensures Keep(QualifiesFor(ClientAnswers), BondiBeach) == [BondiBeach]
  {
    CoastalNswTags();
    ExecutiveTitles();
    assert BracketTeamPoints(ClientAnswers, BondiBeach) == 2;
    assert BracketBudgetPoints(ClientAnswers, BondiBeach) == 0;
    assert LocationPoints(ClientAnswers, BondiBeach) == 0;
    assert EventPoints(ClientAnswers, BondiBeach) == 0;
    assert VibePoints(ClientAnswers, BondiBeach) == 1;
    ScoreBounds(ClientAnswers, BondiBeach);
  }

  lemma ClientMelbourneRooftop()
    ensures Score(ClientAnswers, MelbourneRooftop) == 5
    ensures Keep(QualifiesFor(ClientAnswers), MelbourneRooftop) == [MelbourneRooftop]
  {
    MelbourneTag();
    ExecutiveTitles();
    assert BracketTeamPoints(ClientAnswers, MelbourneRooftop) == 2;
    assert BracketBudgetPoints(ClientAnswers, MelbourneRooftop) == 0;
    assert LocationPoints(ClientAnswers, MelbourneRooftop) == 2;
    assert EventPoints(ClientAnswers, MelbourneRooftop) == 0;
    assert VibePoints(ClientAnswers, MelbourneRooftop) == 1;
    ScoreBounds(ClientAnswers, MelbourneRooftop);
  }

  lemma ClientBarossaValley()
    ensures Score(ClientAnswers, BarossaValley) == 2
    ensures Keep(QualifiesFor(ClientAnswers), BarossaValley) == []
  {
    BarossaTag();
    ExecutiveTitles();
    assert BracketTeamPoints(ClientAnswers, BarossaValley) == 2;
    assert BracketBudgetPoints(ClientAnswers, BarossaValley) == 0;
    assert LocationPoints(ClientAnswers, BarossaValley) == 0;
    assert EventPoints(ClientAnswers, BarossaValley) == 0;
    assert VibePoints(ClientAnswers, BarossaValley) == 0;
    ScoreBounds(ClientAnswers, BarossaValley);
  }

  /** The match keeps catalog order rather than ranking by score: the
      "Top Pick" scores 3 while the third venue scores 5. */
  lemma ClientMatch()
    ensures Match(ClientAnswers, GetAllExperiences()) == [SydneyHarbour, BondiBeach, MelbourneRooftop]
    ensures Score(ClientAnswers, SydneyHarbour) < Score(ClientAnswers, MelbourneRooftop)
  {
    ClientBlueMountains();
    ClientSydneyHarbour();
    ClientHunterValley();
    ClientBondiBeach();
    ClientMelbourneRooftop();
    ClientBarossaValley();
    CatalogQualifying(ClientAnswers);
  }

  // ---------------------------------------------------------------------
  // Rank labels

  /** The badge the results view shows for the venue at `index`. The "best
      match" banner shows under the same condition as "Top Pick". */
  function RankLabel(index: nat): (r: string)
    ensures r == "Top Pick" <==> index == 0
    ensures index > 0 ==> StartsWith(r, "Option ") && ParseInt(r[7..]) == Some(index + 1)
  {
    if index == 0 then "Top Pick"
    else
      var r := "Option " + NatToString(index + 1);
      assert r[0] != "Top Pick"[0];
      assert r[7..] == NatToString(index + 1) + "";
      ParseIntRendered(index + 1, "");
      assert r[..7] == "Option ";
      r
  }
}
