/** The task-priority scorer: a deterministic score in [0, 100] built from a
    base of 50, a due-date bonus, a priority weight, an effort adjustment and
    keyword bonuses, then rounded half up and clamped.

    `Score` is the closed-form specification; `CalculateAIPriority` is the
    step-by-step accumulator of the source and is proved equal to it.  The
    clock is a parameter: the due date reaches the scorer as a whole number
    of days. */
module AiPriority {
  import opened Wrappers
  import opened Ids
  import opened Text
  import opened TaskSchema

  const BaseScore: real := 50.0
  const MillisPerDay: int := 1000 * 60 * 60 * 24
  const KeywordBonus: real := 5.0
  const UrgentKeywords: seq<string> := ["urgent", "asap", "important", "critical", "blocker"]

  /** `Math.ceil((dueDate - now) / day)`: the least whole number of days
      that covers the time left. */
  function DaysUntilDue(due: Date, now: Date): (days: int)
    ensures (days - 1) * MillisPerDay < due - now <= days * MillisPerDay
  {
    -((now - due) / MillisPerDay)
  }

  /** What the scorer reads of a task.  A missing title or description is
      the empty string (`taskData.title || ''`); `estimatedHours` is `None`
      when absent. */
  datatype ScoreInput = ScoreInput(
    title: string,
    description: string,
    priority: Priority,
    daysUntilDue: Option<int>,
    estimatedHours: Option<real>)

  /** `priorityWeights[priority] || 1`. */
  function PriorityWeight(p: Priority): (w: real)
    ensures 0.5 <= w <= 2.0
    ensures p.OtherPriority? ==> w == 1.0
  {
    match p
    case Low => 0.5
    case Medium => 1.0
    case High => 1.5
    case Critical => 2.0
    case OtherPriority(_) => 1.0
  }

  /** The due-date bucket: overdue or due today 30, within a day 25, within
      three days 15, within a week 5, otherwise (or no due date) 0. */
  function DueBonus(days: Option<int>): (bonus: int)
    ensures 0 <= bonus <= 30
  {
    match days
    case None => 0
    case Some(d) =>
      if d <= 0 then 30
      else if d <= 1 then 25
      else if d <= 3 then 15
      else if d <= 7 then 5
      else 0
  }

  /** The effort adjustment.  Zero hours is falsy in the source, so it earns
      no bonus, exactly like a missing estimate. */
  function EffortAdjustment(hours: Option<real>): (e: real)
    ensures -5.0 <= e <= 10.0
  {
    match hours
    case None => 0.0
    case Some(h) =>
      if h == 0.0 then 0.0
      else if h <= 1.0 then 10.0
      else if h >= 8.0 then -5.0
      else 0.0
  }

  /** A keyword counts when it occurs in the (lower-cased) title or in the
      description: once, even when it occurs in both. */
  predicate KeywordFound(keyword: string, title: string, description: string) {
    Includes(title, keyword) || Includes(description, keyword)
  }

  /** The number of keywords of `keywords` that are found. */
  function KeywordHits(keywords: seq<string>, title: string, description: string): (n: nat)
    ensures n <= |keywords|
  {
    if keywords == [] then 0
    else
      KeywordHits(keywords[..|keywords| - 1], title, description)
      + (if KeywordFound(keywords[|keywords| - 1], title, description) then 1 else 0)
  }

  /** The number of urgent keywords found in the lower-cased title or
      description. */
  function Hits(input: ScoreInput): nat {
    KeywordHits(UrgentKeywords, ToLower(input.title), ToLower(input.description))
  }

  /** Walking one more keyword adds one hit exactly when it is found. */
  lemma KeywordHitsStep(keywords: seq<string>, i: nat, title: string, description: string)
    requires i < |keywords|
    ensures KeywordHits(keywords[..i + 1], title, description)
         == KeywordHits(keywords[..i], title, description) + (if KeywordFound(keywords[i], title, description) then 1 else 0)
  {
    assert keywords[..i + 1][..i] == keywords[..i];
  }

  /** The score before rounding and clamping, from its four parts: the due
      bonus, the priority weight, the effort adjustment and the keyword hits. */
  function Combine(bonus: int, weight: real, effort: real, hits: nat): real {
    (BaseScore + bonus as real) * weight + effort + KeywordBonus * hits as real
  }

  /** The score before rounding and clamping. */
  function RawScore(input: ScoreInput): real {
    Combine(DueBonus(input.daysUntilDue), PriorityWeight(input.priority), EffortAdjustment(input.estimatedHours), Hits(input))
  }

  /** `Math.round`: the nearest integer, halves rounded up. */
  function Round(x: real): (n: int)
    ensures n as real - 0.5 <= x < n as real + 0.5
  {
    (x + 0.5).Floor
  }

  /** `Math.max(0, Math.min(100, n))`. */
  function Clamp(n: int): (r: int)
    ensures MinScore <= r <= MaxScore
    ensures MinScore <= n <= MaxScore ==> r == n
    ensures n > MaxScore ==> r == MaxScore
    ensures n < MinScore ==> r == MinScore
  {
    if n < MinScore then MinScore else if n > MaxScore then MaxScore else n
  }

  /** The priority score of a task. */
  function Score(input: ScoreInput): (score: int)
    ensures MinScore <= score <= MaxScore
  {
    Clamp(Round(RawScore(input)))
  }

  /** `calculateAIPriority`: the running score of the source, one step at a
      time, with the keyword list walked in order. */
  method CalculateAIPriority(input: ScoreInput) returns (result: int)
    ensures result == Score(input)
    ensures MinScore <= result <= MaxScore
  {
    var score := BaseScore;

    if input.daysUntilDue.Some? {
      var days := input.daysUntilDue.value;
      if days <= 0 {
        score := score + 30.0;
      } else if days <= 1 {
        score := score + 25.0;
      } else if days <= 3 {
        score := score + 15.0;
      } else if days <= 7 {
        score := score + 5.0;
      }
    }
    assert score == BaseScore + DueBonus(input.daysUntilDue) as real;

    score := score * PriorityWeight(input.priority);
    ghost var afterWeight := score;
    assert afterWeight == (BaseScore + DueBonus(input.daysUntilDue) as real) * PriorityWeight(input.priority);

    if input.estimatedHours.Some? && input.estimatedHours.value != 0.0 {
      var hours := input.estimatedHours.value;
      if hours <= 1.0 {
        score := score + 10.0;
      } else if hours >= 8.0 {
        score := score - 5.0;
      }
    }
    assert score == afterWeight + EffortAdjustment(input.estimatedHours);

    var title := ToLower(input.title);
    var description := ToLower(input.description);
    ghost var weighted := score;
    var keywords := UrgentKeywords;
    for i := 0 to |keywords|
      invariant score == weighted + KeywordBonus * KeywordHits(keywords[..i], title, description) as real
    {
      var keyword := keywords[i];
      KeywordHitsStep(keywords, i, title, description);
      if KeywordFound(keyword, title, description) {
        score := score + KeywordBonus;
      }
    }
    assert keywords[..|keywords|] == keywords;
    assert score == weighted + KeywordBonus * Hits(input) as real;
    assert score == RawScore(input);

    result := Clamp(Round(score));
  }

  // ---------------------------------------------------------------------
  // Properties of the score

  lemma {:induction false} NoKeywordNoHits(keywords: seq<string>, title: string, description: string)
    requires forall k :: k in keywords ==> !KeywordFound(k, title, description)
    ensures KeywordHits(keywords, title, description) == 0
  {
    if keywords != [] {
      NoKeywordNoHits(keywords[..|keywords| - 1], title, description);
    }
  }

  /** With no due date, medium priority, no (or zero) estimate and no
      keyword, the score is the base score 50. */
  lemma BaselineScoreIs50(input: ScoreInput)
    requires input.daysUntilDue.None? && input.priority == Medium
    requires input.estimatedHours.None? || input.estimatedHours == Some(0.0)
    requires forall k :: k in UrgentKeywords ==> !KeywordFound(k, ToLower(input.title), ToLower(input.description))
    ensures Score(input) == 50
  {
    NoKeywordNoHits(UrgentKeywords, ToLower(input.title), ToLower(input.description));
  }

  /** The due bonus never decreases as the due date gets closer, and any
      due date earns at least as much as none. */
  lemma DueBonusAntitone(d1: int, d2: int)
    requires d1 <= d2
    ensures DueBonus(Some(d1)) >= DueBonus(Some(d2)) >= DueBonus(None)
  {
  }

  lemma RoundMonotone(x: real, y: real)
    requires x <= y
    ensures Round(x) <= Round(y)
  {
  }

  /** The weighted part of the raw score grows with the due bonus, whatever
      the priority. */
  lemma WeightedMonotone(p: Priority, b1: int, b2: int)
    requires 0 <= b2 <= b1
    ensures (BaseScore + b1 as real) * PriorityWeight(p) >= (BaseScore + b2 as real) * PriorityWeight(p)
  {
    match p
    case Low =>
    case Medium =>
    case High =>
    case Critical =>
    case OtherPriority(_) =>
  }

  /** Monotonicity: with every other input fixed, an earlier due date never
      gives a lower score. */
  lemma {:induction false} ScoreMonotoneInDays(input: ScoreInput, d1: int, d2: int)
    requires d1 <= d2
    ensures Score(input.(daysUntilDue := Some(d1))) >= Score(input.(daysUntilDue := Some(d2)))
  {
    DueBonusAntitone(d1, d2);
    WeightedMonotone(input.priority, DueBonus(Some(d1)), DueBonus(Some(d2)));
    RoundMonotone(RawScore(input.(daysUntilDue := Some(d2))), RawScore(input.(daysUntilDue := Some(d1))));
  }

  /** Setting a due date never lowers the score. */
  lemma {:induction false} DueDateNeverLowersScore(input: ScoreInput, d: int)
    ensures Score(input.(daysUntilDue := Some(d))) >= Score(input.(daysUntilDue := None))
  {
    DueBonusAntitone(d, d);
    WeightedMonotone(input.priority, DueBonus(Some(d)), DueBonus(None));
    RoundMonotone(RawScore(input.(daysUntilDue := None)), RawScore(input.(daysUntilDue := Some(d))));
  }

  /** The priority weight scales only the base plus due bonus: changing the
      priority moves the raw score by the weight difference times that sum,
      whatever the effort and keyword adjustments are. */
  lemma WeightScalesBaseOnly(input: ScoreInput, p1: Priority, p2: Priority)
    ensures RawScore(input.(priority := p1)) - RawScore(input.(priority := p2))
         == (PriorityWeight(p1) - PriorityWeight(p2)) * (BaseScore + DueBonus(input.daysUntilDue) as real)
  {
  }

  /** An unrecognised priority weighs like `medium`. */
  lemma UnknownPriorityWeighsLikeMedium(input: ScoreInput, name: string)
    ensures Score(input.(priority := OtherPriority(name))) == Score(input.(priority := Medium))
  {
  }

  /** Zero estimated hours is falsy: it scores exactly like no estimate. */
  lemma ZeroHoursEarnNoBonus(input: ScoreInput)
    ensures Score(input.(estimatedHours := Some(0.0))) == Score(input.(estimatedHours := None))
  {
    assert EffortAdjustment(Some(0.0)) == EffortAdjustment(None);
    assert RawScore(input.(estimatedHours := Some(0.0))) == RawScore(input.(estimatedHours := None));
  }

  /** The raw score stays within [20, 195]; in particular the keyword bonus
      is at most 25. */
  lemma {:induction false} RawScoreBounds(input: ScoreInput)
    ensures 0.0 <= KeywordBonus * KeywordHits(UrgentKeywords, ToLower(input.title), ToLower(input.description)) as real <= 25.0
    ensures 20.0 <= RawScore(input) <= 195.0
  {
    var b := DueBonus(input.daysUntilDue);
    WeightedMonotone(input.priority, b, 0);
    WeightedMonotone(input.priority, 30, b);
  }

  /** The lower clamp never fires: the score is at least 20 and equals the
      rounded raw score capped at 100. */
  lemma {:induction false} LowerClampNeverFires(input: ScoreInput)
    ensures Score(input) >= 20
    ensures Score(input) == if Round(RawScore(input)) > MaxScore then MaxScore else Round(RawScore(input))
  {
    RawScoreBounds(input);
    RoundMonotone(20.0, RawScore(input));
  }

  /** A critical task due within a day scores the maximum. */
  lemma {:induction false} CriticalAndDueScoresMax(input: ScoreInput)
    requires input.priority == Critical
    requires input.daysUntilDue.Some? && input.daysUntilDue.value <= 1
    ensures Score(input) == MaxScore
  {
    RawScoreBounds(input);
    RoundMonotone(145.0, RawScore(input));
  }

  lemma {:induction false} RepeatedDescriptionAddsNoHits(keywords: seq<string>, title: string)
    requires forall i :: 0 <= i < |keywords| ==> keywords[i] != []
    ensures KeywordHits(keywords, title, title) == KeywordHits(keywords, title, [])
  {
    if keywords != [] {
      NothingInEmpty(keywords[|keywords| - 1]);
      RepeatedDescriptionAddsNoHits(keywords[..|keywords| - 1], title);
    }
  }

  /** Two inputs that agree on due date, priority and estimate and find
      the same number of keywords score the same. */
  lemma SameHitsSameScore(a: ScoreInput, b: ScoreInput)
    requires a.daysUntilDue == b.daysUntilDue && a.priority == b.priority && a.estimatedHours == b.estimatedHours
    requires Hits(a) == Hits(b)
    ensures Score(a) == Score(b)
  {
    assert RawScore(a) == RawScore(b);
  }

  /** Each keyword contributes at most once: a description that repeats the
      title earns nothing more than an empty one. */
  lemma {:induction false} KeywordCountedOnce(input: ScoreInput)
    ensures Score(input.(description := input.title)) == Score(input.(description := []))
  {
    var title := ToLower(input.title);
    RepeatedDescriptionAddsNoHits(UrgentKeywords, title);
    assert ToLower([]) == [];
    SameHitsSameScore(input.(description := input.title), input.(description := []));
  }

  /** Keyword matching ignores case: the score of a title equals the score of
      its lower-cased form. */
  lemma {:induction false} ScoreIgnoresCase(input: ScoreInput)
    ensures Score(input.(title := ToLower(input.title))) == Score(input)
    ensures Score(input.(description := ToLower(input.description))) == Score(input)
  {
    ToLowerIdempotent(input.title);
    ToLowerIdempotent(input.description);
    SameHitsSameScore(input.(title := ToLower(input.title)), input);
    SameHitsSameScore(input.(description := ToLower(input.description)), input);
  }
}
