/** The scheduler's per-question rules: the review interval, the age of the
    last answer, the weak/overdue classification, the writing boost, the
    additive priority score and its weighting, and the weighted draw of one
    question. `today` is the current local day number. */
module QuizPriority {
  import opened Types
  import opened Layers
  import opened Shuffle

  const MaxPerTag: int := 3
  const NeverAnswered: int := 9999

  /** The review interval in days, which grows with the correct-answer streak. */
  function TargetInterval(consecutiveCorrect: int): (r: int)
    ensures 1 <= r <= 14
  {
    if consecutiveCorrect <= 0 then 1
    else if consecutiveCorrect == 1 then 2
    else if consecutiveCorrect == 2 then 4
    else Min(14, 7 + (consecutiveCorrect - 3) * 2)
  }

  function Min(a: int, b: int): int { if a <= b then a else b }
  function Max(a: int, b: int): int { if a >= b then a else b }
  function MinR(a: real, b: real): real { if a <= b then a else b }
  function MaxR(a: real, b: real): real { if a >= b then a else b }

  /** The interval never shrinks as the streak grows. */
  lemma TargetIntervalMonotone(a: int, b: int)
    requires a <= b
    ensures TargetInterval(a) <= TargetInterval(b)
  {
  }

  /** The intervals are 1, 2, 4, 7, 9, 11, 13 and then 14 for good. */
  lemma TargetIntervalValues(s: int)
    ensures s <= 0 ==> TargetInterval(s) == 1
    ensures TargetInterval(1) == 2 && TargetInterval(2) == 4 && TargetInterval(3) == 7
    ensures TargetInterval(4) == 9 && TargetInterval(5) == 11 && TargetInterval(6) == 13
    ensures s >= 7 ==> TargetInterval(s) == 14
  {
  }

  /** Whole days since `lastAnswered`; a missing date counts as 9999 days. */
  function DaysSince(lastAnswered: Option<int>, today: int): (r: int)
    ensures r >= 0
    ensures lastAnswered.None? ==> r == NeverAnswered
    ensures lastAnswered.Some? && lastAnswered.value <= today ==> r == today - lastAnswered.value
    ensures lastAnswered.Some? && lastAnswered.value > today ==> r == 0
  {
    match lastAnswered
    case None => NeverAnswered
    case Some(d) => Max(0, today - d)
  }

  function MissRate(h: QuestionHistory): real
  {
    h.miss as real / Max(1, h.correct + h.miss) as real
  }

  predicate IsWeakQuestion(q: Question, state: AppState)
  {
    q.id in state.history &&
    var h := state.history[q.id];
    h.lastResult == Miss || MissRate(h) >= 0.34 || (h.miss >= 2 && h.consecutiveCorrect < 2)
  }

  /** A question with no record, or one never missed, is not weak. */
  lemma WeakNeedsAMiss(q: Question, state: AppState)
    requires q.id !in state.history ||
      (state.history[q.id].miss == 0 && state.history[q.id].lastResult == Correct)
    ensures !IsWeakQuestion(q, state)
  {
    if q.id in state.history {
      assert MissRate(state.history[q.id]) == 0.0;
    }
  }

  /** A recorded miss rate of one third or more (0.34 and up) makes a question weak. */
  lemma HighMissRateIsWeak(q: Question, state: AppState)
    requires q.id in state.history
    requires 100 * state.history[q.id].miss >= 34 * (state.history[q.id].correct + state.history[q.id].miss)
    requires state.history[q.id].miss > 0
    ensures IsWeakQuestion(q, state)
  {
    var h := state.history[q.id];
    var total := h.correct + h.miss;
    assert 100.0 * h.miss as real >= 34.0 * total as real;
    DivCompare(h.miss as real, total as real, 0.34);
  }

  /** The classifier in whole numbers: a question is weak exactly when it
      has a record whose last answer was a miss, whose misses are at least
      34% of max(1, attempts), or that has two misses or more and a run of
      fewer than two correct answers. */
  lemma WeakIff(q: Question, state: AppState)
    ensures IsWeakQuestion(q, state) <==>
      q.id in state.history &&
      var h := state.history[q.id];
      || h.lastResult == Miss
      || 100 * h.miss >= 34 * Max(1, h.correct + h.miss)
      || (h.miss >= 2 && h.consecutiveCorrect < 2)
  {
    if q.id in state.history {
      var h := state.history[q.id];
      var total := Max(1, h.correct + h.miss);
      DivCompare(h.miss as real, total as real, 0.34);
      assert 100 * h.miss >= 34 * total <==> h.miss as real >= 0.34 * total as real;
    }
  }

  predicate IsOverdueQuestion(q: Question, state: AppState, today: int)
  {
    q.id in state.history && state.history[q.id].lastAnswered.Some? &&
    DaysSince(state.history[q.id].lastAnswered, today) > TargetInterval(state.history[q.id].consecutiveCorrect)
  }

  /** Overdue means the last answer is more than the interval ago: a question
      answered today or yesterday never is, and an overdue question stays
      overdue on every later day. */
  lemma OverdueMeaning(q: Question, state: AppState, today: int, later: int)
    requires today <= later
    ensures IsOverdueQuestion(q, state, today) <==>
      q.id in state.history && state.history[q.id].lastAnswered.Some? &&
      today - state.history[q.id].lastAnswered.value > TargetInterval(state.history[q.id].consecutiveCorrect)
    ensures IsOverdueQuestion(q, state, today) ==> state.history[q.id].lastAnswered.value <= today - 2
    ensures IsOverdueQuestion(q, state, today) ==> IsOverdueQuestion(q, state, later)
  {
  }

  /** `needsWritingBoost`: writing has too few attempts or too low a rate. */
  predicate NeedsWritingBoost(state: AppState)
  {
    if Writing !in state.tagStats then true
    else
      var w := state.tagStats[Writing];
      var attempts := w.correct + w.miss;
      if attempts < 12 then true
      else
        var rate := w.correct as real / attempts as real;
        var missRate := w.miss as real / attempts as real;
        missRate >= 0.35 || rate < 0.75
  }

  /** The miss-rate test is implied by the rate test (the two rates add up to
      one), so the boost is on exactly when writing has fewer than 12 attempts
      or less than 75% correct. */
  lemma WritingBoostIff(state: AppState)
    ensures NeedsWritingBoost(state) <==>
      var w := StatsOf(state.tagStats, Writing);
      w.correct + w.miss < 12 || 4 * w.correct < 3 * (w.correct + w.miss)
  {
    if Writing in state.tagStats {
      var w := state.tagStats[Writing];
      var attempts := w.correct + w.miss;
      if attempts >= 12 {
        var n := attempts as real;
        RatesAddUp(w.correct, w.miss);
        DivCompare(w.correct as real, n, 0.75);
      }
    }
  }

  /** `a / b >= c` exactly when `a >= c * b`, for positive `b`. */
  lemma DivCompare(a: real, b: real, c: real)
    requires b > 0.0
    ensures a / b >= c <==> a >= c * b
  {
    var q := a / b;
    assert q * b == a;
    if q < c {
      assert (c - q) * b > 0.0;
    } else {
      assert (q - c) * b >= 0.0;
    }
  }

  /** The correct rate and the miss rate of the same attempts add up to one. */
  lemma RatesAddUp(c: nat, m: nat)
    requires c + m > 0
    ensures c as real / (c + m) as real + m as real / (c + m) as real == 1.0
  {
    var n := (c + m) as real;
    var x := c as real / n;
    var y := m as real / n;
    assert x * n == c as real;
    assert y * n == m as real;
    calc {
      (x + y - 1.0) * n;
      x * n + y * n - n;
      c as real + m as real - n;
      0.0;
    }
  }

  /** `num / den` for counts with `num <= den`: a fraction in [0, 1]. */
  function Fraction(num: nat, den: nat): (r: real)
    requires num <= den && den > 0
    ensures 0.0 <= r <= 1.0
  {
    var q := num as real / den as real;
    assert q * den as real == num as real;
    q
  }

  /** How far past its interval the last answer is, in intervals, clamped to [0, 1.5]. */
  function OverdueBoost(days: int, interval: int): (b: real)
    ensures 0.0 <= b <= 1.5
  {
    MaxR(0.0, MinR(1.5, (days - interval) as real / Max(1, interval) as real))
  }

  /** How far the tag's correct rate falls short of the layer's target rate,
      relative to the target; 0 without attempts. */
  function LayerGap(ts: TagStats, target: real): (g: real)
    requires 0.0 < target
    ensures 0.0 <= g <= 1.0
  {
    var tagTotal := ts.correct + ts.miss;
    if tagTotal > 0 then
      var rate := Fraction(ts.correct, tagTotal);
      assert target - rate <= target;
      MaxR(0.0, (target - rate) / target)
    else 0.0
  }

  /** The additive priority of `q`: base 1.0 plus the clamped boosts, minus
      the streak and same-day penalties, floored at 0.1. */
  function Priority(q: Question, state: AppState, writingBoost: bool, today: int): (r: real)
    ensures 0.1 <= r <= 6.9
  {
    var h := HistoryOf(state.history, q.id);
    var correct := if h.Some? then h.value.correct else 0;
    var miss := if h.Some? then h.value.miss else 0;
    var streak := if h.Some? then h.value.consecutiveCorrect else 0;
    var last := if h.Some? then h.value.lastAnswered else None;
    var missRate := Fraction(miss, correct + miss + 2);
    var days := DaysSince(last, today);
    var overdueBoost := OverdueBoost(days, TargetInterval(streak));
    var recentMistakeBoost := if h.Some? && h.value.lastResult == Miss && days <= 2 then 1.0 else 0.0;
    var streakPenalty := MinR(streak as real / 5.0, 1.0);
    var sameDayPenalty := if last == Some(today) then 1.0 else 0.0;
    var writingBias := if writingBoost && q.tag == Writing then 0.45 else 0.0;
    var newQuestionBoost := if h.Some? then 0.0 else 0.35;
    var ts := StatsOf(state.tagStats, q.tag);
    var tagTotal := ts.correct + ts.miss;
    var tagMissRate := if tagTotal > 0 then Fraction(ts.miss, tagTotal) else 0.0;
    var layerGap := LayerGap(ts, LayerByTag(q.tag).targetRate);
    MaxR(0.1,
      1.0
      + 1.8 * missRate
      + 1.2 * recentMistakeBoost
      + 0.8 * overdueBoost
      + 0.5 * tagMissRate
      + 0.4 * layerGap
      + writingBias
      + newQuestionBoost
      - 0.7 * streakPenalty
      - 0.5 * sameDayPenalty)
  }

  /** A never-answered question outside writing, in a tag with no attempts,
      scores 1.0 + 0.8 * 1.5 + 0.35: the 9999-day age saturates the overdue
      term and the new-question boost applies. */
  lemma FreshQuestionPriority(q: Question, state: AppState, writingBoost: bool, today: int)
    requires q.id !in state.history
    requires q.tag != Writing || !writingBoost
    requires StatsOf(state.tagStats, q.tag).correct + StatsOf(state.tagStats, q.tag).miss == 0
    ensures Priority(q, state, writingBoost, today) == 2.55
  {
  }

  /** The four draw plans of the daily set. */
  datatype DailyPlan = PlanNormal | PlanWeak | PlanOverdue | PlanSurprise

  /** The exponent each plan applies to the priority. */
  function PlanExponent(mode: DailyPlan): real
  {
    match mode
    case PlanWeak => 1.1
    case PlanOverdue => 1.2
    case PlanSurprise => 0.55
    case PlanNormal => 0.75
  }

  /** `Math.max(0.05, Math.pow(base, e))`; `pow` stands for `Math.pow`. */
  function Weight(base: real, mode: DailyPlan, pow: (real, real) -> real): (w: real)
    ensures w >= 0.05
    ensures w == 0.05 || w == pow(base, PlanExponent(mode))
  {
    MaxR(0.05, pow(base, PlanExponent(mode)))
  }

  function CountOf(counts: map<Tag, int>, t: Tag): int
  {
    if t in counts then counts[t] else 0
  }

  /** May `q` still be drawn: unused, and its tag below the cap of 3. */
  predicate Available(q: Question, usedIds: set<string>, pickedTagCount: map<Tag, int>)
  {
    q.id !in usedIds && CountOf(pickedTagCount, q.tag) < MaxPerTag
  }

  /** `pool.filter(...)` of the candidates, in pool order. */
  function Candidates(pool: seq<Question>, usedIds: set<string>, pickedTagCount: map<Tag, int>): (c: seq<Question>)
    ensures forall q | q in c :: q in pool && Available(q, usedIds, pickedTagCount)
    ensures forall q | q in pool && Available(q, usedIds, pickedTagCount) :: q in c
    ensures |c| <= |pool|
  {
    if pool == [] then []
    else
      var rest := Candidates(pool[1..], usedIds, pickedTagCount);
      if Available(pool[0], usedIds, pickedTagCount) then [pool[0]] + rest else rest
  }

  /** The weight of every candidate, in candidate order. */
  function Weights(c: seq<Question>, state: AppState, writingBoost: bool, mode: DailyPlan,
                   today: int, pow: (real, real) -> real): (ws: seq<real>)
    ensures |ws| == |c|
    ensures forall i | 0 <= i < |ws| :: ws[i] >= 0.05
  {
    if c == [] then []
    else
      [Weight(Priority(c[0], state, writingBoost, today), mode, pow)]
      + Weights(c[1..], state, writingBoost, mode, today, pow)
  }

  function Sum(ws: seq<real>): real
  {
    if ws == [] then 0.0 else ws[0] + Sum(ws[1..])
  }

  /** Every weight is at least 0.05, so a non-empty candidate list has a
      positive weight sum and the `sum <= 0` fallback never runs. */
  lemma {:induction false} WeightSumPositive(ws: seq<real>)
    requires forall i | 0 <= i < |ws| :: ws[i] >= 0.05
    ensures Sum(ws) >= 0.05 * |ws| as real
  {
    if ws != [] {
      WeightSumPositive(ws[1..]);
    }
  }

  /** The cumulative walk: subtract each weight from `r` and stop at the first
      row that brings it to zero or below; the last row otherwise. */
  function Walk(ws: seq<real>, r: real): (i: nat)
    requires ws != []
    ensures i < |ws|
  {
    if |ws| == 1 || r - ws[0] <= 0.0 then 0 else 1 + Walk(ws[1..], r - ws[0])
  }

  /** When `r` is in (0, sum], the walk lands on a row whose cumulative range
      holds `r`: the weights before it add up to less than `r`, and with its own
      weight to at least `r`. */
  lemma {:induction false} WalkLandsInRange(ws: seq<real>, r: real)
    requires ws != [] && 0.0 < r <= Sum(ws)
    ensures Sum(ws[..Walk(ws, r)]) < r <= Sum(ws[..Walk(ws, r) + 1])
  {
    if |ws| == 1 {
      assert ws[..1] == ws;
      assert ws[..0] == [];
    } else if r - ws[0] <= 0.0 {
      assert ws[..0] == [];
      assert Sum(ws[..1]) == ws[0] + Sum(ws[1..1]);
    } else {
      var rest := ws[1..];
      assert Sum(ws) == ws[0] + Sum(rest);
      WalkLandsInRange(rest, r - ws[0]);
      var i := Walk(rest, r - ws[0]);
      assert ws[..i + 1] == [ws[0]] + rest[..i];
      assert ws[..i + 2] == [ws[0]] + rest[..i + 1];
      assert ws[..i + 1][1..] == rest[..i];
      assert ws[..i + 2][1..] == rest[..i + 1];
    }
  }

  /** The question the weighted walk selects for the draw `u`: the candidate
      whose cumulative weight range holds `u * sum`. */
  function WeightedPick(pool: seq<Question>, state: AppState, usedIds: set<string>,
                        pickedTagCount: map<Tag, int>, writingBoost: bool, mode: DailyPlan,
                        today: int, pow: (real, real) -> real, u: UnitReal): Option<Question>
  {
    var c := Candidates(pool, usedIds, pickedTagCount);
    if c == [] then None
    else
      var ws := Weights(c, state, writingBoost, mode, today, pow);
      Some(c[Walk(ws, Scale(u, Sum(ws)))])
  }

  /** `Math.random() * sum`. */
  function Scale(u: UnitReal, total: real): real
  {
    u * total
  }

  /** For a positive sum the scaled draw is a point in [0, sum). */
  lemma ScaleInRange(u: UnitReal, total: real)
    requires total > 0.0
    ensures 0.0 <= Scale(u, total) < total
  {
    assert (1.0 - u) * total > 0.0;
  }

  /** `pickWeightedQuestion`: one weighted draw among the candidates, with
      `u` the value `Math.random()` returns; no draw is consumed and `None`
      comes back when nothing is available. The weight sum is positive
      whenever there are candidates, so the `sum <= 0` fallback is never
      taken and is not part of the model. */
  method PickWeightedQuestion(pool: seq<Question>, state: AppState, usedIds: set<string>,
                              pickedTagCount: map<Tag, int>, writingBoost: bool, mode: DailyPlan,
                              today: int, pow: (real, real) -> real, u: UnitReal)
    returns (picked: Option<Question>)
    ensures picked.None? <==> (forall q | q in pool :: !Available(q, usedIds, pickedTagCount))
    ensures picked.Some? ==> picked.value in pool && Available(picked.value, usedIds, pickedTagCount)
    ensures picked == WeightedPick(pool, state, usedIds, pickedTagCount, writingBoost, mode, today, pow, u)
  {
    var candidates := Candidates(pool, usedIds, pickedTagCount);
    if |candidates| == 0 {
      return None;
    }
    var weighted := Weights(candidates, state, writingBoost, mode, today, pow);
    var sum := Sum(weighted);
    var row := WalkRows(weighted, Scale(u, sum));
    picked := Some(candidates[row]);
    assert candidates[row] in candidates;
  }

  /** The loop of the walk: `r -= w` row by row, returning the first row at
      which `r <= 0`, and the last row when none is. */
  method WalkRows(weighted: seq<real>, r0: real) returns (row: nat)
    requires weighted != []
    ensures row == Walk(weighted, r0)
  {
    var r := r0;
    var i := 0;
    while i < |weighted| - 1
      invariant 0 <= i < |weighted|
      invariant Walk(weighted, r0) == i + Walk(weighted[i..], r)
      decreases |weighted| - i
    {
      WalkRest(weighted[i..], r);
      r := r - weighted[i];
      if r <= 0.0 {
        return i;
      }
      assert weighted[i..][1..] == weighted[i + 1..];
      i := i + 1;
    }
    return |weighted| - 1;
  }

  /** One row of the walk: the walk stops here when the remainder drops to
      zero or below, and otherwise continues on the rest. */
  lemma WalkRest(ws: seq<real>, r: real)
    requires |ws| > 1
    ensures r - ws[0] <= 0.0 ==> Walk(ws, r) == 0
    ensures r - ws[0] > 0.0 ==> Walk(ws, r) == 1 + Walk(ws[1..], r - ws[0])
  {
  }
}
