/** The six set builders of the quiz hook and the default set: which
    questions a quiz of each mode asks. Every builder receives the random
    stream and the index of its first draw. */
module QuizSets {
  import opened Types
  import opened Seqs
  import opened Shuffle
  import opened Layers
  import opened QuizPriority

  const DailyQuestionCount: nat := 7

  /** `DAILY_PLAN_COUNTS` expanded in key order: 3 normal, 2 weak, 1 overdue, 1 surprise. */
  const BasePlans: seq<DailyPlan> :=
    [PlanNormal, PlanNormal, PlanNormal, PlanWeak, PlanWeak, PlanOverdue, PlanSurprise]

  function Repeat<T>(x: T, n: nat): (r: seq<T>)
    ensures |r| == n
    ensures forall i | 0 <= i < n :: r[i] == x
  {
    if n == 0 then [] else [x] + Repeat(x, n - 1)
  }

  /** `buildDailyPlans(total)`: the base plans shuffled, cut to `total`, or
      padded with normal plans before the shuffle. */
  function BuildDailyPlans(total: nat, rand: nat -> UnitReal, k: nat): seq<DailyPlan>
  {
    var base := BasePlans;
    if |base| == total then Shuffled(base, rand, k)
    else if |base| > total then
      var s := Shuffled(base, rand, k);
      ShuffledPermutes(base, rand, k);
      s[..total]
    else Shuffled(base + Repeat(PlanNormal, total - |base|), rand, k)
  }

  /** The number of draws `buildDailyPlans(total)` consumes. */
  function DailyPlanDraws(total: nat): nat
  {
    ShuffleDraws(if total > |BasePlans| then total else |BasePlans|)
  }

  lemma DailyPlansLength(total: nat, rand: nat -> UnitReal, k: nat)
    ensures |BuildDailyPlans(total, rand, k)| == total
  {
    ShuffledPermutes(BasePlans, rand, k);
    if total > 7 {
      ShuffledPermutes(BasePlans + Repeat(PlanNormal, total - |BasePlans|), rand, k);
    }
  }

  /** There are exactly `total` plans; seven plans are a reordering of the
      base mix, and more than seven add only normal plans. */
  lemma DailyPlansMix(total: nat, rand: nat -> UnitReal, k: nat)
    ensures |BuildDailyPlans(total, rand, k)| == total
    ensures total == 7 ==> multiset(BuildDailyPlans(total, rand, k)) == multiset(BasePlans)
    ensures total >= 7 ==>
      multiset(BuildDailyPlans(total, rand, k)) == multiset(BasePlans) + multiset(Repeat(PlanNormal, total - 7))
    ensures multiset(BasePlans)[PlanNormal] == 3 && multiset(BasePlans)[PlanWeak] == 2
    ensures multiset(BasePlans)[PlanOverdue] == 1 && multiset(BasePlans)[PlanSurprise] == 1
  {
    ShuffledPermutes(BasePlans, rand, k);
    if total > 7 {
      ShuffledPermutes(BasePlans + Repeat(PlanNormal, total - |BasePlans|), rand, k);
    }
    if total == 7 {
      assert Repeat(PlanNormal, 0) == [];
      assert BasePlans + [] == BasePlans;
    }
  }

  /** `filterAvailableQuestions`: the questions of `pool` whose id is unused. */
  function FilterAvailable(pool: seq<Question>, usedIds: set<string>): (r: seq<Question>)
    ensures forall q | q in r :: q in pool && q.id !in usedIds
    ensures forall q | q in pool && q.id !in usedIds :: q in r
  {
    if pool == [] then []
    else if pool[0].id !in usedIds then [pool[0]] + FilterAvailable(pool[1..], usedIds)
    else FilterAvailable(pool[1..], usedIds)
  }

  /** The recorded miss count of a question, 0 without a record. */
  function MissCount(state: AppState, q: Question): nat
  {
    if q.id in state.history then state.history[q.id].miss else 0
  }

  /** The miss rate the repair set ranks by. */
  function RepairRate(state: AppState, q: Question): real
  {
    if q.id in state.history then MissRate(state.history[q.id]) else 0.0
  }

  /** The questions with at least one recorded miss, in catalog order. */
  function MissedQuestions(questions: seq<Question>, state: AppState): (r: seq<Question>)
    ensures forall q | q in r :: q in questions && MissCount(state, q) > 0
    ensures forall q | q in questions && MissCount(state, q) > 0 :: q in r
    ensures |r| <= |questions|
  {
    if questions == [] then []
    else
      var rest := MissedQuestions(questions[1..], state);
      if MissCount(state, questions[0]) > 0 then [questions[0]] + rest else rest
  }

  /** The comparator `(a, b) => b.missRate - a.missRate`: a goes first when
      its miss rate is not smaller. */
  function ByMissRateDesc(state: AppState): (Question, Question) -> bool
  {
    (a: Question, b: Question) => RepairRate(state, a) >= RepairRate(state, b)
  }

  lemma ByMissRateDescTotal(state: AppState)
    ensures TotalPreorder(ByMissRateDesc(state))
  {
  }

  /** The ten questions with the highest miss rates, before the final shuffle. */
  function RepairRanking(questions: seq<Question>, state: AppState): seq<Question>
  {
    Take(SortBy(MissedQuestions(questions, state), ByMissRateDesc(state)), 10)
  }

  /** `buildRepairSet` */
  function BuildRepairSet(questions: seq<Question>, state: AppState, rand: nat -> UnitReal, k: nat): seq<Question>
  {
    var top := RepairRanking(questions, state);
    if |top| == 0 then [] else Shuffled(top, rand, k)
  }

  /** Only missed questions of the catalog are chosen, as many as there are
      up to ten, so the set is empty exactly when nothing was ever missed. */
  lemma RepairSetContents(questions: seq<Question>, state: AppState, rand: nat -> UnitReal, k: nat)
    ensures var r := BuildRepairSet(questions, state, rand, k);
      (forall q | q in r :: q in questions && MissCount(state, q) > 0)
      && |r| == Min(10, |MissedQuestions(questions, state)|)
      && (|r| == 0 <==> forall q | q in questions :: MissCount(state, q) == 0)
  {
    var missed := MissedQuestions(questions, state);
    var sorted := SortBy(missed, ByMissRateDesc(state));
    SortByPermutation(missed, ByMissRateDesc(state));
    var top := RepairRanking(questions, state);
    ShuffledMembers(top, rand, k);
    forall q | q in top
      ensures q in missed
    {
      assert q in multiset(sorted);
    }
    if |missed| > 0 {
      assert missed[0] in missed;
    }
  }

  /** The ranking is by miss rate: every chosen question's miss rate is at
      least that of every missed question left out. */
  lemma RepairSetRanked(questions: seq<Question>, state: AppState, rand: nat -> UnitReal, k: nat,
                        chosen: Question, other: Question)
    requires chosen in BuildRepairSet(questions, state, rand, k)
    requires other in MissedQuestions(questions, state)
    requires other !in BuildRepairSet(questions, state, rand, k)
    ensures RepairRate(state, chosen) >= RepairRate(state, other)
  {
    var le := ByMissRateDesc(state);
    var missed := MissedQuestions(questions, state);
    var sorted := SortBy(missed, le);
    SortByPermutation(missed, le);
    ByMissRateDescTotal(state);
    SortBySorted(missed, le);
    var top := RepairRanking(questions, state);
    ShuffledMembers(top, rand, k);
    assert chosen in top;
    var i :| 0 <= i < |top| && top[i] == chosen;
    assert other in multiset(sorted);
    var j :| 0 <= j < |sorted| && sorted[j] == other;
    assert other !in top;
    assert j >= |top|;
    assert le(sorted[i], sorted[j]);
  }

  predicate IsEasy(t: Tag)
  {
    t == Radical || t == StrokeCount || t == Reading
  }

  /** The questions tagged radical, stroke count or reading, in catalog order. */
  function EasyQuestions(questions: seq<Question>): (r: seq<Question>)
    ensures forall q | q in r :: q in questions && IsEasy(q.tag)
    ensures forall q | q in questions && IsEasy(q.tag) :: q in r
  {
    if questions == [] then []
    else
      var rest := EasyQuestions(questions[1..]);
      if IsEasy(questions[0].tag) then [questions[0]] + rest else rest
  }

  /** `buildTrialSet` */
  function BuildTrialSet(questions: seq<Question>, rand: nat -> UnitReal, k: nat): seq<Question>
  {
    Take(Shuffled(EasyQuestions(questions), rand, k), 3)
  }

  /** Three easy questions, or all of them when there are fewer. */
  lemma TrialSetContents(questions: seq<Question>, rand: nat -> UnitReal, k: nat)
    ensures var r := BuildTrialSet(questions, rand, k);
      |r| == Min(3, |EasyQuestions(questions)|)
      && forall q | q in r :: q in questions && IsEasy(q.tag)
  {
    var easy := EasyQuestions(questions);
    ShuffledMembers(easy, rand, k);
  }

  /** The set of an unknown mode: `shuffle(allQuestions).slice(0, 7)`. */
  function DefaultSet(questions: seq<Question>, rand: nat -> UnitReal, k: nat): seq<Question>
  {
    Take(Shuffled(questions, rand, k), DailyQuestionCount)
  }

  lemma DefaultSetContents(questions: seq<Question>, rand: nat -> UnitReal, k: nat)
    ensures var r := DefaultSet(questions, rand, k);
      |r| == Min(7, |questions|)
      && (forall q | q in r :: q in questions)
      && (UniqueIds(questions) ==> UniqueIds(r))
  {
    var s := Shuffled(questions, rand, k);
    ShuffledMembers(questions, rand, k);
    ShuffledPermutes(questions, rand, k);
    if UniqueIds(questions) {
      UniqueIdsPermutation(questions, s);
      UniqueIdsPrefix(s, |DefaultSet(questions, rand, k)|);
    }
  }

  /** `weakPool`, `overduePool` and `unseenPool` of the daily set. */
  function WeakPool(questions: seq<Question>, state: AppState): (r: seq<Question>)
    ensures forall q | q in r :: q in questions && IsWeakQuestion(q, state)
    ensures forall q | q in questions && IsWeakQuestion(q, state) :: q in r
  {
    Filter(questions, q => IsWeakQuestion(q, state))
  }

  function OverduePool(questions: seq<Question>, state: AppState, today: int): (r: seq<Question>)
    ensures forall q | q in r :: q in questions && IsOverdueQuestion(q, state, today)
    ensures forall q | q in questions && IsOverdueQuestion(q, state, today) :: q in r
  {
    Filter(questions, q => IsOverdueQuestion(q, state, today))
  }

  function UnseenPool(questions: seq<Question>, state: AppState): (r: seq<Question>)
    ensures forall q | q in r :: q in questions && q.id !in state.history
    ensures forall q | q in questions && q.id !in state.history :: q in r
  {
    Filter(questions, (q: Question) => q.id !in state.history)
  }

  /** What the daily loops keep: the picks come from the catalog, `usedIds`
      holds their ids, no id repeats, and `pickedTagCount` counts the picks
      of every tag, none above the cap. */
  ghost predicate DailyInv(picked: seq<Question>, usedIds: set<string>, counts: map<Tag, int>, questions: seq<Question>)
  {
    && (forall q | q in picked :: q in questions)
    && usedIds == IdSet(picked)
    && UniqueIds(picked)
    && (forall t :: CountOf(counts, t) == CountTag(picked, t) <= MaxPerTag)
  }

  /** Recording an available pick keeps the invariant. */
  lemma DailyPush(picked: seq<Question>, usedIds: set<string>, counts: map<Tag, int>,
                  questions: seq<Question>, q: Question)
    requires DailyInv(picked, usedIds, counts, questions)
    requires q in questions && Available(q, usedIds, counts)
    ensures DailyInv(picked + [q], usedIds + {q.id}, counts[q.tag := CountOf(counts, q.tag) + 1], questions)
  {
    IdSetAppend(picked, [q]);
    assert IdSet([q]) == {q.id};
    UniqueIdsSnoc(picked, q);
    forall t
      ensures CountTag(picked + [q], t) == CountTag(picked, t) + (if q.tag == t then 1 else 0)
    {
      CountTagAppend(picked, [q], t);
    }
  }

  /** `primaryPoolBase`: the weak or overdue pool for those plans, the
      catalog for a normal or surprise plan. */
  function PrimaryBase(plan: DailyPlan, questions: seq<Question>,
                       weakPool: seq<Question>, overduePool: seq<Question>): seq<Question>
  {
    if plan == PlanWeak then weakPool else if plan == PlanOverdue then overduePool else questions
  }

  /** `fallbackPoolBase`: the unseen questions for a normal plan when there
      are any, the catalog otherwise. */
  function FallbackBase(plan: DailyPlan, questions: seq<Question>, unseenPool: seq<Question>): seq<Question>
  {
    if plan == PlanNormal && |unseenPool| > 0 then unseenPool else questions
  }

  /** The pick chain of one plan: the plan's own pool, then the fallback
      pool with normal weights, then the whole catalog. Only the pick that
      finds a candidate uses the draw `u`. */
  method PickForPlan(questions: seq<Question>, state: AppState, plan: DailyPlan,
                     weakPool: seq<Question>, overduePool: seq<Question>, unseenPool: seq<Question>,
                     usedIds: set<string>, pickedTagCount: map<Tag, int>, writingBoost: bool,
                     today: int, pow: (real, real) -> real, u: UnitReal)
    returns (picked: Option<Question>)
    requires forall q | q in weakPool :: q in questions
    requires forall q | q in overduePool :: q in questions
    requires forall q | q in unseenPool :: q in questions
    ensures picked.Some? ==> picked.value in questions && Available(picked.value, usedIds, pickedTagCount)
    ensures picked.None? ==> forall q | q in questions :: !Available(q, usedIds, pickedTagCount)
    ensures var primary := PrimaryBase(plan, questions, weakPool, overduePool);
      (exists q | q in primary :: Available(q, usedIds, pickedTagCount)) ==>
        && picked.Some? && picked.value in primary
        && picked == WeightedPick(FilterAvailable(primary, usedIds), state, usedIds, pickedTagCount,
                                  writingBoost, plan, today, pow, u)
    ensures var primary := PrimaryBase(plan, questions, weakPool, overduePool);
      var fallback := FallbackBase(plan, questions, unseenPool);
      (forall q | q in primary :: !Available(q, usedIds, pickedTagCount)) &&
      (exists q | q in fallback :: Available(q, usedIds, pickedTagCount)) ==>
        && picked.Some? && picked.value in fallback
        && picked == WeightedPick(FilterAvailable(fallback, usedIds), state, usedIds, pickedTagCount,
                                  writingBoost, PlanNormal, today, pow, u)
  {
    var primaryBase := PrimaryBase(plan, questions, weakPool, overduePool);
    var fallbackBase := FallbackBase(plan, questions, unseenPool);
    var primaryPool := FilterAvailable(primaryBase, usedIds);
    var fallbackPool := FilterAvailable(fallbackBase, usedIds);
    picked := PickWeightedQuestion(primaryPool, state, usedIds, pickedTagCount,
                                   writingBoost, plan, today, pow, u);
    if picked.None? {
      picked := PickWeightedQuestion(fallbackPool, state, usedIds, pickedTagCount,
                                     writingBoost, PlanNormal, today, pow, u);
    }
    if picked.None? {
      picked := PickWeightedQuestion(questions, state, usedIds, pickedTagCount,
                                     writingBoost, PlanNormal, today, pow, u);
    }
  }

  /** What the daily set's contract needs from the final shuffle of the picks. */
  lemma DailyFinish(picked: seq<Question>, usedIds: set<string>, counts: map<Tag, int>,
                    questions: seq<Question>, r: seq<Question>)
    requires DailyInv(picked, usedIds, counts, questions)
    requires multiset(r) == multiset(picked)
    requires |picked| < DailyQuestionCount ==> forall q | q in questions :: !Available(q, usedIds, counts)
    ensures UniqueIds(r)
    ensures forall q | q in r :: q in questions
    ensures forall t :: CountTag(r, t) <= MaxPerTag
    ensures |r| == |picked|
    ensures |r| < DailyQuestionCount ==>
      forall q | q in questions :: q.id in IdSet(r) || CountTag(r, q.tag) == MaxPerTag
  {
    assert |r| == |multiset(r)| == |picked|;
    UniqueIdsPermutation(picked, r);
    IdSetPermutation(picked, r);
    forall t
      ensures CountTag(r, t) == CountTag(picked, t)
    {
      CountTagPermutation(picked, r, t);
    }
    forall q | q in r
      ensures q in questions
    {
      assert q in multiset(r);
    }
  }

  /** `buildDailySet`: one weighted pick per plan, then filling up to seven
      from the catalog, then a shuffle. The plans take the first six draws
      and every successful pick one more. */
  method BuildDailySet(questions: seq<Question>, state: AppState, today: int,
                       pow: (real, real) -> real, rand: nat -> UnitReal, k: nat)
    returns (r: seq<Question>)
    ensures |r| <= DailyQuestionCount
    ensures UniqueIds(r)
    ensures forall q | q in r :: q in questions
    ensures forall t :: CountTag(r, t) <= MaxPerTag
    ensures |r| < DailyQuestionCount ==>
      forall q | q in questions :: q.id in IdSet(r) || CountTag(r, q.tag) == MaxPerTag
  {
    var picked: seq<Question> := [];
    var usedIds: set<string> := {};
    var pickedTagCount: map<Tag, int> := map[];
    var writingBoost := NeedsWritingBoost(state);
    var weakPool := WeakPool(questions, state);
    var overduePool := OverduePool(questions, state, today);
    var unseenPool := UnseenPool(questions, state);
    var plans := BuildDailyPlans(DailyQuestionCount, rand, k);
    DailyPlansLength(DailyQuestionCount, rand, k);
    var next: nat := k + DailyPlanDraws(DailyQuestionCount);
    for p := 0 to |plans|
      invariant DailyInv(picked, usedIds, pickedTagCount, questions)
      invariant |picked| <= p
    {
      var pickedOne := PickForPlan(questions, state, plans[p], weakPool, overduePool, unseenPool,
                                   usedIds, pickedTagCount, writingBoost, today, pow, rand(next));
      if pickedOne.None? {
        continue;
      }
      var q := pickedOne.value;
      DailyPush(picked, usedIds, pickedTagCount, questions, q);
      picked := picked + [q];
      usedIds := usedIds + {q.id};
      pickedTagCount := pickedTagCount[q.tag := CountOf(pickedTagCount, q.tag) + 1];
      next := next + 1;
    }
    while |picked| < DailyQuestionCount
      invariant DailyInv(picked, usedIds, pickedTagCount, questions)
      invariant |picked| <= DailyQuestionCount
      decreases DailyQuestionCount - |picked|
    {
      var pickedOne := PickWeightedQuestion(questions, state, usedIds, pickedTagCount,
                                            writingBoost, PlanNormal, today, pow, rand(next));
      if pickedOne.None? {
        break;
      }
      var q := pickedOne.value;
      DailyPush(picked, usedIds, pickedTagCount, questions, q);
      picked := picked + [q];
      usedIds := usedIds + {q.id};
      pickedTagCount := pickedTagCount[q.tag := CountOf(pickedTagCount, q.tag) + 1];
      next := next + 1;
    }
    var shuffled := ShuffleCopy(picked, rand, next);
    r := Take(shuffled, DailyQuestionCount);
    DailyFinish(picked, usedIds, pickedTagCount, questions, r);
  }

  /** The questions of `s` tagged `t`, in order: `byTag.get(t)` after grouping. */
  function OfTag(s: seq<Question>, t: Tag): (r: seq<Question>)
    ensures forall q | q in r :: q in s && q.tag == t
    ensures forall q | q in s && q.tag == t :: q in r
    ensures |r| == CountTag(s, t)
  {
    if s == [] then [] else (if s[0].tag == t then [s[0]] else []) + OfTag(s[1..], t)
  }

  lemma {:induction false} OfTagAppend(a: seq<Question>, b: seq<Question>, t: Tag)
    ensures OfTag(a + b, t) == OfTag(a, t) + OfTag(b, t)
  {
    if a == [] {
      assert a + b == b;
    } else {
      assert (a + b)[0] == a[0];
      assert (a + b)[1..] == a[1..] + b;
      OfTagAppend(a[1..], b, t);
    }
  }

  lemma UniqueIdsCons(q: Question, s: seq<Question>)
    requires UniqueIds(s) && forall x | x in s :: x.id != q.id
    ensures UniqueIds([q] + s)
  {
    forall i | 1 <= i < |[q] + s|
      ensures ([q] + s)[i].id != q.id
    {
      assert ([q] + s)[i] == s[i - 1];
      assert s[i - 1] in s;
    }
  }

  lemma {:induction false} OfTagUniqueIds(s: seq<Question>, t: Tag)
    requires UniqueIds(s)
    ensures UniqueIds(OfTag(s, t))
  {
    if s != [] {
      UniqueIdsPrefixDrop(s);
      OfTagUniqueIds(s[1..], t);
      if s[0].tag == t {
        forall x | x in OfTag(s[1..], t)
          ensures x.id != s[0].id
        {
          var j :| 0 <= j < |s[1..]| && s[1..][j] == x;
          assert s[j + 1] == x;
        }
        UniqueIdsCons(s[0], OfTag(s[1..], t));
      } else {
        assert OfTag(s, t) == OfTag(s[1..], t);
      }
    }
  }

  lemma UniqueIdsPrefixDrop(s: seq<Question>)
    requires UniqueIds(s) && s != []
    ensures UniqueIds(s[1..])
  {
    assert forall i | 0 <= i < |s| - 1 :: s[1..][i] == s[i + 1];
  }

  lemma {:induction false} FilterAvailableUniqueIds(pool: seq<Question>, usedIds: set<string>)
    requires UniqueIds(pool)
    ensures UniqueIds(FilterAvailable(pool, usedIds))
  {
    if pool != [] {
      UniqueIdsPrefixDrop(pool);
      FilterAvailableUniqueIds(pool[1..], usedIds);
      if pool[0].id !in usedIds {
        forall x | x in FilterAvailable(pool[1..], usedIds)
          ensures x.id != pool[0].id
        {
          var j :| 0 <= j < |pool[1..]| && pool[1..][j] == x;
          assert pool[j + 1] == x;
        }
        UniqueIdsCons(pool[0], FilterAvailable(pool[1..], usedIds));
      }
    }
  }

  /** Nothing is filtered out when no id of the pool is used. */
  lemma {:induction false} FilterAvailableAll(pool: seq<Question>, usedIds: set<string>)
    requires forall q | q in pool :: q.id !in usedIds
    ensures FilterAvailable(pool, usedIds) == pool
  {
    if pool != [] {
      assert pool[0] in pool;
      FilterAvailableAll(pool[1..], usedIds);
      assert [pool[0]] + pool[1..] == pool;
    }
  }

  lemma OfTagSnoc(qs: seq<Question>, i: nat, t: Tag)
    requires i < |qs|
    ensures OfTag(qs[..i + 1], t) == OfTag(qs[..i], t) + (if qs[i].tag == t then [qs[i]] else [])
  {
    assert qs[..i + 1] == qs[..i] + [qs[i]];
    OfTagAppend(qs[..i], [qs[i]], t);
    assert [qs[i]][1..] == [];
  }

  /** `byTag`, built once per exam */
  function Group(byTag: map<Tag, seq<Question>>, t: Tag): seq<Question>
  {
    if t in byTag then byTag[t] else []
  }

  /** The grouping loop of the exam builders: `byTag.get(t)` lists the
      questions tagged `t` in catalog order. */
  method GroupByTag(questions: seq<Question>) returns (byTag: map<Tag, seq<Question>>)
    ensures forall t :: Group(byTag, t) == OfTag(questions, t)
  {
    byTag := map[];
    for i := 0 to |questions|
      invariant forall t :: Group(byTag, t) == OfTag(questions[..i], t)
    {
      var q := questions[i];
      var arr := Group(byTag, q.tag);
      ghost var before := byTag;
      byTag := byTag[q.tag := arr + [q]];
      forall t
        ensures Group(byTag, t) == OfTag(questions[..i + 1], t)
      {
        OfTagSnoc(questions, i, t);
        assert Group(byTag, t) == Group(before, t) + (if q.tag == t then [q] else []);
      }
    }
    assert questions[..|questions|] == questions;
  }

  /** What one `pickFrom(pool, count)` appends: the first `count` of a
      shuffle of the unused pool questions. */
  function Taken(pool: seq<Question>, count: nat, usedIds: set<string>, rand: nat -> UnitReal, k: nat): seq<Question>
  {
    Take(Shuffled(FilterAvailable(pool, usedIds), rand, k), count)
  }

  /** `pickFrom`: `picked` and `usedIds` are its captured variables, passed
      in and returned. */
  method PickFrom(pool: seq<Question>, count: nat, picked: seq<Question>, usedIds: set<string>,
                  rand: nat -> UnitReal, k: nat)
    returns (picked': seq<Question>, usedIds': set<string>, next: nat)
    ensures picked' == picked + Taken(pool, count, usedIds, rand, k)
    ensures usedIds' == usedIds + IdSet(Taken(pool, count, usedIds, rand, k))
    ensures next == k + ShuffleDraws(|FilterAvailable(pool, usedIds)|)
  {
    var available := FilterAvailable(pool, usedIds);
    var shuffled := ShuffleCopy(available, rand, k);
    next := k + ShuffleDraws(|available|);
    picked', usedIds' := TakeInto(shuffled, count, picked, usedIds);
  }

  /** The loop of `pickFrom`: the first `count` questions of `shuffled` go
      to `picked` and their ids to `usedIds`. */
  method TakeInto(shuffled: seq<Question>, count: nat, picked: seq<Question>, usedIds: set<string>)
    returns (picked': seq<Question>, usedIds': set<string>)
    ensures picked' == picked + Take(shuffled, count)
    ensures usedIds' == usedIds + IdSet(Take(shuffled, count))
  {
    picked', usedIds' := picked, usedIds;
    var i := 0;
    while i < count && i < |shuffled|
      invariant 0 <= i <= |shuffled| && i <= count
      invariant picked' == picked + shuffled[..i]
      invariant usedIds' == usedIds + IdSet(shuffled[..i])
    {
      IdSetSnoc(shuffled, i);
      picked' := picked' + [shuffled[i]];
      usedIds' := usedIds' + {shuffled[i].id};
      i := i + 1;
    }
    assert shuffled[..i] == Take(shuffled, count);
  }

  lemma IdSetSnoc(s: seq<Question>, i: nat)
    requires i < |s|
    ensures s[..i + 1] == s[..i] + [s[i]]
    ensures IdSet(s[..i + 1]) == IdSet(s[..i]) + {s[i].id}
  {
    IdSetAppend(s[..i], [s[i]]);
    assert IdSet([s[i]]) == {s[i].id};
    assert s[..i + 1] == s[..i] + [s[i]];
  }

  /** What a `pickFrom` appends comes from the pool, has unused ids, is at
      most `count` long, and is exactly min(count, available) long; with
      distinct pool ids its ids are distinct. */
  lemma TakenFacts(pool: seq<Question>, count: nat, usedIds: set<string>, rand: nat -> UnitReal, k: nat)
    ensures var taken := Taken(pool, count, usedIds, rand, k);
      (forall q | q in taken :: q in pool && q.id !in usedIds)
      && |taken| == Min(count, |FilterAvailable(pool, usedIds)|)
      && (UniqueIds(pool) ==> UniqueIds(taken))
  {
    var available := FilterAvailable(pool, usedIds);
    var shuffled := Shuffled(available, rand, k);
    ShuffledMembers(available, rand, k);
    ShuffledPermutes(available, rand, k);
    var taken := Taken(pool, count, usedIds, rand, k);
    assert forall q | q in taken :: q in shuffled;
    if UniqueIds(pool) {
      FilterAvailableUniqueIds(pool, usedIds);
      UniqueIdsPermutation(available, shuffled);
      UniqueIdsPrefix(shuffled, |taken|);
    }
  }

  /** One row of an exam blueprint: `pickFrom(byTag.get(tag), count)`. */
  datatype Slot = Slot(tag: Tag, count: nat)

  /** The number of questions the first `n` rows of the blueprint ask of tag `t`. */
  function QuotaUpTo(bp: seq<Slot>, n: nat, t: Tag): nat
    requires n <= |bp|
  {
    if n == 0 then 0 else QuotaUpTo(bp, n - 1, t) + (if bp[n - 1].tag == t then bp[n - 1].count else 0)
  }

  /** The number of questions the first `n` rows ask in all. */
  function TotalUpTo(bp: seq<Slot>, n: nat): nat
    requires n <= |bp|
  {
    if n == 0 then 0 else TotalUpTo(bp, n - 1) + bp[n - 1].count
  }

  function Quota(bp: seq<Slot>, t: Tag): nat
  {
    QuotaUpTo(bp, |bp|, t)
  }

  function QuotaTotal(bp: seq<Slot>): nat
  {
    TotalUpTo(bp, |bp|)
  }

  predicate DistinctTags(bp: seq<Slot>)
  {
    forall i, j | 0 <= i < j < |bp| :: bp[i].tag != bp[j].tag
  }

  /** A tag that none of the first `n` rows names has quota 0 there. */
  lemma {:induction false} QuotaAbsent(bp: seq<Slot>, n: nat, t: Tag)
    requires n <= |bp|
    requires forall i | 0 <= i < n :: bp[i].tag != t
    ensures QuotaUpTo(bp, n, t) == 0
  {
    if n > 0 {
      QuotaAbsent(bp, n - 1, t);
    }
  }

  /** The state of the exam loop after the first `j` rows: picks come from
      the catalog in tags those rows named, `usedIds` are their ids, no tag
      is over its quota and the total is within the quotas' sum. */
  ghost predicate ExamBasic(questions: seq<Question>, bp: seq<Slot>, j: nat, picked: seq<Question>, usedIds: set<string>)
    requires j <= |bp|
  {
    && (forall q | q in picked :: q in questions && QuotaUpTo(bp, j, q.tag) > 0)
    && usedIds == IdSet(picked)
    && (forall t :: CountTag(picked, t) <= QuotaUpTo(bp, j, t))
    && |picked| <= TotalUpTo(bp, j)
  }

  /** With distinct catalog ids and distinct rows, the picks have distinct
      ids and every tag got min(quota, available). */
  ghost predicate ExamExact(questions: seq<Question>, bp: seq<Slot>, j: nat, picked: seq<Question>)
    requires j <= |bp|
  {
    UniqueIds(questions) && DistinctTags(bp) ==>
      UniqueIds(picked) && forall t :: CountTag(picked, t) == Min(QuotaUpTo(bp, j, t), CountTag(questions, t))
  }

  /** Counting a sequence whose questions all carry tag `t0`. */
  lemma {:induction false} CountTagAll(s: seq<Question>, t0: Tag, t: Tag)
    requires forall q | q in s :: q.tag == t0
    ensures CountTag(s, t) == if t == t0 then |s| else 0
  {
    if s != [] {
      assert s[0] in s;
      assert forall q | q in s[1..] :: q in s;
      CountTagAll(s[1..], t0, t);
    }
  }

  /** Appending the picks of one row: the counts grow only in that row's tag. */
  lemma CountAfterRow(picked: seq<Question>, taken: seq<Question>, t0: Tag, t: Tag)
    requires forall q | q in taken :: q.tag == t0
    ensures CountTag(picked + taken, t) == CountTag(picked, t) + (if t == t0 then |taken| else 0)
  {
    CountTagAppend(picked, taken, t);
    CountTagAll(taken, t0, t);
  }

  /** One row of the blueprint keeps the basic exam invariant. */
  lemma ExamStepBasic(questions: seq<Question>, bp: seq<Slot>, j: nat, picked: seq<Question>,
                      usedIds: set<string>, rand: nat -> UnitReal, k: nat)
    requires j < |bp|
    requires ExamBasic(questions, bp, j, picked, usedIds)
    ensures var taken := Taken(OfTag(questions, bp[j].tag), bp[j].count, usedIds, rand, k);
      ExamBasic(questions, bp, j + 1, picked + taken, usedIds + IdSet(taken))
  {
    var t0, c := bp[j].tag, bp[j].count;
    var pool := OfTag(questions, t0);
    var taken := Taken(pool, c, usedIds, rand, k);
    TakenFacts(pool, c, usedIds, rand, k);
    IdSetAppend(picked, taken);
    forall t
      ensures CountTag(picked + taken, t) <= QuotaUpTo(bp, j + 1, t)
    {
      CountAfterRow(picked, taken, t0, t);
    }
    forall q | q in picked + taken
      ensures q in questions && QuotaUpTo(bp, j + 1, q.tag) > 0
    {
      if q !in picked {
        assert q in taken && q.tag == t0;
      }
    }
    assert |picked + taken| <= TotalUpTo(bp, j + 1);
  }

  /** With distinct catalog ids, a row's tag has no picks yet when the row
      runs, so none of its questions is used. */
  lemma RowPoolUnused(questions: seq<Question>, bp: seq<Slot>, j: nat, picked: seq<Question>, usedIds: set<string>)
    requires j < |bp| && UniqueIds(questions) && DistinctTags(bp)
    requires ExamBasic(questions, bp, j, picked, usedIds)
    ensures QuotaUpTo(bp, j, bp[j].tag) == 0
    ensures forall q | q in OfTag(questions, bp[j].tag) :: q.id !in usedIds
  {
    var t0 := bp[j].tag;
    QuotaAbsent(bp, j, t0);
    forall q | q in OfTag(questions, t0)
      ensures q.id !in usedIds
    {
      forall p | p in picked
        ensures p.id != q.id
      {
        if p.id == q.id {
          SameIdSameQuestion(questions, p, q);
        }
      }
    }
  }

  /** The count of one tag after a row that found its tag unpicked. */
  lemma ExactCountStep(questions: seq<Question>, bp: seq<Slot>, j: nat, picked: seq<Question>,
                       taken: seq<Question>, t: Tag)
    requires j < |bp|
    requires CountTag(picked, t) == Min(QuotaUpTo(bp, j, t), CountTag(questions, t))
    requires QuotaUpTo(bp, j, bp[j].tag) == 0
    requires forall q | q in taken :: q.tag == bp[j].tag
    requires |taken| == Min(bp[j].count, CountTag(questions, bp[j].tag))
    ensures CountTag(picked + taken, t) == Min(QuotaUpTo(bp, j + 1, t), CountTag(questions, t))
  {
    CountAfterRow(picked, taken, bp[j].tag, t);
  }

  /** One row of the blueprint keeps the exact per-tag counts. */
  lemma ExamStepExact(questions: seq<Question>, bp: seq<Slot>, j: nat, picked: seq<Question>,
                      usedIds: set<string>, rand: nat -> UnitReal, k: nat)
    requires j < |bp|
    requires ExamBasic(questions, bp, j, picked, usedIds)
    requires ExamExact(questions, bp, j, picked)
    ensures ExamExact(questions, bp, j + 1, picked + Taken(OfTag(questions, bp[j].tag), bp[j].count, usedIds, rand, k))
  {
    if UniqueIds(questions) && DistinctTags(bp) {
      var t0, c := bp[j].tag, bp[j].count;
      var pool := OfTag(questions, t0);
      var taken := Taken(pool, c, usedIds, rand, k);
      RowPoolUnused(questions, bp, j, picked, usedIds);
      FilterAvailableAll(pool, usedIds);
      OfTagUniqueIds(questions, t0);
      TakenFacts(pool, c, usedIds, rand, k);
      IdSetAppend(picked, taken);
      UniqueIdsConcat(picked, taken);
      forall t
        ensures CountTag(picked + taken, t) == Min(QuotaUpTo(bp, j + 1, t), CountTag(questions, t))
      {
        ExactCountStep(questions, bp, j, picked, taken, t);
      }
    }
  }

  /** The blueprint loop: one `pickFrom` per row, in row order. */
  method RunBlueprint(questions: seq<Question>, byTag: map<Tag, seq<Question>>, bp: seq<Slot>,
                      rand: nat -> UnitReal, k: nat)
    returns (picked: seq<Question>, next: nat)
    requires forall t :: Group(byTag, t) == OfTag(questions, t)
    ensures ExamBasic(questions, bp, |bp|, picked, IdSet(picked))
    ensures ExamExact(questions, bp, |bp|, picked)
  {
    picked := [];
    var usedIds: set<string> := {};
    next := k;
    var j := 0;
    while j < |bp|
      invariant j <= |bp|
      invariant ExamBasic(questions, bp, j, picked, usedIds)
      invariant ExamExact(questions, bp, j, picked)
    {
      ghost var picked0, usedIds0, next0 := picked, usedIds, next;
      var pool := Group(byTag, bp[j].tag);
      assert pool == OfTag(questions, bp[j].tag);
      picked, usedIds, next := PickFrom(pool, bp[j].count, picked, usedIds, rand, next);
      ghost var j0 := j;
      j := j + 1;
      ExamStep(questions, bp, j0, j, picked0, usedIds0, rand, next0, picked, usedIds);
    }
  }

  /** One row of the exam loop keeps both invariants. */
  lemma ExamStep(questions: seq<Question>, bp: seq<Slot>, j: nat, j': nat, picked: seq<Question>, usedIds: set<string>,
                 rand: nat -> UnitReal, k: nat, picked': seq<Question>, usedIds': set<string>)
    requires j < |bp| && j' == j + 1
    requires ExamBasic(questions, bp, j, picked, usedIds) && ExamExact(questions, bp, j, picked)
    requires picked' == picked + Taken(OfTag(questions, bp[j].tag), bp[j].count, usedIds, rand, k)
    requires usedIds' == usedIds + IdSet(Taken(OfTag(questions, bp[j].tag), bp[j].count, usedIds, rand, k))
    ensures ExamBasic(questions, bp, j', picked', usedIds') && ExamExact(questions, bp, j', picked')
  {
    ExamStepBasic(questions, bp, j, picked, usedIds, rand, k);
    ExamStepExact(questions, bp, j, picked, usedIds, rand, k);
  }

  /** An exam: group, run the blueprint, shuffle and cut to `limit`, which
      the blueprint's total never exceeds. */
  method BuildExam(questions: seq<Question>, bp: seq<Slot>, limit: nat, rand: nat -> UnitReal, k: nat)
    returns (r: seq<Question>)
    requires QuotaTotal(bp) <= limit
    ensures |r| <= QuotaTotal(bp)
    ensures forall q | q in r :: q in questions && Quota(bp, q.tag) > 0
    ensures forall t :: CountTag(r, t) <= Quota(bp, t)
    ensures UniqueIds(questions) && DistinctTags(bp) ==>
      UniqueIds(r) && forall t :: CountTag(r, t) == Min(Quota(bp, t), CountTag(questions, t))
  {
    var byTag := GroupByTag(questions);
    var picked, next := RunBlueprint(questions, byTag, bp, rand, k);
    var shuffled := ShuffleCopy(picked, rand, next);
    r := Take(shuffled, limit);
    ExamFinish(questions, bp, picked, r);
  }

  /** The exam invariant carries over to any reordering of the picks. */
  lemma ExamFinish(questions: seq<Question>, bp: seq<Slot>, picked: seq<Question>, r: seq<Question>)
    requires ExamBasic(questions, bp, |bp|, picked, IdSet(picked))
    requires ExamExact(questions, bp, |bp|, picked)
    requires multiset(r) == multiset(picked)
    ensures ExamBasic(questions, bp, |bp|, r, IdSet(r))
    ensures ExamExact(questions, bp, |bp|, r)
  {
    assert |r| == |multiset(r)| == |picked|;
    forall q | q in r
      ensures q in picked
    {
      assert q in multiset(r);
    }
    forall t
      ensures CountTag(r, t) == CountTag(picked, t)
    {
      CountTagPermutation(picked, r, t);
    }
    if UniqueIds(picked) {
      UniqueIdsPermutation(picked, r);
    }
  }

  /** The short exam's `pickFrom` calls in order: writing 4, the five
      20-point fields 2 each, the other five tags 1 each. */
  const ShortBlueprint: seq<Slot> := [
    Slot(Writing, 4),
    Slot(Reading, 2), Slot(CompoundStructure, 2), Slot(ThreeCharCompound, 2), Slot(AntonymSynonym, 2), Slot(OnKun, 2),
    Slot(Homophone, 1), Slot(JukugoMaking, 1), Slot(Okurigana, 1), Slot(StrokeCount, 1), Slot(Radical, 1)
  ]

  /** `fullExamBlueprint` */
  const FullBlueprint: seq<Slot> := [
    Slot(Writing, 10), Slot(Reading, 10), Slot(OnKun, 5), Slot(Homophone, 5), Slot(AntonymSynonym, 5),
    Slot(CompoundStructure, 5), Slot(ThreeCharCompound, 5), Slot(JukugoMaking, 3),
    Slot(Radical, 1), Slot(StrokeCount, 1)
  ]

  /** The short exam asks 19 questions, so its `slice(0, 20)` never cuts
      and it never has 20. */
  lemma ShortBlueprintTotal()
    ensures QuotaTotal(ShortBlueprint) == 19
  {
    assert QuotaTotal(ShortBlueprint) == TotalUpTo(ShortBlueprint, 11);
  }

  /** No tag is named twice in either blueprint. */
  lemma BlueprintsDistinct()
    ensures DistinctTags(ShortBlueprint)
    ensures DistinctTags(FullBlueprint)
  {
  }

  /** With distinct tags, the quota of a row's tag is that row's count. */
  lemma {:induction false} QuotaOfRow(bp: seq<Slot>, n: nat, i: nat)
    requires DistinctTags(bp) && i < n <= |bp|
    ensures QuotaUpTo(bp, n, bp[i].tag) == bp[i].count
    decreases n
  {
    if i == n - 1 {
      QuotaAbsent(bp, n - 1, bp[i].tag);
    } else {
      QuotaOfRow(bp, n - 1, i);
    }
  }

  /** The short exam asks at least one question of every tag. */
  lemma ShortBlueprintCoversTags(t: Tag)
    ensures Quota(ShortBlueprint, t) >= 1
  {
    BlueprintsDistinct();
    var i: nat := match t
      case Writing => 0
      case Reading => 1
      case CompoundStructure => 2
      case ThreeCharCompound => 3
      case AntonymSynonym => 4
      case OnKun => 5
      case Homophone => 6
      case JukugoMaking => 7
      case Okurigana => 8
      case StrokeCount => 9
      case Radical => 10;
    assert ShortBlueprint[i].tag == t && ShortBlueprint[i].count >= 1;
    QuotaOfRow(ShortBlueprint, 11, i);
  }

  lemma ShortBlueprintQuotas()
    ensures Quota(ShortBlueprint, Writing) == 4
    ensures Quota(ShortBlueprint, Reading) == 2 && Quota(ShortBlueprint, OnKun) == 2
    ensures Quota(ShortBlueprint, Radical) == 1 && Quota(ShortBlueprint, Okurigana) == 1
  {
    BlueprintsDistinct();
    QuotaOfRow(ShortBlueprint, 11, 0);
    QuotaOfRow(ShortBlueprint, 11, 1);
    QuotaOfRow(ShortBlueprint, 11, 5);
    QuotaOfRow(ShortBlueprint, 11, 8);
    QuotaOfRow(ShortBlueprint, 11, 10);
  }

  /** The full exam asks 50 questions. */
  lemma FullBlueprintTotal()
    ensures QuotaTotal(FullBlueprint) == 50
  {
    assert QuotaTotal(FullBlueprint) == TotalUpTo(FullBlueprint, 10);
  }

  /** The full exam has no okurigana row. */
  lemma FullBlueprintQuotas()
    ensures Quota(FullBlueprint, Okurigana) == 0
    ensures Quota(FullBlueprint, Writing) == 10 && Quota(FullBlueprint, Reading) == 10
    ensures Quota(FullBlueprint, JukugoMaking) == 3 && Quota(FullBlueprint, Radical) == 1
  {
    BlueprintsDistinct();
    QuotaAbsent(FullBlueprint, 10, Okurigana);
    QuotaOfRow(FullBlueprint, 10, 0);
    QuotaOfRow(FullBlueprint, 10, 1);
    QuotaOfRow(FullBlueprint, 10, 7);
    QuotaOfRow(FullBlueprint, 10, 8);
  }

  /** `buildExamShort`: with distinct catalog ids every tag gets
      min(quota, available) distinct questions. */
  method BuildExamShort(questions: seq<Question>, rand: nat -> UnitReal, k: nat) returns (r: seq<Question>)
    ensures |r| <= 19
    ensures forall q | q in r :: q in questions
    ensures forall t :: CountTag(r, t) <= Quota(ShortBlueprint, t)
    ensures UniqueIds(questions) ==>
      UniqueIds(r) && forall t :: CountTag(r, t) == Min(Quota(ShortBlueprint, t), CountTag(questions, t))
  {
    ShortBlueprintTotal();
    BlueprintsDistinct();
    r := BuildExam(questions, ShortBlueprint, 20, rand, k);
  }

  /** `buildExamFull`: no okurigana question, and with distinct catalog ids
      every blueprint tag gets min(quota, available) distinct questions. */
  method BuildExamFull(questions: seq<Question>, rand: nat -> UnitReal, k: nat) returns (r: seq<Question>)
    ensures |r| <= 50
    ensures forall q | q in r :: q in questions && q.tag != Okurigana
    ensures forall t :: CountTag(r, t) <= Quota(FullBlueprint, t)
    ensures UniqueIds(questions) ==>
      UniqueIds(r) && forall t :: CountTag(r, t) == Min(Quota(FullBlueprint, t), CountTag(questions, t))
  {
    FullBlueprintTotal();
    FullBlueprintQuotas();
    BlueprintsDistinct();
    r := BuildExam(questions, FullBlueprint, 50, rand, k);
  }

  /** Does a question belong to one of `tags`. */
  function TagIn(tags: seq<Tag>): Question -> bool
  {
    (q: Question) => q.tag in tags
  }

  /** The grouping loop of the layer set: only the layer's tags are kept. */
  method GroupLayerTags(questions: seq<Question>, tags: seq<Tag>) returns (byTag: map<Tag, seq<Question>>)
    ensures LayerGrouped(byTag, questions, tags)
  {
    byTag := map[];
    var i := 0;
    ghost var seen: seq<Question> := [];
    while i < |questions|
      invariant i <= |questions| && seen == questions[..i]
      invariant LayerGrouped(byTag, seen, tags)
    {
      var q := questions[i];
      ghost var before := byTag;
      if q.tag in tags {
        var arr := Group(byTag, q.tag);
        byTag := byTag[q.tag := arr + [q]];
      }
      LayerGroupStep(before, seen, tags, q, byTag);
      TakeSnoc(questions, i);
      seen := seen + [q];
      i := i + 1;
    }
    TakeAll(questions);
  }

  /** `byTag.get(t)` lists the questions tagged `t` in catalog order for
      the layer's tags and nothing for the others. */
  ghost predicate LayerGrouped(byTag: map<Tag, seq<Question>>, qs: seq<Question>, tags: seq<Tag>)
  {
    forall t :: Group(byTag, t) == if t in tags then OfTag(qs, t) else []
  }

  lemma LayerGroupStep(byTag: map<Tag, seq<Question>>, qs: seq<Question>, tags: seq<Tag>, q: Question,
                       byTag': map<Tag, seq<Question>>)
    requires LayerGrouped(byTag, qs, tags)
    requires byTag' == if q.tag in tags then byTag[q.tag := Group(byTag, q.tag) + [q]] else byTag
    ensures LayerGrouped(byTag', qs + [q], tags)
  {
    forall t
      ensures Group(byTag', t) == if t in tags then OfTag(qs + [q], t) else []
    {
      OfTagAppend(qs, [q], t);
      assert [q][1..] == [];
    }
  }

  /** The first `j` tag loops of the layer set: every pick is a catalog
      question of one of those tags, and every one of those tags that has
      questions has a pick. */
  ghost predicate LayerInv(questions: seq<Question>, tags: seq<Tag>, j: nat, picked: seq<Question>, usedIds: set<string>)
    requires j <= |tags|
  {
    && (forall q | q in picked :: q in questions && q.tag in tags[..j])
    && usedIds == IdSet(picked)
    && |picked| <= j
    && (forall t | t in tags[..j] && CountTag(questions, t) > 0 :: CountTag(picked, t) >= 1)
    && (UniqueIds(questions) ==> UniqueIds(picked))
  }

  /** A tag loop that found no question: its tag has none. */
  lemma LayerSkip(questions: seq<Question>, tags: seq<Tag>, j: nat, picked: seq<Question>, usedIds: set<string>)
    requires j < |tags|
    requires LayerInv(questions, tags, j, picked, usedIds)
    requires CountTag(questions, tags[j]) == 0
    ensures LayerInv(questions, tags, j + 1, picked, usedIds)
  {
    assert tags[..j + 1] == tags[..j] + [tags[j]];
  }

  /** A tag loop that picked `one` of its tag. */
  lemma LayerPush(questions: seq<Question>, tags: seq<Tag>, j: nat, picked: seq<Question>,
                  usedIds: set<string>, one: Question)
    requires j < |tags|
    requires forall a, b | 0 <= a < b < |tags| :: tags[a] != tags[b]
    requires LayerInv(questions, tags, j, picked, usedIds)
    requires one in questions && one.tag == tags[j]
    ensures LayerInv(questions, tags, j + 1, picked + [one], usedIds + {one.id})
  {
    assert tags[..j + 1] == tags[..j] + [tags[j]];
    IdSetAppend(picked, [one]);
    assert IdSet([one]) == {one.id};
    forall t
      ensures CountTag(picked + [one], t) == CountTag(picked, t) + (if one.tag == t then 1 else 0)
    {
      CountTagAppend(picked, [one], t);
    }
    if UniqueIds(questions) {
      forall p | p in picked
        ensures p.id != one.id
      {
        if p.id == one.id {
          SameIdSameQuestion(questions, p, one);
        }
      }
      UniqueIdsSnoc(picked, one);
    }
  }

  /** What the final shuffle of the layer set keeps. */
  lemma LayerFinish(questions: seq<Question>, tags: seq<Tag>, picked: seq<Question>, usedIds: set<string>,
                    rest: seq<Question>, r: seq<Question>)
    requires LayerInv(questions, tags, |tags|, picked, usedIds)
    requires forall q | q in rest :: q in questions && q.tag in tags && q.id !in usedIds
    requires UniqueIds(questions) ==> UniqueIds(rest)
    requires multiset(r) == multiset(picked + rest)
    ensures forall q | q in r :: q in questions && q.tag in tags
    ensures forall t | t in tags && CountTag(questions, t) > 0 :: CountTag(r, t) >= 1
    ensures UniqueIds(questions) ==> UniqueIds(r)
  {
    assert tags[..|tags|] == tags;
    forall q | q in r
      ensures q in picked + rest
    {
      assert q in multiset(r);
    }
    forall t
      ensures CountTag(r, t) == CountTag(picked, t) + CountTag(rest, t)
    {
      CountTagPermutation(picked + rest, r, t);
      CountTagAppend(picked, rest, t);
    }
    if UniqueIds(questions) {
      IdSetDisjoint(picked, rest, usedIds);
      UniqueIdsConcat(picked, rest);
      UniqueIdsPermutation(picked + rest, r);
    }
  }

  lemma IdSetDisjoint(picked: seq<Question>, rest: seq<Question>, usedIds: set<string>)
    requires usedIds == IdSet(picked)
    requires forall q | q in rest :: q.id !in usedIds
    ensures IdSet(picked) !! IdSet(rest)
  {
  }

  /** `buildLayerSet(questions, depth)`: without a layer, ten shuffled
      catalog questions; with one, a question of each of the layer's tags,
      filled up from the layer's other questions, shuffled, at most ten. */
  method BuildLayerSet(questions: seq<Question>, depth: int, rand: nat -> UnitReal, k: nat)
    returns (r: seq<Question>)
    ensures LayerByDepth(depth).None? ==> r == Take(Shuffled(questions, rand, k), 10)
    ensures |r| <= 10
    ensures forall q | q in r :: q in questions
    ensures UniqueIds(questions) ==> UniqueIds(r)
    ensures LayerByDepth(depth).Some? ==>
      && (forall q | q in r :: q.tag in LayerByDepth(depth).value.tags)
      && (forall t | t in LayerByDepth(depth).value.tags && CountTag(questions, t) > 0 :: CountTag(r, t) >= 1)
  {
    var layer := LayerByDepth(depth);
    if layer.None? {
      var shuffled := ShuffleCopy(questions, rand, k);
      r := Take(shuffled, 10);
      ShuffledMembers(questions, rand, k);
      if UniqueIds(questions) {
        UniqueIdsPermutation(questions, shuffled);
        UniqueIdsPrefix(shuffled, |r|);
      }
      return;
    }
    LayerByDepthInCatalog(depth);
    LayerTagsShort(layer.value);
    r := BuildLayerSetOf(questions, layer.value.tags, rand, k);
  }

  /** The layer branch of `buildLayerSet`, for the layer's tags. */
  method BuildLayerSetOf(questions: seq<Question>, tags: seq<Tag>, rand: nat -> UnitReal, k: nat)
    returns (r: seq<Question>)
    requires |tags| <= 10
    requires forall a, b | 0 <= a < b < |tags| :: tags[a] != tags[b]
    ensures |r| <= 10
    ensures forall q | q in r :: q in questions && q.tag in tags
    ensures forall t | t in tags && CountTag(questions, t) > 0 :: CountTag(r, t) >= 1
    ensures UniqueIds(questions) ==> UniqueIds(r)
  {
    var picked, usedIds, next := PickOnePerTag(questions, tags, rand, k);
    var pool := FilterAvailable(Filter(questions, TagIn(tags)), usedIds);
    var shuffledPool := ShuffleCopy(pool, rand, next);
    next := next + ShuffleDraws(|pool|);
    var rest := Take(shuffledPool, if 10 - |picked| > 0 then 10 - |picked| else 0);
    RestFacts(questions, tags, usedIds, pool, shuffledPool, rest);
    var shuffledAll := ShuffleCopy(picked + rest, rand, next);
    r := Take(shuffledAll, 10);
    assert r == shuffledAll;
    LayerFinish(questions, tags, picked, usedIds, rest, r);
  }

  /** The first loop of the layer branch: one question from a shuffle of
      each tag's group, skipping tags without questions. */
  method PickOnePerTag(questions: seq<Question>, tags: seq<Tag>, rand: nat -> UnitReal, k: nat)
    returns (picked: seq<Question>, usedIds: set<string>, next: nat)
    requires forall a, b | 0 <= a < b < |tags| :: tags[a] != tags[b]
    ensures LayerInv(questions, tags, |tags|, picked, usedIds)
  {
    var byTag := GroupLayerTags(questions, tags);
    picked, usedIds, next := [], {}, k;
    for j := 0 to |tags|
      invariant LayerInv(questions, tags, j, picked, usedIds)
    {
      var group := Group(byTag, tags[j]);
      var shuffledTag := ShuffleCopy(group, rand, next);
      next := next + ShuffleDraws(|group|);
      if |shuffledTag| == 0 {
        LayerSkip(questions, tags, j, picked, usedIds);
        continue;
      }
      var one := shuffledTag[0];
      assert one in multiset(group);
      LayerPush(questions, tags, j, picked, usedIds, one);
      picked := picked + [one];
      usedIds := usedIds + {one.id};
    }
  }

  /** The fill-up questions come from the layer, have unused ids, and have
      distinct ids when the catalog does. */
  lemma RestFacts(questions: seq<Question>, tags: seq<Tag>, usedIds: set<string>,
                  pool: seq<Question>, shuffledPool: seq<Question>, rest: seq<Question>)
    requires pool == FilterAvailable(Filter(questions, TagIn(tags)), usedIds)
    requires multiset(shuffledPool) == multiset(pool)
    requires |rest| <= |shuffledPool| && rest == shuffledPool[..|rest|]
    ensures forall q | q in rest :: q in questions && q.tag in tags && q.id !in usedIds
    ensures UniqueIds(questions) ==> UniqueIds(rest)
  {
    forall q | q in rest
      ensures q in pool
    {
      assert q in shuffledPool;
      assert q in multiset(shuffledPool);
    }
    if UniqueIds(questions) {
      FilterUniqueIds(questions, TagIn(tags));
      FilterAvailableUniqueIds(Filter(questions, TagIn(tags)), usedIds);
      UniqueIdsPermutation(pool, shuffledPool);
      UniqueIdsPrefix(shuffledPool, |rest|);
    }
  }
}
