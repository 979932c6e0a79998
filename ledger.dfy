/** The mastery ledger of `useHistory`: the persisted state, what one answer
    does to it (question history, tag statistics, mineral counters, badges,
    day streak and title), bookmarks, the tag rate, the title ladder and the
    normalisation of a stored state. Each updater of the hook is an operation
    from the previous state to the next; `localStorage`, the React state and
    the clock are not part of the model, so "today" and "yesterday" are day
    numbers passed in. */
module Ledger {
  import opened Types

  const CurrentVersion: int := 3

  /** One entry of the mineral catalog, as far as the milestone rewards read
      it: `rewardEvery == 0` stands for a missing (or zero, hence falsy) value. */
  datatype MineralRule = MineralRule(mineral: string, rewardTag: Option<Tag>, rewardEvery: nat, requirePerfectWriting: bool)

  const Quartz: string := "quartz"
  const Pyrite: string := "pyrite"
  const Fossil: string := "fossil"

  /** The counter of `m`, 0 when the state has none. */
  function MineralOf(minerals: map<string, int>, m: string): int
  {
    if m in minerals then minerals[m] else 0
  }

  function Bump(minerals: map<string, int>, m: string): map<string, int>
  {
    minerals[m := MineralOf(minerals, m) + 1]
  }

  /** The record a question gets on its first answer. */
  const NewHistory: QuestionHistory := QuestionHistory(0, 0, None, Miss, 0, None, false)

  function HistoryOrNew(history: map<string, QuestionHistory>, id: string): QuestionHistory
  {
    if id in history then history[id] else NewHistory
  }

  predicate NoDup<T(==)>(s: seq<T>)
  {
    forall i, j | 0 <= i < j < |s| :: s[i] != s[j]
  }

  // ---------------------------------------------------------------------------
  // Milestone minerals

  /** Whether `rule` pays out for `record` when the rule's tag now has
      `correct` correct answers. */
  predicate Fires(rule: MineralRule, record: AnswerRecord, correct: nat)
  {
    && record.correct
    && rule.rewardTag == Some(record.tag)
    && rule.rewardEvery > 0
    && (rule.requirePerfectWriting ==> record.selfScore == Some(Perfect))
    && correct > 0
    && correct % rule.rewardEvery == 0
  }

  /** How many rules of `rules` for mineral `m` pay out. */
  function MilestoneGain(rules: seq<MineralRule>, m: string, record: AnswerRecord, correct: nat): nat
  {
    if rules == [] then 0
    else
      var last := rules[|rules| - 1];
      MilestoneGain(rules[..|rules| - 1], m, record, correct)
        + (if last.mineral == m && Fires(last, record, correct) then 1 else 0)
  }

  /** `applyMilestoneMineralRewards(state, record)`: every catalog rule whose
      tag is the answer's tag, and whose count of correct answers for that tag
      is a positive multiple of its period, adds one to its mineral; nothing
      happens on a miss. */
  method ApplyMilestoneMineralRewards(minerals: map<string, int>, tagStats: map<Tag, TagStats>,
                                      record: AnswerRecord, rules: seq<MineralRule>)
    returns (r: map<string, int>)
    ensures !record.correct ==> r == minerals
    ensures forall m :: MineralOf(r, m) == MineralOf(minerals, m) + MilestoneGain(rules, m, record, StatsOf(tagStats, record.tag).correct)
    ensures forall m :: m in r <==> m in minerals || MilestoneGain(rules, m, record, StatsOf(tagStats, record.tag).correct) > 0
  {
    if !record.correct {
      NoGainOnMiss(rules, record, StatsOf(tagStats, record.tag).correct);
      return minerals;
    }
    r := minerals;
    ghost var c := StatsOf(tagStats, record.tag).correct;
    var i := 0;
    assert rules[..0] == [];
    while i < |rules|
      invariant 0 <= i <= |rules|
      invariant GainSoFar(r, minerals, rules[..i], record, c)
    {
      var rule := rules[i];
      ghost var r0 := r;
      if rule.rewardTag.Some? && rule.rewardEvery > 0 && rule.rewardTag.value == record.tag
         && !(rule.requirePerfectWriting && record.selfScore != Some(Perfect))
      {
        var correct := StatsOf(tagStats, rule.rewardTag.value).correct;
        if correct > 0 && correct % rule.rewardEvery == 0 {
          r := Bump(r, rule.mineral);
        }
      }
      ghost var i0 := i;
      i := i + 1;
      GainStep(r0, r, minerals, rules, i0, i, record, c);
    }
    assert rules[..i] == rules;
  }

  /** `r` holds the counters of `minerals` plus what `rules` pay out. */
  ghost predicate GainSoFar(r: map<string, int>, minerals: map<string, int>, rules: seq<MineralRule>, record: AnswerRecord,
                      correct: nat)
  {
    && (forall m :: MineralOf(r, m) == MineralOf(minerals, m) + MilestoneGain(rules, m, record, correct))
    && (forall m :: m in r <==> m in minerals || MilestoneGain(rules, m, record, correct) > 0)
  }

  /** One more rule: its mineral goes up by one exactly when it fires. */
  lemma GainStep(r: map<string, int>, r': map<string, int>, minerals: map<string, int>, rules: seq<MineralRule>,
                 i: nat, i': nat, record: AnswerRecord, correct: nat)
    requires i < |rules| && i' == i + 1 && GainSoFar(r, minerals, rules[..i], record, correct)
    requires r' == if Fires(rules[i], record, correct) then Bump(r, rules[i].mineral) else r
    ensures GainSoFar(r', minerals, rules[..i'], record, correct)
  {
    assert rules[..i + 1][..i] == rules[..i];
  }

  lemma {:induction false} NoGainOnMiss(rules: seq<MineralRule>, record: AnswerRecord, correct: nat)
    requires !record.correct
    ensures forall m :: MilestoneGain(rules, m, record, correct) == 0
  {
    if rules != [] {
      NoGainOnMiss(rules[..|rules| - 1], record, correct);
    }
  }

  // ---------------------------------------------------------------------------
  // Badges

  /** The badges the ledger awards, in the order they are checked. */
  datatype Badge = FirstCorrect | Streak3 | Streak10 | WritingMaster | AllTagsCleared | ExamPass | Daily7

  const AllBadges: seq<Badge> := [FirstCorrect, Streak3, Streak10, WritingMaster, AllTagsCleared, ExamPass, Daily7]

  /** The id the badge list stores. */
  function BadgeId(b: Badge): string
  {
    match b
    case FirstCorrect => "first_correct"
    case Streak3 => "streak_3"
    case Streak10 => "streak_10"
    case WritingMaster => "writing_master"
    case AllTagsCleared => "all_tags"
    case ExamPass => "exam_pass"
    case Daily7 => "daily_7"
  }

  /** An exam passes at 70%: of its `total` when the result carries a positive
      one, of 100 points otherwise. */
  predicate ExamPassed(e: ExamResult)
  {
    if e.total.Some? && e.total.value > 0 then (e.score as real) / (e.total.value as real) >= 0.7
    else e.score >= 70
  }

  predicate AnyExamPassed(exams: seq<ExamResult>)
  {
    exists e | e in exams :: ExamPassed(e)
  }

  predicate EveryTagCorrect(tagStats: map<Tag, TagStats>)
  {
    forall t | t in AllTags :: StatsOf(tagStats, t).correct > 0
  }

  /** The condition of each badge, over the state it is checked on. */
  predicate Earned(b: Badge, history: map<string, QuestionHistory>, tagStats: map<Tag, TagStats>,
                   exams: seq<ExamResult>, streak: int)
  {
    match b
    case FirstCorrect => exists k | k in history :: history[k].correct >= 1
    case Streak3 => exists k | k in history :: history[k].consecutiveCorrect >= 3
    case Streak10 => exists k | k in history :: history[k].consecutiveCorrect >= 10
    case WritingMaster => StatsOf(tagStats, Writing).correct >= 30
    case AllTagsCleared => EveryTagCorrect(tagStats)
    case ExamPass => AnyExamPassed(exams)
    case Daily7 => streak >= 7
  }

  /** `addIfNew(id)` */
  function AddIfNew(badges: seq<string>, id: string): seq<string>
  {
    if id in badges then badges else badges + [id]
  }

  /** `addIfNew` keeps the list as a prefix, makes `id` a member, adds nothing
      else and never creates a duplicate. */
  lemma AddIfNewFacts(badges: seq<string>, id: string)
    ensures var r := AddIfNew(badges, id);
      && |badges| <= |r| <= |badges| + 1 && r[..|badges|] == badges
      && (forall b :: b in r <==> b in badges || b == id)
      && (NoDup(badges) ==> NoDup(r))
  {
  }

  /** The sum of the `correct` counters of all question records, as far as
      the badge check reads it: at least 1 exactly when some record has one. */
  method TotalHistoryCorrect(history: map<string, QuestionHistory>) returns (total: nat)
    ensures total >= 1 <==> exists k | k in history :: history[k].correct >= 1
  {
    total := 0;
    var rest := history.Keys;
    while rest != {}
      invariant rest <= history.Keys
      invariant total >= 1 <==> exists k | k in history.Keys - rest :: history[k].correct >= 1
      decreases |rest|
    {
      var k :| k in rest;
      total := total + history[k].correct;
      rest := rest - {k};
    }
  }

  /** `Math.max(0, ...consecutiveCorrect)` over all question records. */
  method MaxConsecutiveCorrect(history: map<string, QuestionHistory>) returns (best: nat)
    ensures forall k | k in history :: history[k].consecutiveCorrect <= best
    ensures best == 0 || exists k | k in history :: history[k].consecutiveCorrect == best
  {
    best := 0;
    var rest := history.Keys;
    while rest != {}
      invariant rest <= history.Keys
      invariant forall k | k in history.Keys - rest :: history[k].consecutiveCorrect <= best
      invariant best == 0 || exists k | k in history.Keys - rest :: history[k].consecutiveCorrect == best
      decreases |rest|
    {
      var k :| k in rest;
      if history[k].consecutiveCorrect > best {
        best := history[k].consecutiveCorrect;
      }
      rest := rest - {k};
    }
  }

  /** The list after the first `n` checks, each adding its badge when earned. */
  function Awarded(badges: seq<string>, n: nat, h: map<string, QuestionHistory>, ts: map<Tag, TagStats>,
                   ex: seq<ExamResult>, st: int): seq<string>
    requires n <= |AllBadges|
  {
    if n == 0 then badges
    else
      var p := Awarded(badges, n - 1, h, ts, ex, st);
      if Earned(AllBadges[n - 1], h, ts, ex, st) then AddIfNew(p, BadgeId(AllBadges[n - 1])) else p
  }

  /** The checks keep the old list as a prefix, add exactly the earned badges
      not yet held, and never add one twice. */
  lemma {:induction false} AwardedFacts(badges: seq<string>, n: nat, h: map<string, QuestionHistory>,
                                        ts: map<Tag, TagStats>, ex: seq<ExamResult>, st: int)
    requires n <= |AllBadges|
    ensures var r := Awarded(badges, n, h, ts, ex, st);
      && |badges| <= |r| && r[..|badges|] == badges
      && (forall x :: x in r <==> x in badges || exists b | b in AllBadges[..n] :: x == BadgeId(b) && Earned(b, h, ts, ex, st))
      && (forall i | |badges| <= i < |r| :: r[i] !in badges)
      && NoDup(r[|badges|..])
      && (NoDup(badges) ==> NoDup(r))
  {
    if n > 0 {
      AwardedFacts(badges, n - 1, h, ts, ex, st);
      var p := Awarded(badges, n - 1, h, ts, ex, st);
      AddIfNewFacts(p, BadgeId(AllBadges[n - 1]));
      var b := AllBadges[n - 1];
      var id := BadgeId(b);
      assert AllBadges[..n] == AllBadges[..n - 1] + [b];
      if Earned(b, h, ts, ex, st) && id !in p {
        var r := p + [id];
        assert r[..|badges|] == badges;
        assert r[|badges|..] == p[|badges|..] + [id];
      }
    }
  }

  /** `checkAndAwardBadges(state)`: the old list followed by each earned badge
      it did not hold yet, in the order of the checks. */
  method CheckAndAwardBadges(s: AppState) returns (badges: seq<string>)
    ensures badges == Awarded(s.badges, |AllBadges|, s.history, s.tagStats, s.examResults, s.profile.streak)
    ensures |s.badges| <= |badges| && badges[..|s.badges|] == s.badges
    ensures forall x :: x in badges <==>
      x in s.badges || exists b :: x == BadgeId(b) && Earned(b, s.history, s.tagStats, s.examResults, s.profile.streak)
    ensures forall i | |s.badges| <= i < |badges| :: badges[i] !in s.badges
    ensures NoDup(badges[|s.badges|..])
    ensures NoDup(s.badges) ==> NoDup(badges)
  {
    badges := RunBadgeChecks(s.badges, s.history, s.tagStats, s.examResults, s.profile.streak);
    AwardedAll(s.badges, s.history, s.tagStats, s.examResults, s.profile.streak);
  }

  /** The seven checks of `checkAndAwardBadges` in order, each adding its
      badge when its condition holds. */
  method RunBadgeChecks(held: seq<string>, h: map<string, QuestionHistory>, ts: map<Tag, TagStats>,
                        ex: seq<ExamResult>, st: int) returns (badges: seq<string>)
    ensures badges == Awarded(held, |AllBadges|, h, ts, ex, st)
  {
    badges := HistoryBadgeChecks(held, h, ts, ex, st);
    badges := OtherBadgeChecks(held, badges, h, ts, ex, st);
  }

  /** The first three checks, over the per-question history. */
  method HistoryBadgeChecks(held: seq<string>, h: map<string, QuestionHistory>, ts: map<Tag, TagStats>,
                            ex: seq<ExamResult>, st: int) returns (badges: seq<string>)
    ensures badges == Awarded(held, 3, h, ts, ex, st)
  {
    ghost var m := 0;
    var total := TotalHistoryCorrect(h);
    badges := CheckBadge(held, m, h, ts, ex, st, held, total >= 1, FirstCorrect);
    m := m + 1;
    var maxStreak := MaxConsecutiveCorrect(h);
    badges := CheckBadge(held, m, h, ts, ex, st, badges, maxStreak >= 3, Streak3);
    m := m + 1;
    badges := CheckBadge(held, m, h, ts, ex, st, badges, maxStreak >= 10, Streak10);
  }

  /** The last four checks, over tag stats, exam results and the login streak. */
  method OtherBadgeChecks(held: seq<string>, prev: seq<string>, h: map<string, QuestionHistory>,
                          ts: map<Tag, TagStats>, ex: seq<ExamResult>, st: int) returns (badges: seq<string>)
    requires prev == Awarded(held, 3, h, ts, ex, st)
    ensures badges == Awarded(held, |AllBadges|, h, ts, ex, st)
  {
    ghost var m := 3;
    badges := CheckBadge(held, m, h, ts, ex, st, prev, StatsOf(ts, Writing).correct >= 30, WritingMaster);
    m := m + 1;
    badges := CheckBadge(held, m, h, ts, ex, st, badges, EveryTagCorrect(ts), AllTagsCleared);
    m := m + 1;
    badges := CheckBadge(held, m, h, ts, ex, st, badges, AnyExamPassed(ex), ExamPass);
    m := m + 1;
    badges := CheckBadge(held, m, h, ts, ex, st, badges, st >= 7, Daily7);
  }

  /** One check of the sequence: badge `m` of the list is added when its
      condition, evaluated by the caller, holds. */
  method CheckBadge(ghost base: seq<string>, ghost m: nat, h: map<string, QuestionHistory>,
                    ts: map<Tag, TagStats>, ex: seq<ExamResult>, st: int,
                    prev: seq<string>, earned: bool, b: Badge) returns (next: seq<string>)
    requires m < |AllBadges| && prev == Awarded(base, m, h, ts, ex, st)
    requires b == AllBadges[m] && earned == Earned(b, h, ts, ex, st)
    ensures next == Awarded(base, m + 1, h, ts, ex, st)
  {
    next := prev;
    if earned {
      next := AddIfNew(prev, BadgeId(b));
    }
  }

  /** All seven checks: the facts of `AwardedFacts` over every badge. */
  lemma AwardedAll(badges: seq<string>, h: map<string, QuestionHistory>, ts: map<Tag, TagStats>,
                   ex: seq<ExamResult>, st: int)
    ensures var r := Awarded(badges, |AllBadges|, h, ts, ex, st);
      && |badges| <= |r| && r[..|badges|] == badges
      && (forall x :: x in r <==> x in badges || exists b :: x == BadgeId(b) && Earned(b, h, ts, ex, st))
      && (forall i | |badges| <= i < |r| :: r[i] !in badges)
      && NoDup(r[|badges|..])
      && (NoDup(badges) ==> NoDup(r))
  {
    AwardedFacts(badges, |AllBadges|, h, ts, ex, st);
    assert AllBadges[..|AllBadges|] == AllBadges;
    forall b: Badge
      ensures b in AllBadges
    {
      AllBadgesComplete(b);
    }
  }

  lemma AllBadgesComplete(b: Badge)
    ensures b in AllBadges
  {
  }

  // ---------------------------------------------------------------------------
  // Title

  /** `examResults.reduce((max, e) => Math.max(max, e.score), 0)`: the best
      score, 0 when there is none or every score is below 0. */
  function BestExam(exams: seq<ExamResult>): (best: int)
    ensures best >= 0
    ensures forall e | e in exams :: e.score <= best
    ensures best == 0 || exists e | e in exams :: e.score == best
  {
    if exams == [] then 0
    else
      var b := BestExam(exams[..|exams| - 1]);
      var last := exams[|exams| - 1];
      assert forall e | e in exams :: e in exams[..|exams| - 1] || e == last;
      if last.score > b then last.score else b
  }

  /** `c / (c + m) >= 0.5` with exact arithmetic: 0.5 is a binary fraction,
      so the floating-point comparison agrees with this one. */
  predicate AtLeastHalf(st: TagStats)
  {
    st.correct + st.miss == 0 || 2 * st.correct >= st.correct + st.miss
  }

  predicate AllAbove50(tagStats: map<Tag, TagStats>)
  {
    forall t | t in tagStats :: AtLeastHalf(tagStats[t])
  }

  predicate SomeAttempted(tagStats: map<Tag, TagStats>)
  {
    exists t | t in tagStats :: tagStats[t].correct + tagStats[t].miss > 0
  }

  /** The sum of the `correct` counters of the tags in `tags`. */
  function SumCorrect(tags: seq<Tag>, tagStats: map<Tag, TagStats>): nat
  {
    if tags == [] then 0 else StatsOf(tagStats, tags[0]).correct + SumCorrect(tags[1..], tagStats)
  }

  function TotalTagCorrect(tagStats: map<Tag, TagStats>): nat
  {
    SumCorrect(AllTags, tagStats)
  }

  /** `computeTitle(state)` */
  function ComputeTitle(s: AppState): Title
  {
    TitleFor(BestExam(s.examResults), s.tagStats)
  }

  /** The title for a best exam score and the tag statistics. */
  function TitleFor(best: int, tagStats: map<Tag, TagStats>): Title
  {
    if best >= 170 then Professor
    else if best >= 140 then Doctor
    else if best >= 120 then Researcher
    else if AllAbove50(tagStats) && SomeAttempted(tagStats) then Assistant
    else if TotalTagCorrect(tagStats) >= 100 then Surveyor
    else Trainee
  }

  /** The order of the titles, trainee lowest. */
  function Rank(t: Title): nat
  {
    match t
    case Trainee => 0
    case Surveyor => 1
    case Assistant => 2
    case Researcher => 3
    case Doctor => 4
    case Professor => 5
  }

  /** The title ladder over the exam results themselves: professor when some
      exam scored 170 or more, doctor for 140, researcher for 120; below
      that assistant when every attempted tag is at half or better and some
      tag was attempted, surveyor for 100 correct answers over the tags,
      trainee otherwise. */
  lemma TitleLadder(s: AppState)
    ensures ComputeTitle(s) == Professor <==> exists e | e in s.examResults :: e.score >= 170
    ensures ComputeTitle(s) == Doctor <==>
      (exists e | e in s.examResults :: e.score >= 140) && forall e | e in s.examResults :: e.score < 170
    ensures ComputeTitle(s) == Researcher <==>
      (exists e | e in s.examResults :: e.score >= 120) && forall e | e in s.examResults :: e.score < 140
    ensures ComputeTitle(s) == Assistant <==>
      (forall e | e in s.examResults :: e.score < 120) && AllAbove50(s.tagStats) && SomeAttempted(s.tagStats)
    ensures ComputeTitle(s) == Surveyor <==>
      (forall e | e in s.examResults :: e.score < 120) && !(AllAbove50(s.tagStats) && SomeAttempted(s.tagStats))
      && TotalTagCorrect(s.tagStats) >= 100
    ensures ComputeTitle(s) == Trainee <==>
      (forall e | e in s.examResults :: e.score < 120) && !(AllAbove50(s.tagStats) && SomeAttempted(s.tagStats))
      && TotalTagCorrect(s.tagStats) < 100
  {
  }

  lemma {:induction false} BestExamAppend(exams: seq<ExamResult>, e: ExamResult)
    ensures BestExam(exams + [e]) >= BestExam(exams)
    ensures BestExam(exams + [e]) >= e.score
  {
    assert (exams + [e])[..|exams + [e]| - 1] == exams;
  }

  /** Recording an exam result never lowers the title. */
  lemma TitleMonotoneInExams(s: AppState, e: ExamResult)
    ensures Rank(ComputeTitle(s.(examResults := s.examResults + [e]))) >= Rank(ComputeTitle(s))
  {
    var s' := s.(examResults := s.examResults + [e]);
    assert s'.tagStats == s.tagStats;
    BestExamAppend(s.examResults, e);
    TitleMonotoneInBest(BestExam(s.examResults), BestExam(s'.examResults), s.tagStats);
  }

  /** A better best exam never lowers the title. */
  lemma TitleMonotoneInBest(best: int, best': int, tagStats: map<Tag, TagStats>)
    requires best <= best'
    ensures Rank(TitleFor(best', tagStats)) >= Rank(TitleFor(best, tagStats))
  {
  }

  /** The tag statistics after one more correct answer for `tag`. */
  function WithCorrect(tagStats: map<Tag, TagStats>, tag: Tag): map<Tag, TagStats>
  {
    var st := StatsOf(tagStats, tag);
    tagStats[tag := st.(correct := st.correct + 1)]
  }

  lemma {:induction false} SumCorrectGrows(tags: seq<Tag>, tagStats: map<Tag, TagStats>, tag: Tag)
    ensures SumCorrect(tags, WithCorrect(tagStats, tag)) >= SumCorrect(tags, tagStats)
  {
    if tags != [] {
      SumCorrectGrows(tags[1..], tagStats, tag);
    }
  }

  /** A correct answer never lowers the title: it keeps every attempted tag
      at or above half, makes some tag attempted and adds to the total. */
  lemma CorrectAnswerNeverLowersTitle(s: AppState, tag: Tag)
    ensures Rank(ComputeTitle(s.(tagStats := WithCorrect(s.tagStats, tag)))) >= Rank(ComputeTitle(s))
  {
    var ts := WithCorrect(s.tagStats, tag);
    var s' := s.(tagStats := ts);
    assert s'.examResults == s.examResults;
    WithCorrectFacts(s.tagStats, tag);
    TitleMonotoneInStats(BestExam(s.examResults), s.tagStats, ts);
  }

  /** One more correct answer adds to the total, makes a tag attempted and
      keeps every tag at or above half that was. */
  lemma WithCorrectFacts(tagStats: map<Tag, TagStats>, tag: Tag)
    ensures var ts := WithCorrect(tagStats, tag);
      && TotalTagCorrect(ts) >= TotalTagCorrect(tagStats) && SomeAttempted(ts)
      && (AllAbove50(tagStats) ==> AllAbove50(ts))
  {
    var ts := WithCorrect(tagStats, tag);
    SumCorrectGrows(AllTags, tagStats, tag);
    assert ts[tag].correct + ts[tag].miss > 0;
    if AllAbove50(tagStats) {
      forall t | t in ts
        ensures AtLeastHalf(ts[t])
      {
        if t != tag {
          assert t in tagStats;
        }
      }
    }
  }

  /** Statistics that keep every title condition the old ones met never
      lower the title. */
  lemma TitleMonotoneInStats(best: int, tagStats: map<Tag, TagStats>, ts: map<Tag, TagStats>)
    requires TotalTagCorrect(ts) >= TotalTagCorrect(tagStats) && SomeAttempted(ts)
    requires AllAbove50(tagStats) ==> AllAbove50(ts)
    ensures Rank(TitleFor(best, ts)) >= Rank(TitleFor(best, tagStats))
  {
  }

  // ---------------------------------------------------------------------------
  // Tag rate and bookmarks

  /** `getTagRate(tag)`: the share of correct answers of the tag, 0 without
      statistics or attempts. */
  function GetTagRate(tagStats: map<Tag, TagStats>, tag: Tag): (r: real)
    ensures 0.0 <= r <= 1.0
    ensures tag !in tagStats || tagStats[tag].correct + tagStats[tag].miss == 0 ==> r == 0.0
    ensures tag in tagStats && tagStats[tag].correct + tagStats[tag].miss > 0 ==>
      r * (tagStats[tag].correct + tagStats[tag].miss) as real == tagStats[tag].correct as real
  {
    if tag !in tagStats then 0.0
    else
      var ts := tagStats[tag];
      var total := ts.correct + ts.miss;
      if total == 0 then 0.0
      else
        assert ts.correct as real <= total as real;
        (ts.correct as real) / (total as real)
  }

  /** `toggleBookmark(id)`: flips the flag of an existing record; nothing
      else changes, and nothing at all without a record. */
  function ToggleBookmark(s: AppState, id: string): (r: AppState)
    ensures id !in s.history ==> r == s
    ensures r.history.Keys == s.history.Keys
    ensures id in s.history ==> r.history[id].bookmarked == !s.history[id].bookmarked
    ensures id in s.history ==> r.history[id].(bookmarked := s.history[id].bookmarked) == s.history[id]
    ensures forall k | k in s.history && k != id :: r.history[k] == s.history[k]
    ensures r.(history := s.history) == s
  {
    if id in s.history then
      var qh := s.history[id];
      s.(history := s.history[id := qh.(bookmarked := !qh.bookmarked)])
    else s
  }

  /** Two toggles of the same question restore the state. */
  lemma ToggleTwice(s: AppState, id: string)
    ensures ToggleBookmark(ToggleBookmark(s, id), id) == s
  {
    var r := ToggleBookmark(ToggleBookmark(s, id), id);
    assert r.history == s.history;
  }

  // ---------------------------------------------------------------------------
  // Recording an answer

  /** Steps 1-2 of `recordAnswer`: the question's record, created at zeros,
      gets one more correct answer (and a longer run) or one more miss (and
      a broken run, and the error type when the answer names one); either
      way it was answered today and keeps its bookmark. */
  method AnswerQuestion(history: map<string, QuestionHistory>, record: AnswerRecord, today: int)
    returns (r: map<string, QuestionHistory>)
    ensures r.Keys == history.Keys + {record.questionId}
    ensures forall k | k in history && k != record.questionId :: r[k] == history[k]
    ensures var before, after := HistoryOrNew(history, record.questionId), r[record.questionId];
      && after.lastAnswered == Some(today)
      && after.bookmarked == before.bookmarked
      && (record.correct ==>
            after.correct == before.correct + 1 && after.miss == before.miss
            && after.consecutiveCorrect == before.consecutiveCorrect + 1
            && after.lastResult == Correct && after.lastErrorType == before.lastErrorType)
      && (!record.correct ==>
            after.miss == before.miss + 1 && after.correct == before.correct
            && after.consecutiveCorrect == 0 && after.lastResult == Miss
            && after.lastErrorType == (if record.errorType.Some? then record.errorType else before.lastErrorType))
  {
    var qh := HistoryOrNew(history, record.questionId);
    if record.correct {
      qh := qh.(correct := qh.correct + 1, consecutiveCorrect := qh.consecutiveCorrect + 1, lastResult := Correct);
    } else {
      qh := qh.(miss := qh.miss + 1, consecutiveCorrect := 0, lastResult := Miss);
      if record.errorType.Some? {
        qh := qh.(lastErrorType := record.errorType);
      }
    }
    qh := qh.(lastAnswered := Some(today));
    r := history[record.questionId := qh];
  }

  /** Step 3: exactly one counter of the answer's tag grows, starting from
      zeros when the tag has no statistics; other tags keep theirs. */
  method CountAnswer(tagStats: map<Tag, TagStats>, record: AnswerRecord) returns (r: map<Tag, TagStats>)
    ensures r.Keys == tagStats.Keys + {record.tag}
    ensures forall t | t in tagStats && t != record.tag :: r[t] == tagStats[t]
    ensures var before, after := StatsOf(tagStats, record.tag), r[record.tag];
      if record.correct then after == before.(correct := before.correct + 1)
      else after == before.(miss := before.miss + 1)
  {
    var ts := StatsOf(tagStats, record.tag);
    if record.correct {
      ts := ts.(correct := ts.correct + 1);
    } else {
      ts := ts.(miss := ts.miss + 1);
    }
    r := tagStats[record.tag := ts];
  }

  /** What the streak rewards add to mineral `m` for the answer `record` to a
      question whose record was `before`: quartz on its first correct answer,
      pyrite when its run of correct answers reaches 3, and fossil too when
      it had been missed before. */
  function StreakGain(m: string, record: AnswerRecord, before: QuestionHistory): nat
  {
    if !record.correct then 0
    else
      (if m == Quartz && before.correct == 0 then 1 else 0)
      + (if m == Pyrite && before.consecutiveCorrect == 2 then 1 else 0)
      + (if m == Fossil && before.consecutiveCorrect == 2 && before.miss > 0 then 1 else 0)
  }

  /** Step 4: the rewards for the question's record `after` (already
      updated): each of quartz, pyrite and fossil gains at most one, and a
      miss gains nothing. */
  method StreakRewards(minerals: map<string, int>, record: AnswerRecord, before: QuestionHistory, after: QuestionHistory)
    returns (r: map<string, int>)
    requires record.correct ==> after.correct == before.correct + 1 && after.miss == before.miss
                                && after.consecutiveCorrect == before.consecutiveCorrect + 1
    ensures !record.correct ==> r == minerals
    ensures forall m :: MineralOf(r, m) == MineralOf(minerals, m) + StreakGain(m, record, before)
    ensures forall m :: m in r <==> m in minerals || StreakGain(m, record, before) > 0
  {
    r := minerals;
    if record.correct {
      if after.correct == 1 {
        r := Bump(r, Quartz);
      }
      if after.consecutiveCorrect == 3 {
        r := Bump(r, Pyrite);
      }
      if after.miss > 0 && after.consecutiveCorrect == 3 {
        r := Bump(r, Fossil);
      }
    }
  }

  /** Step 6: a first study today extends yesterday's run by one or starts
      a new run of 1; the profile then records today. A second study on the
      same day changes nothing. */
  method UpdateDayStreak(profile: Profile, today: int, yesterday: int) returns (r: Profile)
    ensures r.lastStudyDate == Some(today)
    ensures profile.lastStudyDate == Some(today) ==> r == profile
    ensures profile.lastStudyDate != Some(today) && profile.lastStudyDate == Some(yesterday) ==>
      r.streak == profile.streak + 1
    ensures profile.lastStudyDate != Some(today) && profile.lastStudyDate != Some(yesterday) ==>
      r.streak == 1
    ensures r.(streak := profile.streak, lastStudyDate := profile.lastStudyDate) == profile
  {
    r := profile;
    if r.lastStudyDate != Some(today) {
      if r.lastStudyDate == Some(yesterday) {
        r := r.(streak := r.streak + 1);
      } else if r.lastStudyDate != Some(today) {
        r := r.(streak := 1);
      }
      r := r.(lastStudyDate := Some(today));
    }
  }

  /** `recordAnswer(record)` on the state `prev`, answered on day `today`;
      `yesterday` is the day before. */
  method RecordAnswer(prev: AppState, record: AnswerRecord, rules: seq<MineralRule>, today: int, yesterday: int)
    returns (next: AppState)
    // the question's record and the tag's statistics, as the two steps state
    ensures next.history.Keys == prev.history.Keys + {record.questionId}
    ensures forall k | k in prev.history && k != record.questionId :: next.history[k] == prev.history[k]
    ensures var before, after := HistoryOrNew(prev.history, record.questionId), next.history[record.questionId];
      && after.lastAnswered == Some(today) && after.bookmarked == before.bookmarked
      && (record.correct ==>
            after.correct == before.correct + 1 && after.miss == before.miss
            && after.consecutiveCorrect == before.consecutiveCorrect + 1
            && after.lastResult == Correct && after.lastErrorType == before.lastErrorType)
      && (!record.correct ==>
            after.miss == before.miss + 1 && after.correct == before.correct
            && after.consecutiveCorrect == 0 && after.lastResult == Miss
            && after.lastErrorType == (if record.errorType.Some? then record.errorType else before.lastErrorType))
    ensures next.tagStats.Keys == prev.tagStats.Keys + {record.tag}
    ensures forall t | t in prev.tagStats && t != record.tag :: next.tagStats[t] == prev.tagStats[t]
    ensures var before, after := StatsOf(prev.tagStats, record.tag), next.tagStats[record.tag];
      if record.correct then after == before.(correct := before.correct + 1)
      else after == before.(miss := before.miss + 1)
    // minerals: nothing on a miss; on a correct answer the streak rewards and the milestones
    ensures !record.correct ==> next.minerals == prev.minerals
    ensures forall m ::
              MineralOf(next.minerals, m) == MineralOf(prev.minerals, m)
                + StreakGain(m, record, HistoryOrNew(prev.history, record.questionId))
                + MilestoneGain(rules, m, record, next.tagStats[record.tag].correct)
    ensures prev.minerals.Keys <= next.minerals.Keys
    // badges: checked on the updated records but with the previous day streak
    ensures |prev.badges| <= |next.badges| && next.badges[..|prev.badges|] == prev.badges
    ensures forall x :: x in next.badges <==>
      x in prev.badges || exists b :: x == BadgeId(b) && Earned(b, next.history, next.tagStats, next.examResults, prev.profile.streak)
    ensures NoDup(prev.badges) ==> NoDup(next.badges)
    // day streak
    ensures next.profile.lastStudyDate == Some(today)
    ensures prev.profile.lastStudyDate == Some(today) ==> next.profile.streak == prev.profile.streak
    ensures prev.profile.lastStudyDate != Some(today) && prev.profile.lastStudyDate == Some(yesterday) ==>
      next.profile.streak == prev.profile.streak + 1
    ensures prev.profile.lastStudyDate != Some(today) && prev.profile.lastStudyDate != Some(yesterday) ==>
      next.profile.streak == 1
    // title, and what stays
    ensures next.profile.title == ComputeTitle(next)
    ensures next.profile.name == prev.profile.name && next.profile.createdAt == prev.profile.createdAt
    ensures next.version == prev.version && next.examResults == prev.examResults
  {
    var before := HistoryOrNew(prev.history, record.questionId);
    var history := AnswerQuestion(prev.history, record, today);
    var tagStats := CountAnswer(prev.tagStats, record);
    var minerals := StreakRewards(prev.minerals, record, before, history[record.questionId]);
    ghost var rewarded := minerals;
    minerals := ApplyMilestoneMineralRewards(minerals, tagStats, record, rules);
    assert StatsOf(tagStats, record.tag) == tagStats[record.tag];
    var mid := prev.(history := history, tagStats := tagStats, minerals := minerals);
    var badges := CheckAndAwardBadges(mid);
    var profile := UpdateDayStreak(prev.profile, today, yesterday);
    next := mid.(badges := badges, profile := profile);
    next := next.(profile := next.profile.(title := ComputeTitle(next)));
    assert ComputeTitle(next) == ComputeTitle(mid);
    forall m | m in prev.minerals
      ensures m in next.minerals
    {
      assert m in rewarded;
    }
  }

  // ---------------------------------------------------------------------------
  // Initial, stored and normalised state

  /** `createInitialState()` on day `today`, with a zero counter for each
      mineral of the catalog `catalog`. */
  function CreateInitialState(today: int, catalog: seq<string>): AppState
  {
    AppState(
      CurrentVersion,
      Profile("", today, 0, None, Trainee),
      map[],
      map t | t in AllTags :: TagStats(0, 0),
      [],
      map m | m in catalog :: 0,
      [])
  }

  /** The states the normalisation guarantees: the current version, every
      tag's statistics and every catalog mineral's counter present. */
  predicate WellFormed(s: AppState, catalog: seq<string>)
  {
    && s.version == CurrentVersion
    && (forall t: Tag :: t in s.tagStats)
    && (forall m | m in catalog :: m in s.minerals)
  }

  /** A fresh ledger is well formed, holds nothing, and its title is trainee. */
  lemma InitialState(today: int, catalog: seq<string>)
    ensures var s := CreateInitialState(today, catalog);
      && WellFormed(s, catalog)
      && (forall t :: StatsOf(s.tagStats, t) == TagStats(0, 0))
      && (forall m :: MineralOf(s.minerals, m) == 0)
      && ComputeTitle(s) == Trainee
  {
    var s := CreateInitialState(today, catalog);
    forall t: Tag
      ensures t in s.tagStats
    {
      AllTagsComplete(t);
    }
    assert SumCorrect(AllTags, s.tagStats) == 0 by {
      ZeroSum(AllTags, s.tagStats);
    }
  }

  /** The fresh ledger's maps: zero statistics for every tag, a zero counter
      for exactly the catalog's minerals. */
  lemma InitialMaps(today: int, catalog: seq<string>)
    ensures var s := CreateInitialState(today, catalog);
      && (forall t: Tag :: t in s.tagStats && s.tagStats[t] == TagStats(0, 0))
      && (forall m :: m in s.minerals <==> m in catalog)
      && (forall m | m in s.minerals :: s.minerals[m] == 0)
  {
    forall t: Tag
      ensures t in CreateInitialState(today, catalog).tagStats
    {
      AllTagsComplete(t);
    }
  }

  lemma {:induction false} ZeroSum(tags: seq<Tag>, tagStats: map<Tag, TagStats>)
    requires forall t | t in tagStats :: tagStats[t].correct == 0
    ensures SumCorrect(tags, tagStats) == 0
  {
    if tags != [] {
      ZeroSum(tags[1..], tagStats);
    }
  }

  /** The profile as parsed from storage: a field the stored JSON lacks is
      `None` (a stored empty study date is `Some(None)`). */
  datatype StoredProfile = StoredProfile(
    name: Option<string>, createdAt: Option<int>, streak: Option<int>,
    lastStudyDate: Option<Option<int>>, title: Option<Title>)

  /** `Partial<AppState>` as parsed from storage; `examResults` and `badges`
      are `None` also when the stored value is not an array. */
  datatype StoredState = StoredState(
    version: Option<int>,
    profile: Option<StoredProfile>,
    history: Option<map<string, QuestionHistory>>,
    tagStats: Option<map<Tag, TagStats>>,
    examResults: Option<seq<ExamResult>>,
    minerals: Option<map<string, int>>,
    badges: Option<seq<string>>)

  /** What `localStorage` holds: nothing, text that fails to parse, or a parsed object. */
  datatype Stored = NoEntry | Unparseable | Parsed(value: StoredState)

  function OrElse<T>(o: Option<T>, d: T): T
  {
    if o.Some? then o.value else d
  }

  /** `{ ...initial.profile, ...(parsed.profile ?? {}) }` */
  function MergeProfile(initial: Profile, p: Option<StoredProfile>): Profile
  {
    if p.None? then initial
    else
      var q := p.value;
      Profile(OrElse(q.name, initial.name), OrElse(q.createdAt, initial.createdAt), OrElse(q.streak, initial.streak),
              OrElse(q.lastStudyDate, initial.lastStudyDate), OrElse(q.title, initial.title))
  }

  /** `{ ...base, ...(top ?? {}) }`: the keys of both, a stored value over the default. */
  function Overlay<K(!new), V>(base: map<K, V>, top: Option<map<K, V>>): (r: map<K, V>)
    ensures forall k :: k in r <==> k in base || (top.Some? && k in top.value)
    ensures forall k | k in r :: r[k] == if top.Some? && k in top.value then top.value[k] else base[k]
  {
    base + OrElse(top, map[])
  }

  /** `normalizeState(parsed)`: the stored fields over the defaults, with the
      tag statistics and mineral counters merged key by key. */
  function NormalizeState(p: StoredState, today: int, catalog: seq<string>): (r: AppState)
    ensures WellFormed(r, catalog)
    ensures forall t :: r.tagStats[t] == if p.tagStats.Some? && t in p.tagStats.value then p.tagStats.value[t] else TagStats(0, 0)
    ensures p.history.Some? ==> r.history == p.history.value
    ensures p.history.None? ==> r.history == map[]
    ensures r.profile == MergeProfile(CreateInitialState(today, catalog).profile, p.profile)
    ensures forall m :: m in r.minerals <==> m in catalog || (p.minerals.Some? && m in p.minerals.value)
    ensures forall m | m in r.minerals ::
      r.minerals[m] == if p.minerals.Some? && m in p.minerals.value then p.minerals.value[m] else 0
    ensures p.badges.Some? ==> r.badges == p.badges.value
    ensures p.badges.None? ==> r.badges == []
    ensures p.examResults.Some? ==> r.examResults == p.examResults.value
    ensures p.examResults.None? ==> r.examResults == []
  {
    var initial := CreateInitialState(today, catalog);
    InitialMaps(today, catalog);
    AppState(
      CurrentVersion,
      MergeProfile(initial.profile, p.profile),
      OrElse(p.history, map[]),
      Overlay(initial.tagStats, p.tagStats),
      OrElse(p.examResults, []),
      Overlay(initial.minerals, p.minerals),
      OrElse(p.badges, []))
  }

  /** `loadState()`: defaults without an entry, on a parse error and for a
      version newer than the current one; the normalised state otherwise. */
  function LoadState(stored: Stored, today: int, catalog: seq<string>): (r: AppState)
    ensures WellFormed(r, catalog)
    ensures stored.Parsed? && stored.value.version.Some? && stored.value.version.value > CurrentVersion ==>
      r == CreateInitialState(today, catalog)
    ensures !stored.Parsed? ==> r == CreateInitialState(today, catalog)
    ensures stored.Parsed? && (stored.value.version.None? || stored.value.version.value <= CurrentVersion) ==>
      r == NormalizeState(stored.value, today, catalog)
  {
    InitialState(today, catalog);
    match stored
    case Parsed(p) =>
      if p.version.Some? && p.version.value > CurrentVersion then CreateInitialState(today, catalog)
      else NormalizeState(p, today, catalog)
    case _ => CreateInitialState(today, catalog)
  }

  /** `JSON.stringify(state)` read back: every field present. */
  function Saved(s: AppState): StoredState
  {
    var pr := s.profile;
    StoredState(
      Some(s.version),
      Some(StoredProfile(Some(pr.name), Some(pr.createdAt), Some(pr.streak), Some(pr.lastStudyDate), Some(pr.title))),
      Some(s.history), Some(s.tagStats), Some(s.examResults), Some(s.minerals), Some(s.badges))
  }

  /** Saving a well-formed state and loading it back, on any day, gives the
      same state. */
  lemma SaveLoadRoundTrip(s: AppState, today: int, catalog: seq<string>)
    requires WellFormed(s, catalog)
    ensures LoadState(Parsed(Saved(s)), today, catalog) == s
  {
    var r := LoadState(Parsed(Saved(s)), today, catalog);
    var initial := CreateInitialState(today, catalog);
    assert r.tagStats == initial.tagStats + s.tagStats;
    assert r.tagStats == s.tagStats by {
      forall t: Tag
        ensures t in initial.tagStats
      {
        AllTagsComplete(t);
      }
    }
    assert r.minerals == s.minerals;
  }
}
