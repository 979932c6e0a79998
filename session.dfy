/** The session state of the quiz hook: the questions of the running quiz,
    the index of the current one, the answers so far and whether the quiz is
    still running. The elapsed-time clock is not part of the model. */
module Session {
  import opened Types
  import opened Shuffle
  import opened QuizPriority
  import opened QuizSets
  import opened Layers
  import opened Seqs

  /** What `buildDailySet` promises: at most seven questions with distinct
      ids, at most three of a tag, and fewer than seven only when every other
      question is taken or its tag is full. */
  ghost predicate DailySetSound(questions: seq<Question>, r: seq<Question>)
  {
    && |r| <= DailyQuestionCount && UniqueIds(r)
    && (forall t :: CountTag(r, t) <= MaxPerTag)
    && (|r| < DailyQuestionCount ==>
          forall q | q in questions :: q.id in IdSet(r) || CountTag(r, q.tag) == MaxPerTag)
  }

  /** What `buildLayerSet` promises: at most ten questions, distinct when the
      catalog's are; without a layer of that depth the first ten of a shuffle,
      with one only questions of the layer's tags and one of each tag the
      catalog has. */
  ghost predicate LayerSetSound(questions: seq<Question>, depth: int, rand: nat -> UnitReal, k: nat, r: seq<Question>)
  {
    && |r| <= 10
    && (UniqueIds(questions) ==> UniqueIds(r))
    && (LayerByDepth(depth).None? ==> r == Take(Shuffled(questions, rand, k), 10))
    && (LayerByDepth(depth).Some? ==>
          && (forall q | q in r :: q.tag in LayerByDepth(depth).value.tags)
          && (forall t | t in LayerByDepth(depth).value.tags && CountTag(questions, t) > 0 :: CountTag(r, t) >= 1))
  }

  /** What the exam builders promise for a blueprint `bp` of `n` questions:
      no tag beyond its quota and, with distinct catalog ids, distinct
      questions and min(quota, available) of every tag. */
  ghost predicate ExamSetSound(questions: seq<Question>, bp: seq<Slot>, n: nat, r: seq<Question>)
  {
    && |r| <= n
    && (forall t :: CountTag(r, t) <= Quota(bp, t))
    && (UniqueIds(questions) ==>
          && UniqueIds(r)
          && forall t :: CountTag(r, t) == Min(Quota(bp, t), CountTag(questions, t)))
  }

  /** What `startQuiz` promises of the set it starts: questions of the
      catalog, and for each mode what that mode's builder promises (the
      repair, trial and default sets exactly). */
  ghost predicate ModeSetSound(mode: QuizMode, layerDepth: Option<int>, allQuestions: seq<Question>,
                               appState: AppState, rand: nat -> UnitReal, k: nat, qs: seq<Question>)
  {
    && (forall q | q in qs :: q in allQuestions)
    && (mode == ModeRepair ==> qs == BuildRepairSet(allQuestions, appState, rand, k))
    && (mode == ModeTrial ==> qs == BuildTrialSet(allQuestions, rand, k))
    && (mode.ModeUnknown? ==> qs == DefaultSet(allQuestions, rand, k))
    && (mode == ModeDaily ==> DailySetSound(allQuestions, qs))
    && (mode == ModeLayer ==>
          LayerSetSound(allQuestions, if layerDepth.Some? then layerDepth.value else 1, rand, k, qs))
    && (mode == ModeExamShort ==> ExamSetSound(allQuestions, ShortBlueprint, 19, qs))
    && (mode == ModeExamFull ==>
          && ExamSetSound(allQuestions, FullBlueprint, 50, qs)
          && forall q | q in qs :: q.tag != Okurigana)
  }

  /** The `switch (mode)` of `startQuiz`: the set of the mode. */
  method BuildModeSet(mode: QuizMode, layerDepth: Option<int>, allQuestions: seq<Question>,
                      appState: AppState, today: int, pow: (real, real) -> real,
                      rand: nat -> UnitReal, k: nat)
    returns (qs: seq<Question>)
    ensures ModeSetSound(mode, layerDepth, allQuestions, appState, rand, k, qs)
  {
    match mode {
      case ModeDaily =>
        qs := BuildDailySet(allQuestions, appState, today, pow, rand, k);
        assert DailySetSound(allQuestions, qs);
      case ModeRepair =>
        qs := BuildRepairSet(allQuestions, appState, rand, k);
        RepairSetContents(allQuestions, appState, rand, k);
      case ModeTrial =>
        qs := BuildTrialSet(allQuestions, rand, k);
        TrialSetContents(allQuestions, rand, k);
      case ModeLayer =>
        var depth := if layerDepth.Some? then layerDepth.value else 1;
        qs := BuildLayerSet(allQuestions, depth, rand, k);
        assert LayerSetSound(allQuestions, depth, rand, k, qs);
      case ModeExamShort =>
        qs := BuildExamShort(allQuestions, rand, k);
        assert ExamSetSound(allQuestions, ShortBlueprint, 19, qs);
      case ModeExamFull =>
        qs := BuildExamFull(allQuestions, rand, k);
        assert ExamSetSound(allQuestions, FullBlueprint, 50, qs);
      case ModeUnknown(_) =>
        qs := DefaultSet(allQuestions, rand, k);
        DefaultSetContents(allQuestions, rand, k);
    }
  }

  class QuizSession {
    var currentIndex: int
    var quizQuestions: seq<Question>
    var answers: seq<AnswerRecord>
    var isActive: bool

    /** The index points into the list (or is 0 on an empty one), a running
        quiz has one answer per question before the current one, and a
        stopped quiz sits on its last question. */
    ghost predicate Valid()
      reads this
    {
      && 0 <= currentIndex
      && (currentIndex < |quizQuestions| || currentIndex == 0)
      && (isActive ==> |answers| == currentIndex)
      && (!isActive ==> currentIndex + 1 >= |quizQuestions|)
    }

    /** The hook's initial state: nothing loaded, not running. */
    constructor ()
      ensures currentIndex == 0 && quizQuestions == [] && answers == [] && !isActive
      ensures Valid()
    {
      currentIndex := 0;
      quizQuestions := [];
      answers := [];
      isActive := false;
    }

    /** `quizQuestions[currentIndex] ?? null` */
    function CurrentQuestion(): (q: Option<Question>)
      reads this
      ensures q.Some? <==> 0 <= currentIndex < |quizQuestions|
      ensures q.Some? ==> q.value in quizQuestions
    {
      if 0 <= currentIndex < |quizQuestions| then Some(quizQuestions[currentIndex]) else None
    }

    /** `progress`: the 1-based position and the total. */
    function Progress(): (p: (int, int))
      reads this
      requires Valid()
      ensures p.1 == |quizQuestions|
      ensures 1 <= p.0 && (p.1 > 0 ==> p.0 <= p.1)
    {
      (currentIndex + 1, |quizQuestions|)
    }

    /** `startQuiz(mode, layerDepth)`: builds the set of the mode (an
        unknown mode gets seven shuffled questions, a layer quiz without a
        depth depth 1), then starts at the first question with no answers,
        running even when the set is empty. */
    method StartQuiz(mode: QuizMode, layerDepth: Option<int>, allQuestions: seq<Question>,
                     appState: AppState, today: int, pow: (real, real) -> real,
                     rand: nat -> UnitReal, k: nat)
      modifies this
      ensures currentIndex == 0 && answers == [] && isActive
      ensures Valid()
      ensures quizQuestions == [] ==> CurrentQuestion() == None
      ensures ModeSetSound(mode, layerDepth, allQuestions, appState, rand, k, quizQuestions)
    {
      var qs := BuildModeSet(mode, layerDepth, allQuestions, appState, today, pow, rand, k);
      quizQuestions := qs;
      currentIndex := 0;
      answers := [];
      isActive := true;
    }

    /** `submitAnswer(record)`: appends the record; moves on when another
        question follows, and stops the quiz otherwise. */
    method SubmitAnswer(record: AnswerRecord)
      modifies this
      requires Valid()
      ensures Valid()
      ensures answers == old(answers) + [record]
      ensures quizQuestions == old(quizQuestions)
      ensures old(currentIndex) + 1 < |quizQuestions| ==>
        currentIndex == old(currentIndex) + 1 && isActive == old(isActive)
      ensures old(currentIndex) + 1 >= |quizQuestions| ==>
        currentIndex == old(currentIndex) && !isActive
    {
      answers := answers + [record];
      if currentIndex + 1 < |quizQuestions| {
        currentIndex := currentIndex + 1;
      } else {
        isActive := false;
      }
    }

    /** Answering a started quiz of N >= 1 questions N times: the answers are
        the records in call order, the quiz has stopped, and the current
        question is still the last one. */
    method AnswerAll(records: seq<AnswerRecord>)
      modifies this
      requires Valid() && isActive && currentIndex == 0 && answers == []
      requires |records| == |quizQuestions| >= 1
      ensures answers == records && !isActive
      ensures quizQuestions == old(quizQuestions)
      ensures CurrentQuestion() == Some(quizQuestions[|quizQuestions| - 1])
    {
      var i := 0;
      while i < |records|
        invariant 0 <= i <= |records|
        invariant Valid() && quizQuestions == old(quizQuestions)
        invariant answers == records[..i]
        invariant i < |records| ==> isActive && currentIndex == i
        invariant i == |records| ==> !isActive && currentIndex == i - 1
      {
        assert records[..i + 1] == records[..i] + [records[i]];
        SubmitAnswer(records[i]);
        i := i + 1;
      }
      assert records[..i] == records;
    }
  }
}
