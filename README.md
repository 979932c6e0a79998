# kanji-mine: a verified model of the quiz engine and the bank generators

kanji-mine is a kanji-test practice app. Questions are grouped into eleven
tags, and the tags into seven geological layers. This project models its core
in Dafny and proves what that core promises.

**The quiz engine**
- The scheduler of the quiz hook: the review interval, the priority score, the
  weak/overdue classification and the weighted draw.
- The six set builders (daily, repair, trial, layer, short exam, full exam) and
  the default set.
- The quiz session: start, submit, current question and progress.
- The mastery ledger of the history hook: what one answer does to the question
  history, the tag statistics, the mineral counters, the badges, the day
  streak and the title; bookmarks, the tag rate, and the normalisation and
  version gate of a stored state.
- The layer catalog.
- The aggregation of handwriting questions into kanji specimens.

**The offline bank generators** (in-memory logic only)
- The on-yomi/kun-yomi and homophone generator: katakana→hiragana, the FNV-1a
  hash, the mulberry32 generator, the on/kun answer format, the distractor
  pickers, the homophone context and target, and id allocation.
- The reading generator: the near-length distractor picker, the target
  marking, the reset filter and the generation loop.
- The OCR writing importer: the page splitter, the context key, target
  extraction, the ambiguity-removing target→answer map, the grade filter, the
  id allocation, the bank sort and the accept/review ladder.

**How the model is organised**
- Each source file becomes one module (or a few). Pure code becomes functions
  and lemmas. Code that loops or mutates becomes methods with loop invariants,
  proved against specification functions:
  - the Fisher–Yates shuffle and the bank sort work on arrays;
  - the session is a class;
  - the ledger updater is a chain of methods, one per step of `recordAnswer`.
- Randomness is an explicit stream `rand: nat -> UnitReal` of the values
  `Math.random()` returns, with the index of the first draw. Each builder
  consumes draws in the order the code calls `Math.random()`.
- Dates are integer day numbers, with "today" and "yesterday" passed in.
- `localeCompare('ja')` is a parameter `localeLe`.
- `Math.pow` is a parameter `pow`.

Modules:
- `Types`, `Seqs`, `Strs`, `OrderedMaps`: entities and shared helpers. A
  JavaScript `Map` or object whose key order matters is a sequence of slots.
- `Shuffle`, `Layers`, `QuizPriority`, `QuizSets`, `Session`: the quiz hook
  and the catalog.
- `Ledger`, `Dates`: the history hook.
- `KanjiSpecimens`: the specimen aggregation.
- `BankText`, `OnKunBank`, `HomophoneBank`, `OcrBankGeneration`: the on/kun and
  homophone generator.
- `ReadingBank`: the reading generator.
- `OcrImport`: the OCR importer.

## Model

A function that only computes a value, such as a generator's whole output, has no row of its own: the rows of the lemmas and methods whose contracts mention it state what it computes.

- `Dates.LocalDateString`: `Dates.DateStringRoundTrip`, `Dates.DateStringInjective`
- `BankText.KatakanaToHiragana`: `BankText.KatakanaToHiraganaChars`, `BankText.KatakanaToHiraganaIdempotent`, `BankText.KatakanaWordToReading`
- `BankText.Fnv1a`: `BankText.HashString`, `BankText.HashStringSnoc`, `BankText.HashVectors`
- `BankText.KeyedShuffle`: `BankText.KeyedShuffleFacts`, `BankText.ShuffleWithKey`
- `BankText.NormalizeKey`: `BankText.NormalizeKeyFacts`
- `BankText.FormatId`: `BankText.FormatIdRoundTrip`, `BankText.FormatIdInjective`, `BankText.FreshId`
- `OnKunBank.ParseOnKunAnswer`, `OnKunBank.FormatOnKunAnswer`: `OnKunBank.ParseFormat`, `OnKunBank.ParseFormatKun`, `OnKunBank.ParseFormatOnOnly`, `OnKunBank.OnKunRoundTrip`, `OnKunBank.EasyDoesNotRoundTrip`
- `OnKunBank.Distractors`: `OnKunBank.DistractorsFacts`, `OnKunBank.PickDistractors`
- `OnKunBank.MakeHomophoneContext`: `OnKunBank.HomophoneContextRoundTrip`, `OnKunBank.HomophoneTargetOf`
- `OnKunBank.MakeHomophoneTarget`: `OnKunBank.HomophoneTargetOf`, `OnKunBank.HomophoneTargetShape`
- `HomophoneBank.CandidateLabels`: `HomophoneBank.CandidateLabelsFacts`, `HomophoneBank.BuildCandidateLabels`
- `HomophoneBank.GeneratedHomophone`: `HomophoneBank.GeneratedHomophoneFacts`, `HomophoneBank.GenerateHomophoneQuestions`
- `Ledger.ComputeTitle`: `Ledger.TitleLadder`, `Ledger.TitleMonotoneInExams`, `Ledger.CorrectAnswerNeverLowersTitle`
- `Ledger.CreateInitialState`: `Ledger.InitialState`, `Ledger.InitialMaps`
- `QuizSets.BuildRepairSet`: `QuizSets.RepairSetContents`, `QuizSets.RepairSetRanked`
- `QuizSets.BuildTrialSet`: `QuizSets.TrialSetContents`
- `QuizSets.DefaultSet`: `QuizSets.DefaultSetContents`
- `OcrImport.PagesOf`: `OcrImport.ParsePages`, `OcrImport.PagesBeforeHeader`, `OcrImport.PagesAfterHeader`, `OcrImport.HeaderOpensPage`
- `OcrImport.NormalizeContextKey`: `OcrImport.ContextKeyIsStrip`, `OcrImport.ContextKeyIdempotent`
- `OcrImport.Extract`: `OcrImport.ExtractFacts`, `OcrImport.ExtractLongestCandidate`, `OcrImport.ExtractLongestToken`, `OcrImport.ExtractTarget`
- `OcrImport.TargetAnswerMap`: `OcrImport.TargetAnswerMapFacts`, `OcrImport.BuildTargetAnswerMap`
- `OcrImport.AllowedKanji`: `OcrImport.AllowedKanjiMembers`, `OcrImport.BuildAllowedKanjiSet`
- `OcrImport.AnswerIsWithinGrade`: `OcrImport.WithinGradeIff`
- `OcrImport.Decide`: `OcrImport.DecideAccepts`, `OcrImport.DecideReviews`, `OcrImport.DecideEarly`, `OcrImport.DecideSound`
- `OcrImport.Ladder`: `OcrImport.LadderFacts`, `OcrImport.RunLadder`, `OcrImport.LadderSnoc`
- `OcrImport.ImportedBank`: `OcrImport.ImportFacts`, `OcrImport.ImportOcrWriting`
- `ReadingBank.ReadingDistractors`: `ReadingBank.ReadingDistractorsFacts`, `ReadingBank.PickReadingDistractors`, `ReadingBank.TopUpIsDead`
- `ReadingBank.MarkTargetContext`: `ReadingBank.MarkedContextShape`, `ReadingBank.MarkedContextKey`
- `ReadingBank.GeneratedReadings`: `ReadingBank.GeneratedReadingsFacts`, `ReadingBank.GenerateReadingQuestions`
- `KanjiSpecimens.Specimens`: `KanjiSpecimens.SpecimenContents`, `KanjiSpecimens.SpecimensMembers`, `KanjiSpecimens.SpecimensDistinct`, `KanjiSpecimens.SpecimensOnePerAnswer`, `KanjiSpecimens.BuildKanjiSpecimens`
- `OcrBankGeneration.RegeneratedBank`: `OcrBankGeneration.RegeneratedBankFacts`, `OcrBankGeneration.Regenerate`

| member | source | states |
|---|---|---|
| Types.AllTagsComplete | src/types.ts:3-14 | the tag list the ledger initialises from names all eleven tags |
| Layers.TagToLayerDepth | src/constants/layers.ts:43-55 | every tag sits at a depth between 1 and 7 |
| Layers.MaxLayerDepth | src/constants/layers.ts:130 | `MAX_LAYER_DEPTH` is 7 and no layer is deeper |
| Layers.FindDepth | src/constants/layers.ts:132-134 | a layer found for depth d is a catalog layer of depth d; none is found only when no layer has depth d |
| Layers.FindDepthConsecutive | src/constants/layers.ts:132-134 | on layers numbered consecutively, depth d is found exactly at position d - base, and outside the range nothing is found |
| Layers.CanonicalLayerByDepth | src/constants/layers.ts:132-134 | `CANONICAL_LAYER_BY_DEPTH` is defined exactly on 1..7 and maps d to the d-th layer |
| Layers.LegacyDepthToCanonical | src/constants/layers.ts:137-149 | the legacy table is defined exactly on 1..11 and always maps to a canonical depth 1..7 |
| Layers.LayerByDepthNormalises | src/constants/layers.ts:151-158 | `LAYER_BY_DEPTH`: 1..7 give their own layer (canonical entries override legacy ones), 8 and 9 give layer 6, 10 and 11 give layer 7, and any other depth gives nothing |
| Layers.LayerByDepthInCatalog | src/constants/layers.ts:151-158 | whatever `LAYER_BY_DEPTH` yields is a layer of the catalog |
| Layers.LayerByTag | src/constants/layers.ts:160-162 | `LAYER_BY_TAG[t]` is the catalog layer at the tag's depth, lists `t`, and has a target rate strictly between 0 and 1 |
| Layers.LayersPartitionTags | src/constants/layers.ts:43-128 | a layer lists a tag exactly when its depth is the tag's depth, so every tag is in exactly one layer |
| Layers.LayersWellFormed | src/constants/layers.ts:57-130 | layer i has depth i + 1, never deeper than `MAX_LAYER_DEPTH`; every target rate is in (0, 1), which keeps the division in the priority safe; no layer repeats a tag |
| Layers.PointsAndPercentTotals | src/constants/layers.ts:57-128 | the layer points add up to 200 (`TOTAL_POINTS`) and the percentages to 100; the passing score is 70% of the total |
| Layers.LayerTagsShort | src/constants/layers.ts:57-128 | each layer groups one or two distinct tags |
| QuizPriority.TargetInterval | src/hooks/useQuiz.ts:229-234 | the review interval is always between 1 and 14 days |
| QuizPriority.TargetIntervalMonotone | src/hooks/useQuiz.ts:229-234 | a longer streak never gives a shorter interval |
| QuizPriority.TargetIntervalValues | src/hooks/useQuiz.ts:229-234 | the intervals are 1 (streak ≤ 0), 2, 4, 7, 9, 11, 13, and 14 from streak 7 on |
| QuizPriority.DaysSince | src/hooks/useQuiz.ts:236-242 | the age in days is never negative; a missing date counts as 9999; a past date gives the difference and a future date 0 |
| QuizPriority.WeakNeedsAMiss | src/hooks/useQuiz.ts:214-220 | a question with no record, or never missed and last answered correctly, is not weak |
| QuizPriority.HighMissRateIsWeak | src/hooks/useQuiz.ts:214-220 | a recorded miss rate of 0.34 or more makes a question weak |
| QuizPriority.WeakIff | src/hooks/useQuiz.ts:214-220 | a question is weak exactly when it has a record whose last answer was a miss, or whose misses are at least 34% of max(1, attempts), or with two misses or more and a correct run below two |
| QuizPriority.OverdueMeaning | src/hooks/useQuiz.ts:222-227 | overdue holds exactly when a record with a last-answered day exists and its age exceeds the interval of its streak; such a question was answered at least two days ago and stays overdue on every later day |
| QuizPriority.WritingBoostIff | src/hooks/useQuiz.ts:119-127 | the writing boost is on exactly when writing has fewer than 12 attempts or less than 75% correct; the miss-rate test never decides anything |
| QuizPriority.OverdueBoost | src/hooks/useQuiz.ts:186 | the overdue term is clamped to [0, 1.5] |
| QuizPriority.LayerGap | src/hooks/useQuiz.ts:195-197 | the layer gap is in [0, 1] for a positive target rate |
| QuizPriority.Priority | src/hooks/useQuiz.ts:180-212 | the priority is at least the 0.1 floor (and at most 6.9) |
| QuizPriority.FreshQuestionPriority | src/hooks/useQuiz.ts:180-212 | a never-answered question outside a boosted writing tag, in a tag with no attempts, scores exactly 1.0 + 0.8 * 1.5 + 0.35 = 2.55 |
| QuizPriority.Weight | src/hooks/useQuiz.ts:155-163 | a weight is `Math.pow(priority, e)` for the mode's exponent, floored at 0.05 |
| QuizPriority.Candidates | src/hooks/useQuiz.ts:152 | the candidates are exactly the pool questions with an unused id whose tag has fewer than 3 picks |
| QuizPriority.Weights | src/hooks/useQuiz.ts:155-163 | one weight per candidate, each at least 0.05 |
| QuizPriority.WeightSumPositive | src/hooks/useQuiz.ts:165-166 | n weights of at least 0.05 sum to at least 0.05 n, so the `sum <= 0` fallback cannot run when candidates exist |
| QuizPriority.ScaleInRange | src/hooks/useQuiz.ts:168 | `Math.random() * sum` lies in [0, sum) for a positive sum |
| QuizPriority.Walk | src/hooks/useQuiz.ts:168-173 | the walk always lands on a row of the list |
| QuizPriority.WalkLandsInRange | src/hooks/useQuiz.ts:168-173 | for r in (0, sum] the walk stops on the row whose cumulative range holds r |
| QuizPriority.WalkRest | src/hooks/useQuiz.ts:169-172 | the walk stops at the first row that brings r to zero or below and otherwise moves on with the remainder |
| QuizPriority.WalkRows | src/hooks/useQuiz.ts:169-173 | the `r -= weight` loop returns the row of the walk |
| QuizPriority.PickWeightedQuestion | src/hooks/useQuiz.ts:143-174 | nothing is picked exactly when no pool question is unused with fewer than 3 picks in its tag; a pick is such a candidate and is the weighted walk's choice |
| Shuffle.Draw | src/hooks/useQuiz.ts:19 | `Math.floor(Math.random() * n)` is an index below n |
| Shuffle.SwapPermutes | src/hooks/useQuiz.ts:20 | one swap keeps the multiset of elements |
| Shuffle.FisherYatesPermutes | src/hooks/useQuiz.ts:18-21 | the swaps from index i down keep the length and the multiset |
| Shuffle.ShuffledPermutes | src/hooks/useQuiz.ts:16-23 | the shuffle is a permutation of its input |
| Shuffle.ShuffledMembers | src/hooks/useQuiz.ts:16-23 | the shuffle holds exactly the elements of its input |
| Shuffle.ShuffleCopy | src/hooks/useQuiz.ts:16-23 | the copy-and-swap method returns the specified shuffle for its draws, a permutation of the input |
| Shuffle.ShuffleArray | src/hooks/useQuiz.ts:17-22 | the in-place loop on the array copy produces the Fisher–Yates swaps from the last index down, using one draw per swap |
| Shuffle.SwapAt | src/hooks/useQuiz.ts:20 | the in-place swap leaves the array as the swapped sequence |
| QuizSets.DailyPlansMix | src/hooks/useQuiz.ts:129-141 | `buildDailyPlans(total)` has `total` plans; for 7 it is a permutation of 3 normal, 2 weak, 1 overdue and 1 surprise; above 7 only normal plans are added |
| QuizSets.FilterAvailable | src/hooks/useQuiz.ts:176-178 | exactly the pool questions with an unused id |
| QuizSets.WeakPool | src/hooks/useQuiz.ts:35 | exactly the weak catalog questions |
| QuizSets.OverduePool | src/hooks/useQuiz.ts:36 | exactly the overdue catalog questions |
| QuizSets.UnseenPool | src/hooks/useQuiz.ts:37 | exactly the catalog questions without a record |
| QuizSets.PickForPlan | src/hooks/useQuiz.ts:42-74 | the pick chain of one plan picks an available catalog question, and picks nothing only when no catalog question is available; when the plan's own pool (weak, overdue, or the catalog) has an available question the pick is the weighted pick from it with the plan's weights; otherwise, when the fallback pool (the unseen questions for a normal plan if there are any, else the catalog) has one, the pick is the normal-weighted pick from it |
| QuizSets.DailyPush | src/hooks/useQuiz.ts:76-79 | recording an available pick keeps the picks distinct, within the per-tag cap and in step with `usedIds` and `pickedTagCount` |
| QuizSets.DailyFinish | src/hooks/useQuiz.ts:98 | the final shuffle keeps distinct ids, the cap and the "short only when exhausted" property |
| QuizSets.BuildDailySet | src/hooks/useQuiz.ts:26-99 | at most 7 catalog questions with distinct ids and at most 3 per tag; a set shorter than 7 leaves out only questions whose tag already has 3 picks |
| QuizSets.MissedQuestions | src/hooks/useQuiz.ts:103-104 | exactly the catalog questions with a recorded miss |
| QuizSets.RepairSetContents | src/hooks/useQuiz.ts:102-117 | the repair set holds only missed questions, min(10, #missed) of them, and is empty exactly when nothing was ever missed |
| QuizSets.RepairSetRanked | src/hooks/useQuiz.ts:103-113 | every chosen question's miss rate is at least that of every missed question left out |
| QuizSets.ByMissRateDescTotal | src/hooks/useQuiz.ts:111 | the comparator of the repair ranking is a total preorder |
| QuizSets.EasyQuestions | src/hooks/useQuiz.ts:261-262 | exactly the catalog questions tagged radical, stroke count or reading |
| QuizSets.TrialSetContents | src/hooks/useQuiz.ts:260-264 | min(3, #easy) questions, all easy |
| QuizSets.DefaultSetContents | src/hooks/useQuiz.ts:323-324 | the default set is min(7, #catalog) catalog questions, distinct when the catalog's ids are |
| QuizSets.OfTag | src/hooks/useQuiz.ts:359-364 | `byTag.get(t)` holds exactly the catalog questions tagged t, as many as there are |
| QuizSets.OfTagAppend | src/hooks/useQuiz.ts:360-364 | grouping a concatenation concatenates the groups |
| QuizSets.GroupByTag | src/hooks/useQuiz.ts:359-364 | the grouping loop gives every tag its questions in catalog order |
| QuizSets.PickFrom | src/hooks/useQuiz.ts:369-375 | `pickFrom` appends the first `count` questions of a shuffle of the unused pool to `picked` and their ids to `usedIds` |
| QuizSets.TakeInto | src/hooks/useQuiz.ts:371-374 | the push loop appends exactly the first min(count, length) shuffled questions and their ids |
| QuizSets.TakenFacts | src/hooks/useQuiz.ts:369-375 | what one `pickFrom` adds comes from the pool, has unused ids, is min(count, #available) long, and is distinct when the pool is |
| QuizSets.RunBlueprint | src/hooks/useQuiz.ts:425-427 | after one `pickFrom` per blueprint row, every pick comes from the catalog within its tag's quota, and with distinct ids and tags each tag has min(quota, available) picks |
| QuizSets.BuildExam | src/hooks/useQuiz.ts:393-430 | an exam has at most the blueprint's total, only questions of tags with a quota, at most the quota per tag, and exactly min(quota, available) distinct questions per tag when the catalog ids are distinct |
| QuizSets.ShortBlueprintTotal | src/hooks/useQuiz.ts:377-390 | the short exam asks 19 questions, so `slice(0, 20)` never cuts and it never has 20 |
| QuizSets.ShortBlueprintCoversTags | src/hooks/useQuiz.ts:377-388 | the short exam asks every tag at least once |
| QuizSets.ShortBlueprintQuotas | src/hooks/useQuiz.ts:377-388 | the short exam asks 4 writing, 2 reading, 2 on/kun, 1 radical and 1 okurigana question |
| QuizSets.FullBlueprintTotal | src/hooks/useQuiz.ts:412-423 | the full exam asks 50 questions |
| QuizSets.FullBlueprintQuotas | src/hooks/useQuiz.ts:412-423 | the full exam has no okurigana row, and asks 10 writing, 10 reading, 3 jukugo and 1 radical question |
| QuizSets.BlueprintsDistinct | src/hooks/useQuiz.ts:377-423 | neither blueprint names a tag twice |
| QuizSets.BuildExamShort | src/hooks/useQuiz.ts:358-391 | at most 19 catalog questions, within the quotas, and min(quota, available) distinct questions per tag when the catalog ids are distinct |
| QuizSets.BuildExamFull | src/hooks/useQuiz.ts:393-430 | at most 50 catalog questions, none okurigana, within the quotas, and min(quota, available) distinct questions per tag when the catalog ids are distinct |
| QuizSets.GroupLayerTags | src/hooks/useQuiz.ts:273-280 | the layer grouping keeps, per layer tag, the catalog questions of that tag in order, and nothing for other tags |
| QuizSets.PickOnePerTag | src/hooks/useQuiz.ts:283-288 | one question of each layer tag that has questions, skipping the others, with the picked ids recorded |
| QuizSets.RestFacts | src/hooks/useQuiz.ts:290-291 | the fill-up questions are unused questions of the layer, distinct when the catalog's ids are |
| QuizSets.LayerFinish | src/hooks/useQuiz.ts:292 | the final shuffle keeps only layer questions, covers every layer tag that has questions and keeps ids distinct |
| QuizSets.BuildLayerSetOf | src/hooks/useQuiz.ts:271-292 | the layer branch: at most 10 questions of the layer's tags, at least one of each tag that has questions, distinct when the catalog's ids are |
| QuizSets.BuildLayerSet | src/hooks/useQuiz.ts:267-293 | without a layer for the depth, the first 10 of a catalog shuffle; with one, at most 10 distinct questions of its tags covering every tag that has questions |
| Session.QuizSession.constructor | src/hooks/useQuiz.ts:296-299 | the hook starts at index 0 with no questions, no answers and not running |
| Session.QuizSession.CurrentQuestion | src/hooks/useQuiz.ts:343 | there is a current question exactly when the index is inside the list, and it is one of the quiz's questions |
| Session.QuizSession.Progress | src/hooks/useQuiz.ts:344 | progress is the 1-based position, within the list when it is not empty, and the list's length |
| Session.BuildModeSet | src/hooks/useQuiz.ts:303-325 | the set of each mode holds only catalog questions and keeps that mode's builder's promises: the repair, trial and default sets exactly; daily at most seven distinct ids, at most three per tag, and short only when every other question is taken or its tag full; layer at most ten, distinct when the catalog is, the first ten of a shuffle without a layer and otherwise only the layer's tags with one question of each tag the catalog has; each exam at most its size, no tag over its quota and, with distinct catalog ids, distinct questions and min(quota, available) per tag; the full exam no okurigana |
| Session.QuizSession.StartQuiz | src/hooks/useQuiz.ts:302-331 | starting sets index 0, no answers and running, even on an empty set (then there is no current question); the set meets `ModeSetSound`, what `BuildModeSet` promises of the mode's set |
| Session.QuizSession.SubmitAnswer | src/hooks/useQuiz.ts:333-341 | a submit appends exactly its record; it moves to the next question when one follows and otherwise stops the quiz on the last one |
| Session.QuizSession.AnswerAll | src/hooks/useQuiz.ts:333-341 | N submits on a started quiz of N ≥ 1 questions leave the records in call order, the quiz stopped, and the last question current |
| Ledger.AnswerQuestion | src/hooks/useHistory.ts:100-117 | the question's record (created at zeros and false when missing) gets correct+1, streak+1 and result correct on a right answer, or miss+1, streak 0, result miss and the answer's error type only when it carries one; either way it is answered today, keeps its bookmark, and no other record changes |
| Ledger.CountAnswer | src/hooks/useHistory.ts:119-123 | exactly one counter of the answer's tag grows by one, from zeros when the tag had no statistics; other tags keep theirs |
| Ledger.StreakRewards | src/hooks/useHistory.ts:125-139 | a miss changes no mineral; a correct answer adds quartz exactly on the question's first correct answer, pyrite exactly when the streak becomes 3, fossil exactly when the streak becomes 3 after an earlier miss |
| Ledger.ApplyMilestoneMineralRewards | src/hooks/useHistory.ts:214-227 | each counter grows by the number of catalog rules for it that fire (tag matches, perfect writing when required, tag's correct count a positive multiple of the period); a miss changes nothing |
| Ledger.GainStep | src/hooks/useHistory.ts:217-226 | one more rule bumps its mineral exactly when it fires |
| Ledger.NoGainOnMiss | src/hooks/useHistory.ts:215 | a miss fires no milestone rule |
| Ledger.AddIfNewFacts | src/hooks/useHistory.ts:231-233 | `addIfNew` keeps the list as a prefix, makes the id a member, adds nothing else and never duplicates |
| Ledger.TotalHistoryCorrect | src/hooks/useHistory.ts:236-237 | the total of correct answers over the records is at least 1 exactly when some record has a correct answer |
| Ledger.MaxConsecutiveCorrect | src/hooks/useHistory.ts:240 | the maximum streak bounds every record's streak and is 0 or some record's streak |
| Ledger.CheckBadge | src/hooks/useHistory.ts:231-233 | one check adds its badge, when earned and not yet held, to the list of the checks before it |
| Ledger.HistoryBadgeChecks | src/hooks/useHistory.ts:236-242 | the first-correct and streak checks give the first three steps of the badge list |
| Ledger.OtherBadgeChecks | src/hooks/useHistory.ts:245-262 | the writing, all-tags, exam and daily checks complete the badge list |
| Ledger.RunBadgeChecks | src/hooks/useHistory.ts:236-262 | the seven checks in source order produce the specified badge list |
| Ledger.AwardedFacts | src/hooks/useHistory.ts:229-265 | after the first n checks the old list is a prefix, the new entries are exactly the earned badges not held before, and none repeats |
| Ledger.AwardedAll | src/hooks/useHistory.ts:229-265 | the same facts over all seven badges |
| Ledger.AllBadgesComplete | src/hooks/useHistory.ts:237-262 | every badge is checked |
| Ledger.CheckAndAwardBadges | src/hooks/useHistory.ts:229-265 | the old badge list is a prefix of the new one; an id is in the new list exactly when it was held or its badge is earned; no added id was held before or is added twice |
| Ledger.UpdateDayStreak | src/hooks/useHistory.ts:144-156 | a second study on the same day changes nothing; otherwise the streak is +1 after yesterday and 1 after any other day; afterwards the last study date is today; nothing else in the profile changes |
| Ledger.RecordAnswer | src/hooks/useHistory.ts:95-163 | `recordAnswer` composes the steps: every record fact of `AnswerQuestion` (counters, run, last result, error type, date, bookmark) and every tag fact of `CountAnswer`, the mineral gains (streak rewards plus milestones, nothing on a miss), badges checked on the updated records with the previous day streak, the day streak rule, the title recomputed on the new state, and profile name, creation date, version and exam results unchanged |
| Ledger.BestExam | src/hooks/useHistory.ts:192 | the best score is at least 0, bounds every exam score, and is 0 or some exam's score |
| Ledger.BestExamAppend | src/hooks/useHistory.ts:192 | another exam result never lowers the best score and is bounded by it |
| Ledger.TitleLadder | src/hooks/useHistory.ts:191-208 | the title checks in order: professor exactly when some exam scored 170 or more, doctor for 140, researcher for 120, then assistant when all attempted tags are at 50% or better and some tag was attempted, then surveyor for 100 correct answers, else trainee |
| Ledger.TitleMonotoneInExams | src/hooks/useHistory.ts:191-208 | recording an exam result never lowers the title |
| Ledger.TitleMonotoneInBest | src/hooks/useHistory.ts:192-195 | a better best exam never lowers the title |
| Ledger.WithCorrectFacts | src/hooks/useHistory.ts:197-204 | one more correct answer keeps every tag at half or better that was, makes a tag attempted and does not lower the total |
| Ledger.TitleMonotoneInStats | src/hooks/useHistory.ts:196-207 | statistics that keep every title condition the old ones met never lower the title |
| Ledger.CorrectAnswerNeverLowersTitle | src/hooks/useHistory.ts:191-208 | a correct answer never lowers the title |
| Ledger.GetTagRate | src/hooks/useHistory.ts:174-180 | the tag rate is 0 without statistics or attempts and otherwise correct / (correct + miss), in [0, 1] |
| Ledger.ToggleBookmark | src/hooks/useHistory.ts:165-172 | only the existing record's flag flips; without a record nothing changes; no other record or field changes |
| Ledger.ToggleTwice | src/hooks/useHistory.ts:165-172 | two toggles restore the state |
| Ledger.InitialState | src/hooks/useHistory.ts:14-40 | a fresh state is well formed (version 3, all 11 tags, every catalog mineral), all counters are zero, and its title is trainee |
| Ledger.InitialMaps | src/hooks/useHistory.ts:14-40 | a fresh state holds zero statistics for every tag and a zero counter for exactly the catalog's minerals |
| Ledger.Overlay | src/hooks/useHistory.ts:53-61 | merging stored entries over defaults keeps the keys of both, and a key's value is the stored one when stored and the default otherwise |
| Ledger.NormalizeState | src/hooks/useHistory.ts:42-64 | a normalised state has version 3 and every tag and catalog mineral; the stored profile fields override the initial profile field by field; each stored tag statistic and mineral counter overrides its zero default and stored extra minerals are kept; stored history, exam results and badges are kept and missing ones become empty |
| Ledger.LoadState | src/hooks/useHistory.ts:66-78 | loading gives the defaults without an entry, on a parse error and for a stored version above 3, and the normalised stored state for any other parsed entry; any load is well formed |
| Ledger.SaveLoadRoundTrip | src/hooks/useHistory.ts:66-82 | saving a well-formed state and loading it back gives the same state |
| Dates.Decimal | src/hooks/useHistory.ts:267-272 | `String(n)` is a non-empty run of decimal digits, one digit below 10 and two below 100 |
| Dates.ParseDecimalInverse | src/hooks/useHistory.ts:267-272 | a number's decimal text reads back as the number |
| Dates.TwoDigits | src/hooks/useHistory.ts:269-270 | a month or day padded to two digits has two characters and reads back as itself |
| Dates.DateStringRoundTrip | src/hooks/useHistory.ts:267-272 | `localDateString` has its dashes in fixed places, ten characters for a four-digit year, and reads back as the date it was made from |
| Dates.DateStringInjective | src/hooks/useHistory.ts:267-272 | different dates never share a text, so comparing texts compares days |
| Dates.LeadingZeros | src/hooks/useHistory.ts:269-270 | leading zeros do not change the value a digit run reads as |
| KanjiSpecimens.Find | src/utils/kanjiSpecimens.ts:18 | `kanjiMap.get(k)` finds the entry of k when there is one, and nothing only when no entry has kanji k |
| KanjiSpecimens.GroupedStep | src/utils/kanjiSpecimens.ts:16-24 | one more writing question appends its id to the entry of a known answer, or adds a new entry at the end with its id and its example |
| KanjiSpecimens.GroupedStepKnown | src/utils/kanjiSpecimens.ts:19-20 | a known answer's entry gains the id and nothing else changes |
| KanjiSpecimens.GroupedStepNew | src/utils/kanjiSpecimens.ts:21-22 | an unknown answer gets a new last entry holding its id and the question's context, or its text when the context is empty |
| KanjiSpecimens.KanjisKnown | src/utils/kanjiSpecimens.ts:19-20 | a question with a known answer adds no kanji |
| KanjiSpecimens.KnownEntry | src/utils/kanjiSpecimens.ts:19-20 | with a known answer, that answer's ids gain the question's id and every entry keeps its example |
| KanjiSpecimens.GroupedInOrderSnoc | src/utils/kanjiSpecimens.ts:16-24 | the loop's map after one more question is the old map with that question added |
| KanjiSpecimens.GroupedInOrderIsGrouped | src/utils/kanjiSpecimens.ts:16-24 | the loop's map, entry by entry, is the declarative grouping |
| KanjiSpecimens.GroupByAnswer | src/utils/kanjiSpecimens.ts:14-24 | the first loop builds the grouping of the writing questions |
| KanjiSpecimens.GroupedFacts | src/utils/kanjiSpecimens.ts:14-24 | one entry per distinct answer, in order of first appearance, holding its questions' ids in order and the first question's example; every answer has an entry |
| KanjiSpecimens.Tally | src/utils/kanjiSpecimens.ts:28-38 | the inner loop sums `correct` and `miss` over the ids that have a history, and `attempted` holds exactly when one of them has |
| KanjiSpecimens.TalliedSnoc | src/utils/kanjiSpecimens.ts:27-41 | one more entry appends one specimen |
| KanjiSpecimens.SortSpecimens | src/utils/kanjiSpecimens.ts:43-46 | the in-place sort gives the specimens ordered by status rank, then by kanji |
| KanjiSpecimens.BuildKanjiSpecimens | src/utils/kanjiSpecimens.ts:12-49 | the method computes the specified cabinet: the sorted tallies of the grouped writing questions |
| KanjiSpecimens.SpecimensOnePerAnswer | src/utils/kanjiSpecimens.ts:13-24 | a kanji has a specimen exactly when it answers some writing question; other tags are ignored |
| KanjiSpecimens.SpecimensDistinct | src/utils/kanjiSpecimens.ts:14-24 | no two specimens share a kanji |
| KanjiSpecimens.SpecimensMembers | src/utils/kanjiSpecimens.ts:26-46 | the specimens are exactly the tallied entries |
| KanjiSpecimens.SpecimenContents | src/utils/kanjiSpecimens.ts:16-40 | a specimen holds the ids of exactly the writing questions with its answer, in catalog order; its counts are the sums over their histories; gold iff correct > 0, silver iff answered but never correctly, gray iff never answered; its example is the first such question's |
| KanjiSpecimens.EachIdOnce | src/utils/kanjiSpecimens.ts:16-24 | with distinct question ids, a writing question's id is in exactly one specimen, the one of its answer |
| KanjiSpecimens.FirstExampleMeaning | src/utils/kanjiSpecimens.ts:21-22 | the example comes from the first writing question with the answer |
| KanjiSpecimens.CorrectMeansAnswered | src/utils/kanjiSpecimens.ts:39 | a positive correct total means some id was answered, so gold specimens were attempted |
| KanjiSpecimens.SpecimenOrderTotal | src/utils/kanjiSpecimens.ts:43-46 | the specimen order is a total preorder when the locale order is one |
| KanjiSpecimens.SpecimensSorted | src/utils/kanjiSpecimens.ts:43-46 | the cabinet is sorted gold, silver, gray and by kanji within a status, and is a permutation of the tallied entries |
| BankText.KatakanaToHiraganaChars | scripts/generate_onkun_homophone_from_ocr.mjs:105-109 | the conversion keeps the length, moves each character of ァ..ヶ down by 0x60 code points (ヴ to ゔ) and leaves every other character alone |
| BankText.KatakanaToHiraganaIdempotent | scripts/generate_onkun_homophone_from_ocr.mjs:105-109 | no katakana survives the conversion, so converting twice is converting once |
| BankText.KatakanaWordToReading | scripts/generate_onkun_homophone_from_ocr.mjs:105-109 | a word of katakana and ー becomes a word of reading characters (ぁ..ゖ and ー) |
| BankText.CodeUnits | scripts/generate_onkun_homophone_from_ocr.mjs:113-114 | `charCodeAt` sees one code unit for a character of the Basic Multilingual Plane and a surrogate pair otherwise |
| BankText.Utf16 | scripts/generate_onkun_homophone_from_ocr.mjs:113 | a text has at least as many code units as characters |
| BankText.Utf16Bmp | scripts/generate_onkun_homophone_from_ocr.mjs:113-114 | on Basic Multilingual Plane text the code units are the characters, one each |
| BankText.FnvAppend | scripts/generate_onkun_homophone_from_ocr.mjs:113-116 | the FNV-1a loop composes: hashing `a + b` continues from the hash of `a` |
| BankText.HashStringSnoc | scripts/generate_onkun_homophone_from_ocr.mjs:113-116 | the hash of a text extends by the code units of its next character |
| BankText.HashString | scripts/generate_onkun_homophone_from_ocr.mjs:111-118 | the loop with 32-bit xor and `Math.imul` computes FNV-1a over the UTF-16 code units |
| BankText.HashVectors | scripts/generate_onkun_homophone_from_ocr.mjs:111-118 | the empty text hashes to the offset basis 2166136261 and "a" to the published 0xe40c292c |
| BankText.Mulberry32.constructor | scripts/generate_onkun_homophone_from_ocr.mjs:120-121 | the generator state starts at the seed |
| BankText.Mulberry32.Next | scripts/generate_onkun_homophone_from_ocr.mjs:122-127 | each call adds 0x6D2B79F5 to the state modulo 2^32 and returns the mixed state divided by 2^32 |
| BankText.NextDraw | scripts/generate_onkun_homophone_from_ocr.mjs:120-127 | after `k` calls the generator is in the state of `k` increments and its next value is draw `k` of the seed's stream |
| BankText.SeededShuffle | scripts/generate_onkun_homophone_from_ocr.mjs:236-241 | seeding a generator and running the backward Fisher–Yates loop leaves the array as the shuffle of its old contents by that seed's stream |
| BankText.SeededLoop | scripts/generate_onkun_homophone_from_ocr.mjs:238-241 | the loop from the last index down to 1 on a fresh generator performs the whole shuffle |
| BankText.SeededSwap | scripts/generate_onkun_homophone_from_ocr.mjs:239-240 | one pass draws `floor(u * (i + 1))`, swaps, and advances the generator by one call |
| BankText.KeyedShuffleFacts | scripts/generate_onkun_homophone_from_ocr.mjs:236-241 | a keyed shuffle keeps the length, the multiset and the members of its input, and keeps distinct values distinct |
| BankText.ShuffleWithKey | scripts/generate_onkun_homophone_from_ocr.mjs:236-241 | hashing the key, seeding and shuffling a copy gives the keyed shuffle of the input |
| BankText.FisherYatesStep | scripts/generate_onkun_homophone_from_ocr.mjs:238-241 | the shuffle from index `i` is one swap with the drawn index followed by the shuffle from `i - 1` |
| BankText.NormalizeKeyFacts | scripts/generate_onkun_homophone_from_ocr.mjs:130-135 | a character is in the key exactly when it is in the text and is neither whitespace (ideographic space included) nor a bracket; normalising is idempotent |
| BankText.StripNothing | scripts/generate_onkun_homophone_from_ocr.mjs:132-133 | removing characters a text does not contain leaves it unchanged |
| BankText.TrailingDigits | scripts/generate_onkun_homophone_from_ocr.mjs:157-158 | `/(\d+)$/` picks a suffix of ASCII digits that cannot be extended to the left |
| BankText.FormatIdRoundTrip | scripts/generate_onkun_homophone_from_ocr.mjs:296 | an id formatted as prefix plus three-place padded number reads back as the number both through the digit suffix of the sort and through the prefix removal of `nextId` |
| BankText.PaddedDecimal | scripts/generate_onkun_homophone_from_ocr.mjs:296 | `padStart(3, '0')` of a decimal is a digit run that reads back as the number |
| BankText.DigitsSuffix | scripts/generate_onkun_homophone_from_ocr.mjs:157 | the trailing digit run of a letter prefix followed by digits is exactly those digits |
| BankText.FormatIdInjective | scripts/generate_onkun_homophone_from_ocr.mjs:296 | two formatted ids with the same prefix are equal exactly when their numbers are |
| BankText.IdValues | scripts/generate_onkun_homophone_from_ocr.mjs:165-168 | the values are exactly the finite numbers left by removing the prefix from the ids of the tag |
| BankText.MaxOf | scripts/generate_onkun_homophone_from_ocr.mjs:169 | the reduce from 0 bounds every value and is 0 or one of them |
| BankText.NextId | scripts/generate_onkun_homophone_from_ocr.mjs:164-171 | at least 1, above every numbered id of the tag, and one more than such a number unless it is 1 |
| BankText.FreshId | scripts/generate_onkun_homophone_from_ocr.mjs:164-171 | an id formatted from a number at or past `nextId` is held by no question of that tag |
| BankText.BankOrderTotal | scripts/generate_onkun_homophone_from_ocr.mjs:153-161 | the comparator by tag rank, numeric id suffix and then id is a total preorder when the locale order is one |
| BankText.SortQuestions | scripts/generate_onkun_homophone_from_ocr.mjs:137-162 | sorting the bank in an array gives the stable sort of the bank by that comparator |
| BankText.SortedBank | scripts/generate_onkun_homophone_from_ocr.mjs:137-162 | the sorted bank is a permutation of the bank, in tag order, by numeric id suffix within a tag, and by `localeCompare` on the ids within one suffix |
| BankText.NumberedSource | scripts/generate_onkun_homophone_from_ocr.mjs:295-308 | the pushed questions are the kept drafts in order, carrying consecutive ids from the counter's start |
| BankText.PushNumbered | scripts/generate_onkun_homophone_from_ocr.mjs:295-308 | the push loop with a counter advanced after each push gives the numbered drafts |
| BankText.NumberedIdsFresh | scripts/generate_onkun_homophone_from_ocr.mjs:271-308 | ids numbered from `nextId` on are formatted ids that no existing question of the tag has |
| BankText.KeyedNumberedSource | scripts/generate_onkun_homophone_from_ocr.mjs:344-383 | the pushed questions are drafts in order whose key was not in the bank and no two of which share a key, with consecutive ids |
| BankText.PushKeyed | scripts/generate_onkun_homophone_from_ocr.mjs:344-383 | the push loop that adds each key to `existingKeys` gives the keyed numbering |
| OnKunBank.ParseFormat | scripts/generate_onkun_homophone_from_ocr.mjs:173-191 | parsing a formatted entry gives the entry back when it has no kun; with kun it gives the first on reading, with the second on reading taking the kun's place when there is one |
| OnKunBank.ParseFormatKun | scripts/generate_onkun_homophone_from_ocr.mjs:180-190 | the kun case of that: `on・…・kun` splits on ・ and keeps only the first two parts |
| OnKunBank.ParseFormatOnOnly | scripts/generate_onkun_homophone_from_ocr.mjs:176-189 | an on-only entry formatted with （音のみ） parses back to itself |
| OnKunBank.OnKunRoundTrip | scripts/generate_onkun_homophone_from_ocr.mjs:173-191 | format then parse is the identity exactly when the entry has no kun or a single on reading |
| OnKunBank.EasyDoesNotRoundTrip | scripts/generate_onkun_homophone_from_ocr.mjs:74 | the built-in 易 (on エキ・イ, kun やさしい) formats as エキ・イ・やさしい and parses back as on エキ, kun イ |
| OnKunBank.PoolSlotOf | scripts/generate_onkun_homophone_from_ocr.mjs:196-202 | an on/kun question contributes to the pool only under a trimmed context of one kanji |
| OnKunBank.BuildOnKunPool | scripts/generate_onkun_homophone_from_ocr.mjs:193-208 | the loops build the pool of parsed bank entries filled in from the built-in table |
| OnKunBank.LastParsed | scripts/generate_onkun_homophone_from_ocr.mjs:195-202 | a parsed entry is only found under a single-kanji key |
| OnKunBank.ParsedPoolGet | scripts/generate_onkun_homophone_from_ocr.mjs:195-202 | the bank part of the pool reads, for each kanji, the last question about it whose answer parses (later `map.set` overwrites) |
| OnKunBank.FillMissingGet | scripts/generate_onkun_homophone_from_ocr.mjs:204-206 | the built-in table only fills kanji the bank left out |
| OnKunBank.OnKunPoolGet | scripts/generate_onkun_homophone_from_ocr.mjs:193-208 | the pool reads the bank's last parsed entry for a kanji, and the built-in table only for kanji the bank does not cover |
| OnKunBank.OnKunPoolDistinct | scripts/generate_onkun_homophone_from_ocr.mjs:193-208 | the pool has one entry per kanji |
| OnKunBank.ParsedPoolDistinct | scripts/generate_onkun_homophone_from_ocr.mjs:194-203 | the bank part has one entry per kanji |
| OnKunBank.FillMissingDistinct | scripts/generate_onkun_homophone_from_ocr.mjs:204-206 | filling from the table keeps one entry per kanji |
| OnKunBank.WritingRecordOf | scripts/generate_onkun_homophone_from_ocr.mjs:212-229 | an accepted writing question has a one-character answer and a hiragana reading of its target, of 1 to 12 reading characters and at least the minimum length |
| OnKunBank.WritingRecordsMembers | scripts/generate_onkun_homophone_from_ocr.mjs:210-232 | the records are exactly those of the accepted writing questions |
| OnKunBank.BuildWritingRecords | scripts/generate_onkun_homophone_from_ocr.mjs:210-232 | the loop collects the record of each accepted writing question in bank order |
| OnKunBank.PickDistractors | scripts/generate_onkun_homophone_from_ocr.mjs:234-243 | the distractors are the first `count` of the keyed shuffle of the labels other than the correct one |
| OnKunBank.DistractorsFacts | scripts/generate_onkun_homophone_from_ocr.mjs:234-243 | never the correct label, only labels from the list, `min(count, others)` of them, distinct when the labels are |
| OnKunBank.CutSentence | scripts/generate_onkun_homophone_from_ocr.mjs:254 | `/。.*$/` removes from the first 。 whose rest has no line terminator, and nothing if there is none |
| OnKunBank.HomophoneContextRoundTrip | scripts/generate_onkun_homophone_from_ocr.mjs:245-248 | the blank replaces the first occurrence of the answer, and putting the answer back restores the sentence |
| OnKunBank.HomophoneTargetOf | scripts/generate_onkun_homophone_from_ocr.mjs:245-258 | the target is the trimmed text before the answer or the trimmed rest of its sentence after it, each around the blank, and the bare blank otherwise |
| OnKunBank.HomophoneTargetShape | scripts/generate_onkun_homophone_from_ocr.mjs:250-258 | every target holds the blank at its start or its end |
| OnKunBank.ChoicesOf | scripts/generate_onkun_homophone_from_ocr.mjs:305 | one choice per label, in order, with no meaning |
| OnKunBank.LabelsOf | scripts/generate_onkun_homophone_from_ocr.mjs:330 | one label per choice, in order |
| OnKunBank.LabelsOfChoices | scripts/generate_onkun_homophone_from_ocr.mjs:305 | reading the labels back from the choices gives the labels |
| OnKunBank.InPoolPrefix | scripts/generate_onkun_homophone_from_ocr.mjs:273-279 | a prefix of candidate kanji all in the pool stays in the pool |
| OnKunBank.OnKunDrafts | scripts/generate_onkun_homophone_from_ocr.mjs:278-309 | one draft per candidate kanji |
| OnKunBank.OnKunDraftsAt | scripts/generate_onkun_homophone_from_ocr.mjs:278-309 | the draft at position `j` is the loop body for the `j`-th kanji |
| OnKunBank.RecordAnswers | scripts/generate_onkun_homophone_from_ocr.mjs:273 | the answers of the records, in order |
| OnKunBank.CandidateCharsFacts | scripts/generate_onkun_homophone_from_ocr.mjs:273-276 | the candidate kanji are distinct answers of writing records, in the pool, with no on/kun question of their own in the bank |
| OnKunBank.GenerateOnKunQuestions | scripts/generate_onkun_homophone_from_ocr.mjs:260-312 | the generator's output is the modelled list of additions |
| OnKunBank.OnKunLoop | scripts/generate_onkun_homophone_from_ocr.mjs:278-309 | the loop numbers the drafts that exist with consecutive ids from the counter |
| OnKunBank.MakeOnKunDrafts | scripts/generate_onkun_homophone_from_ocr.mjs:278-309 | the first pass collects the draft of each kanji |
| OnKunBank.OnKunDraftsSnoc | scripts/generate_onkun_homophone_from_ocr.mjs:278-309 | the drafts of one more kanji are the earlier drafts plus that kanji's |
| OnKunBank.MakeOnKunDraft | scripts/generate_onkun_homophone_from_ocr.mjs:279-307 | a kanji gets a question unless fewer than three distractors exist; the four labels are shuffled by the key `ok-choice:` |
| OnKunBank.ShuffledChoices | scripts/generate_onkun_homophone_from_ocr.mjs:284-289 | the shuffled labels are four, hold the answer, hold nothing but the answer and the distractors, and are distinct when the distractors are |
| OnKunBank.ReorderedChoices | scripts/generate_onkun_homophone_from_ocr.mjs:284-289 | any reordering of the answer and three other distractors keeps those facts |
| OnKunBank.OnKunDraftFacts | scripts/generate_onkun_homophone_from_ocr.mjs:291-307 | a draft asks about its own kanji, with the formatted pool entry as answer, difficulty 2 with kun and 3 without, the generated source, 2 points and four labels from the label list |
| OnKunBank.OnKunDraftsGood | scripts/generate_onkun_homophone_from_ocr.mjs:278-309 | every draft the loop makes is such a question about its kanji |
| OnKunBank.NumberedOnKun | scripts/generate_onkun_homophone_from_ocr.mjs:295-308 | numbering good drafts keeps them good and gives consecutive ids, one question per kanji |
| OnKunBank.GeneratedOnKunFacts | scripts/generate_onkun_homophone_from_ocr.mjs:260-312 | addition `i` has id ok plus `nextId + i` padded, which no on/kun question has; it asks about a kanji answered in a writing record and not yet asked, its four labels are distinct and hold the answer; no two additions ask about the same kanji |
| OnKunBank.OnKunFromPoolFacts | scripts/generate_onkun_homophone_from_ocr.mjs:268-311 | those facts for any pool |
| OnKunBank.NumberedDraftsFacts | scripts/generate_onkun_homophone_from_ocr.mjs:271-308 | numbering good drafts of candidate kanji from `nextId` gives such additions |
| OnKunBank.OnKunAdditionsFacts | scripts/generate_onkun_homophone_from_ocr.mjs:271-308 | that statement, over abstract values |
| HomophoneBank.FirstRecord | scripts/generate_onkun_homophone_from_ocr.mjs:321-326 | the record kept for a reading and answer is the first one with both, and there is none only when no record has both |
| HomophoneBank.BuildReadingGroups | scripts/generate_onkun_homophone_from_ocr.mjs:321-326 | the grouping loop builds the modelled map of reading to (answer to record) |
| HomophoneBank.AddRecordLookup | scripts/generate_onkun_homophone_from_ocr.mjs:323-325 | adding a record changes only a pair not yet present, and only to that record |
| HomophoneBank.ReadingGroupsLookup | scripts/generate_onkun_homophone_from_ocr.mjs:321-326 | each reading's group holds, for each answer, the first record with that reading and answer |
| HomophoneBank.GroupOfDistinct | scripts/generate_onkun_homophone_from_ocr.mjs:324 | a group read from the map has one record per answer |
| HomophoneBank.PutGroupDistinct | scripts/generate_onkun_homophone_from_ocr.mjs:323 | storing a group keeps one group per reading |
| HomophoneBank.AddRecordDistinct | scripts/generate_onkun_homophone_from_ocr.mjs:323-325 | adding a record keeps one group per reading and one record per answer |
| HomophoneBank.ReadingGroupsDistinct | scripts/generate_onkun_homophone_from_ocr.mjs:321-326 | the grouping has one group per reading and one record per answer in each |
| HomophoneBank.ChoiceSet | scripts/generate_onkun_homophone_from_ocr.mjs:330 | the set holds exactly the single-character labels of the choices, once each |
| HomophoneBank.BankSetsFrom | scripts/generate_onkun_homophone_from_ocr.mjs:328-330 | every bank set is the single-character label set of some homophone question with choices |
| HomophoneBank.AddOneFacts | scripts/generate_onkun_homophone_from_ocr.mjs:351 | `Set.add` adds exactly its element, keeps the set free of repeats and grows it by at most one |
| HomophoneBank.AddAllFacts | scripts/generate_onkun_homophone_from_ocr.mjs:351 | adding every element of a list adds exactly those |
| HomophoneBank.AbsorbedFacts | scripts/generate_onkun_homophone_from_ocr.mjs:347-352 | the candidate set holds the group's kanji and every bank set sharing one of them, and nothing else |
| HomophoneBank.FillToFacts | scripts/generate_onkun_homophone_from_ocr.mjs:353-356 | topping up keeps the set, adds only pool kanji without repeats, stops short of the whole pool only at 8 and passes 8 only if it started there |
| HomophoneBank.CandidateLabelsFacts | scripts/generate_onkun_homophone_from_ocr.mjs:347-358 | the offered labels are distinct single characters, include every single-character kanji of the group, and each comes from the group, a bank set sharing a kanji with it, or the pool |
| HomophoneBank.BuildCandidateLabels | scripts/generate_onkun_homophone_from_ocr.mjs:347-358 | the loops build the modelled candidate labels |
| HomophoneBank.AbsorbSets | scripts/generate_onkun_homophone_from_ocr.mjs:348-352 | the loop over bank sets absorbs each one that meets the group |
| HomophoneBank.AddEach | scripts/generate_onkun_homophone_from_ocr.mjs:351 | the inner loop adds every element |
| HomophoneBank.FillFromPool | scripts/generate_onkun_homophone_from_ocr.mjs:353-356 | the top-up loop with its break at 8 |
| HomophoneBank.MakeItem | scripts/generate_onkun_homophone_from_ocr.mjs:342-381 | the body of the inner loop for one answer, up to numbering, gives the modelled draft and key |
| HomophoneBank.MakeHomophoneDraft | scripts/generate_onkun_homophone_from_ocr.mjs:359-381 | no question with fewer than three distractors; otherwise the four shuffled labels by key `hp-choice:` |
| HomophoneBank.HomophoneDraftFacts | scripts/generate_onkun_homophone_from_ocr.mjs:359-381 | a draft has tag homophone, 2 points, difficulty 2, the fixed prompt, the target built from its context, four distinct labels holding the answer and otherwise single characters, the source suffixed by the reading, and the explanation answer（reading） |
| HomophoneBank.ItemOfFacts | scripts/generate_onkun_homophone_from_ocr.mjs:342-381 | an item's draft has the blanked sample sentence as context and the normalized context with the answer as key |
| HomophoneBank.AnswerItems | scripts/generate_onkun_homophone_from_ocr.mjs:341-384 | one item per answer visited |
| HomophoneBank.SortedAnswers | scripts/generate_onkun_homophone_from_ocr.mjs:338-341 | the sorted answers are exactly the group's answers, once each |
| HomophoneBank.MakeGroupItems | scripts/generate_onkun_homophone_from_ocr.mjs:337-385 | the loop over a group's sorted answers, skipped for groups of fewer than 2 |
| HomophoneBank.AllItemsSnoc | scripts/generate_onkun_homophone_from_ocr.mjs:337-385 | the items of one more group are the earlier items plus that group's |
| HomophoneBank.MakeAllItems | scripts/generate_onkun_homophone_from_ocr.mjs:337-385 | the outer loop over the sorted groups |
| HomophoneBank.GenerateHomophoneQuestions | scripts/generate_onkun_homophone_from_ocr.mjs:314-388 | the generator's output is the modelled list of additions |
| HomophoneBank.GoodItemsAppend | scripts/generate_onkun_homophone_from_ocr.mjs:337-385 | good items stay good when concatenated |
| HomophoneBank.SampleFacts | scripts/generate_onkun_homophone_from_ocr.mjs:339-342 | the sample of an answer is the first record of its reading and answer, and it has a homophone in a group of two or more |
| HomophoneBank.ItemFromSample | scripts/generate_onkun_homophone_from_ocr.mjs:342-381 | an item built from such a sample is a good homophone question with its own key |
| HomophoneBank.ItemGood | scripts/generate_onkun_homophone_from_ocr.mjs:342-381 | every item of a group of two or more is good |
| HomophoneBank.AnswerItemsAt | scripts/generate_onkun_homophone_from_ocr.mjs:341-384 | item `j` is the loop body on the `j`-th answer |
| HomophoneBank.AnswerItemsGood | scripts/generate_onkun_homophone_from_ocr.mjs:341-384 | all items of such a group are good |
| HomophoneBank.AllItemsGood | scripts/generate_onkun_homophone_from_ocr.mjs:337-385 | all items of all groups are good |
| HomophoneBank.SortedSlots | scripts/generate_onkun_homophone_from_ocr.mjs:337 | the sorted entries of a map without repeated readings are its entries |
| HomophoneBank.SortedGroupsOfRecords | scripts/generate_onkun_homophone_from_ocr.mjs:337 | the sorted entries of `readingGroups` are groups of the records |
| HomophoneBank.WithId | scripts/generate_onkun_homophone_from_ocr.mjs:370 | giving a question an id keeps it good |
| HomophoneBank.NumberedHomophones | scripts/generate_onkun_homophone_from_ocr.mjs:344-383 | the keyed numbering of good items gives good questions with consecutive ids, new keys and no repeated key |
| HomophoneBank.HpAdditionsFacts | scripts/generate_onkun_homophone_from_ocr.mjs:335-383 | numbered from `nextId`, those are additions with fresh hp ids |
| HomophoneBank.GeneratedHomophoneFacts | scripts/generate_onkun_homophone_from_ocr.mjs:314-388 | addition `i` has id hp plus `nextId + i` padded, which no homophone question has; each is a well-formed homophone question for a record's kanji whose reading another kanji shares; no two additions, nor an addition and a bank question, share normalized context and answer |
| OcrBankGeneration.ResetKeepsOrder | scripts/generate_onkun_homophone_from_ocr.mjs:401-407 | the reset keeps every question the filter keeps, with its multiplicity and in bank order, and nothing else |
| OcrBankGeneration.ResetIdempotent | scripts/generate_onkun_homophone_from_ocr.mjs:401-407 | a second reset removes nothing more |
| OcrBankGeneration.ResetUndoesGeneration | scripts/generate_onkun_homophone_from_ocr.mjs:401-414 | resetting a bank to which a run added its on/kun and homophone questions gives the reset of the bank before that run |
| OcrBankGeneration.HpSourcePrefix | scripts/generate_onkun_homophone_from_ocr.mjs:372 | a generated homophone question's source starts with generated-hp-ocr |
| OcrBankGeneration.ExistingKeysIgnore | scripts/generate_onkun_homophone_from_ocr.mjs:315-319 | questions of other tags do not change the existing homophone keys |
| OcrBankGeneration.BankSetsIgnore | scripts/generate_onkun_homophone_from_ocr.mjs:328-330 | questions of other tags do not change the bank's choice sets |
| OcrBankGeneration.IdValuesIgnore | scripts/generate_onkun_homophone_from_ocr.mjs:164-171 | questions of other tags do not change the numbers `nextId` reads |
| OcrBankGeneration.HomophoneIgnoresOthers | scripts/generate_onkun_homophone_from_ocr.mjs:410-413 | the homophone generator adds the same questions whether or not the on/kun additions were pushed first |
| OcrBankGeneration.OnKunAdditionsTagged | scripts/generate_onkun_homophone_from_ocr.mjs:297 | the on/kun additions carry no homophone tag |
| OcrBankGeneration.Regenerate | scripts/generate_onkun_homophone_from_ocr.mjs:390-416 | `main` from the parsed bank to the bank it writes: optional reset, records, on/kun additions pushed, homophone additions pushed, sort |
| OcrBankGeneration.RegeneratedBankFacts | scripts/generate_onkun_homophone_from_ocr.mjs:390-416 | the written bank is a permutation of the (reset) bank and both additions, sorted by tag rank; the additions meet their generators' promises; a later reset drops them again |
| OcrBankGeneration.RunFacts | scripts/generate_onkun_homophone_from_ocr.mjs:409-416 | those facts for one run on an already reset bank |
| OcrBankGeneration.HpAdditionsShift | scripts/generate_onkun_homophone_from_ocr.mjs:413 | homophone additions new to a bank stay new when questions of other tags are appended |
| ReadingBank.TopUpNothingNew | scripts/generate_reading_from_writing.mjs:117-123 | topping up from readings `out` already holds adds nothing |
| ReadingBank.TopUpIsDead | scripts/generate_reading_from_writing.mjs:99-126 | the distractors are the first three of the keyed shuffle of the base: the top-up from `filtered` never adds a reading |
| ReadingBank.ReadingDistractorsFacts | scripts/generate_reading_from_writing.mjs:99-126 | never the answer, only pool readings, no reading twice, three unless the pool has fewer other readings, and all within one character of the answer's length when three such exist |
| ReadingBank.PickReadingDistractors | scripts/generate_reading_from_writing.mjs:99-126 | the function's loops compute the modelled distractors |
| ReadingBank.FirstThree | scripts/generate_reading_from_writing.mjs:111-115 | the copy loop with its break takes the first three |
| ReadingBank.TopUpLoop | scripts/generate_reading_from_writing.mjs:117-123 | the top-up loop stops at the limit and skips readings already taken |
| ReadingBank.SpacesAroundMarks | scripts/generate_onkun_homophone_from_ocr.mjs:132 | removing whitespace keeps the two marks 【 】 and strips the parts between them |
| ReadingBank.BracketsDropMarks | scripts/generate_onkun_homophone_from_ocr.mjs:133 | removing brackets drops the two marks |
| ReadingBank.StripDropsTwo | scripts/generate_onkun_homophone_from_ocr.mjs:132-133 | two pieces a strip removes entirely leave no trace |
| ReadingBank.MarksAreBrackets | scripts/generate_onkun_homophone_from_ocr.mjs:133 | 【 and 】 are among the brackets `normalizeKey` removes |
| ReadingBank.MarksKeepKey | scripts/generate_reading_from_writing.mjs:37-42 | the key of a text with marks around a part is the key without them |
| ReadingBank.MarkedContextKey | scripts/generate_reading_from_writing.mjs:128-131 | a marked context and the unmarked one have the same key |
| ReadingBank.MarkedContextShape | scripts/generate_reading_from_writing.mjs:128-131 | the marks go around the first occurrence of the answer, and the text around it is kept |
| ReadingBank.ReadingContextKana | scripts/generate_reading_from_writing.mjs:176-182 | the chosen context has katakana only when the answer has some |
| ReadingBank.MakeReadingDraft | scripts/generate_reading_from_writing.mjs:187-209 | no question with fewer than three distractors; otherwise the shuffled labels by key `choice:` and the question's fields |
| ReadingBank.MakeReadingItem | scripts/generate_reading_from_writing.mjs:172-209 | the loop body for one candidate, up to numbering |
| ReadingBank.TargetReadings | scripts/generate_reading_from_writing.mjs:164 | the hiragana of each candidate's target |
| ReadingBank.ReadingPoolFacts | scripts/generate_reading_from_writing.mjs:162-166 | a reading is in the pool exactly when it is the usable reading of a candidate's target, and none is there twice |
| ReadingBank.ReadingItems | scripts/generate_reading_from_writing.mjs:171-213 | one item per candidate |
| ReadingBank.ReadingItemsAt | scripts/generate_reading_from_writing.mjs:171-213 | item `j` is the loop body on candidate `j` |
| ReadingBank.MakeReadingItems | scripts/generate_reading_from_writing.mjs:171-213 | the first pass of the loop collects the items |
| ReadingBank.GenerateReadingQuestions | scripts/generate_reading_from_writing.mjs:149-213 | the candidates, the pool and the loop give the modelled additions |
| ReadingBank.ReadingDraftFacts | scripts/generate_reading_from_writing.mjs:187-209 | a draft has the target's reading as answer, distinct labels holding it, the generated source and difficulty 2 for readings of four or more |
| ReadingBank.ReadingItemGood | scripts/generate_reading_from_writing.mjs:172-209 | every item is a good reading question with its own key |
| ReadingBank.ReadingItemsGood | scripts/generate_reading_from_writing.mjs:171-213 | all items are good |
| ReadingBank.ReadingWithId | scripts/generate_reading_from_writing.mjs:198 | giving a question an id keeps it good |
| ReadingBank.NumberedReadings | scripts/generate_reading_from_writing.mjs:184-212 | the keyed numbering of good items gives good questions with consecutive ids, new keys and no repeated key |
| ReadingBank.ReadingAdditionsFacts | scripts/generate_reading_from_writing.mjs:169-212 | numbered from `nextReadingId`, those ids are new to the bank |
| ReadingBank.GeneratedReadingsFacts | scripts/generate_reading_from_writing.mjs:149-213 | addition `i` has id r plus `nextReadingId + i` padded; each is made from a writing candidate with distractors from the pool; no two additions, nor an addition and a bank reading question, share normalized context and reading |
| ReadingBank.ResetReadingsFacts | scripts/generate_reading_from_writing.mjs:143-147 | the reset keeps exactly the questions that are not generated readings, and undoes a run |
| ReadingBank.RegenerateReadings | scripts/generate_reading_from_writing.mjs:133-216 | `main` from the parsed bank to the bank it writes |
| ReadingBank.RegeneratedReadingBankFacts | scripts/generate_reading_from_writing.mjs:133-216 | the written bank is a permutation of the (reset) bank and the additions, sorted by tag rank, and a later reset removes the additions |
| ReadingBank.ReadingRunFacts | scripts/generate_reading_from_writing.mjs:149-216 | those facts for one run on an already reset bank |
| OcrImport.LeadingDigitsAppend | scripts/import_ocr_writing.mjs:162 | the `(\d+)` of a header is exactly the digit run that follows the marker |
| OcrImport.PageHeaderRoundTrip | scripts/import_ocr_writing.mjs:162-164 | a line `## Page n…` whose number is not followed by a digit reads back as page `n` |
| OcrImport.ParsePages | scripts/import_ocr_writing.mjs:157-171 | the loop over the lines, filling the last opened page, gives the modelled pages |
| OcrImport.PagesBeforeHeader | scripts/import_ocr_writing.mjs:160-168 | lines before the first header make no page |
| OcrImport.PagesAfterHeader | scripts/import_ocr_writing.mjs:161-168 | a header followed by lines without a header adds one page: its number with those lines trimmed |
| OcrImport.PagesOfSnoc | scripts/import_ocr_writing.mjs:161-168 | the pages of one more line are one step of the loop on the earlier pages |
| OcrImport.HeaderOpensPage | scripts/import_ocr_writing.mjs:163-166 | a header opens an empty page |
| OcrImport.LineOntoPage | scripts/import_ocr_writing.mjs:168 | a line that is not a header goes, trimmed, onto the last page |
| OcrImport.StripUnion | scripts/import_ocr_writing.mjs:238-246 | two removal passes one after the other remove the union of their classes |
| OcrImport.ContextKeyIsStrip | scripts/import_ocr_writing.mjs:238-246 | the context key is the text with every removed character left out, in order |
| OcrImport.ContextKeyIdempotent | scripts/import_ocr_writing.mjs:238-246 | normalising a key again changes nothing |
| OcrImport.KanaRun | scripts/import_ocr_writing.mjs:249 | the katakana run a text starts with, capped, cannot be extended |
| OcrImport.Tokens | scripts/import_ocr_writing.mjs:249 | each token of `/[ァ-ヶ]{1,8}/g` is 1 to 8 katakana characters |
| OcrImport.TokensEmpty | scripts/import_ocr_writing.mjs:249-250 | a text has no token exactly when it has no katakana |
| OcrImport.RowSlice | scripts/import_ocr_writing.mjs:261-263 | a piece collected from one start index is a slice of the token of at least `minLen` characters |
| OcrImport.GridSlice | scripts/import_ocr_writing.mjs:259-265 | every piece collected from a token is a slice of it of at least `minLen` characters |
| OcrImport.AllPiecesKatakana | scripts/import_ocr_writing.mjs:256-266 | every candidate is a non-empty katakana slice of a token |
| OcrImport.TokensArePieces | scripts/import_ocr_writing.mjs:258 | every token is a candidate |
| OcrImport.LongerFirstTotal | scripts/import_ocr_writing.mjs:268 | the longest-first comparator is a total preorder |
| OcrImport.FirstKnown | scripts/import_ocr_writing.mjs:252-254 | the first text the map knows, and none exactly when the map knows none of them |
| OcrImport.FirstKnownFirst | scripts/import_ocr_writing.mjs:252-254 | every text before the first known one is unknown |
| OcrImport.FirstKnownLongest | scripts/import_ocr_writing.mjs:268-271 | in a list sorted longest first, the first known text is a longest known one |
| OcrImport.SortedHeadLongest | scripts/import_ocr_writing.mjs:273-274 | a list sorted longest first starts with a longest element |
| OcrImport.SortByLength | scripts/import_ocr_writing.mjs:268 | sorting keeps the length |
| OcrImport.ExtractFacts | scripts/import_ocr_writing.mjs:248-275 | no target exactly when there is no katakana; an exact token exactly when some token is known, and then it is the first known token; the target is non-empty katakana |
| OcrImport.ExtractLongestCandidate | scripts/import_ocr_writing.mjs:268-271 | when no token is known but a candidate is, the target is a longest known candidate |
| OcrImport.ExtractLongestToken | scripts/import_ocr_writing.mjs:273-274 | when no candidate is known, the target is an unknown token of the greatest length |
| OcrImport.DedupSnoc | scripts/import_ocr_writing.mjs:256-266 | adding to an order-keeping set adds only what is new, at the end |
| OcrImport.ExtractTarget | scripts/import_ocr_writing.mjs:248-275 | the function with its loops computes the modelled extraction |
| OcrImport.FindKnown | scripts/import_ocr_writing.mjs:252-254 | the loop returns the first element the map knows |
| OcrImport.CollectCandidates | scripts/import_ocr_writing.mjs:256-266 | the candidate loops collect every token and its long enough slices once, in first-seen order |
| OcrImport.AddTokenPieces | scripts/import_ocr_writing.mjs:257-265 | one round of the outer loop adds the token, then its slices |
| OcrImport.AddRow | scripts/import_ocr_writing.mjs:261-264 | the innermost loop adds the slices from one start index |
| OcrImport.AnswersForMembers | scripts/import_ocr_writing.mjs:280-286 | the answers of a target are those of its usable writing questions |
| OcrImport.ScanStepKeeps | scripts/import_ocr_writing.mjs:283-285 | a question contributes its answer to its target only |
| OcrImport.ScanInvariant | scripts/import_ocr_writing.mjs:280-286 | the scan keeps, for each target, the first answer and an ambiguity mark once a second one appears |
| OcrImport.TargetAnswerMapFacts | scripts/import_ocr_writing.mjs:277-289 | a target reads `a` exactly when `a` is the only answer usable questions give it; a target with two answers reads nothing |
| OcrImport.BuildTargetAnswerMap | scripts/import_ocr_writing.mjs:277-289 | the loops compute the modelled map |
| OcrImport.ContextAnswerLast | scripts/import_ocr_writing.mjs:291-301 | a key reads nothing when no question is filed under it, and otherwise the target and answer of the last one filed under it |
| OcrImport.LastFiledSnoc | scripts/import_ocr_writing.mjs:293-299 | a question filed elsewhere keeps the last filed one |
| OcrImport.NoneFiledSnoc | scripts/import_ocr_writing.mjs:293-299 | a question filed elsewhere keeps a key empty |
| OcrImport.ContextStepGet | scripts/import_ocr_writing.mjs:294-298 | one question changes at most the key it is filed under |
| OcrImport.BuildContextAnswerMap | scripts/import_ocr_writing.mjs:291-301 | the loop computes the modelled map |
| OcrImport.AllowedKanjiMembers | scripts/import_ocr_writing.mjs:303-312 | the allowed kanji are those of rows with a finite grade no higher than the maximum |
| OcrImport.BuildAllowedKanjiSet | scripts/import_ocr_writing.mjs:303-312 | the loops compute that set |
| OcrImport.WithinGradeIff | scripts/import_ocr_writing.mjs:314-320 | within the grade exactly when nothing is allowed at all or every kanji character of the answer is allowed |
| OcrImport.CollectFragments | scripts/import_ocr_writing.mjs:391-398 | the page and line loops, with their skips, collect the fragments the innermost loop sees |
| OcrImport.PageFragments | scripts/import_ocr_writing.mjs:393-398 | the fragments of one page's lines |
| OcrImport.AddFragments | scripts/import_ocr_writing.mjs:396-398 | the fragments of one line's pieces, in order |
| OcrImport.DecideAccepts | scripts/import_ocr_writing.mjs:399-480 | a fragment is imported exactly when it passes the skip tests, has fewer than two known tokens, a target and a non-empty answer within the grade, and is vouched for or is an exact token of two or more characters; it is imported with that target and answer |
| OcrImport.DecideReviews | scripts/import_ocr_writing.mjs:424-464 | otherwise it goes to review for the first check it fails (answer_not_found, answer_outside_grade_scope, short_target_ambiguous, partial_token_ambiguous) with the target as its guess |
| OcrImport.DecideEarly | scripts/import_ocr_writing.mjs:399-421 | a fragment failing a skip test or without a target is skipped; two known tokens send it to review as multi_target_line without a guess |
| OcrImport.AcceptedUnvouched | scripts/import_ocr_writing.mjs:419-464 | an import nobody vouches for has the first known token of its line as target, of at least two characters, and the target map's answer |
| OcrImport.ManualTestRedundant | scripts/import_ocr_writing.mjs:378-404 | once the manual table is set into the target map, the manual test of `knownTokenCount` adds nothing |
| OcrImport.LadderSnoc | scripts/import_ocr_writing.mjs:397-481 | the ladder over one more fragment is one more step |
| OcrImport.ProbeFragment | scripts/import_ocr_writing.mjs:398-422 | the loop body's lookups for one fragment |
| OcrImport.DecideFragment | scripts/import_ocr_writing.mjs:399-480 | the ladder of the loop body gives the modelled verdict |
| OcrImport.RunLadder | scripts/import_ocr_writing.mjs:397-481 | the innermost loop applies the verdict of each fragment in turn |
| OcrImport.ContextsOfMembers | scripts/import_ocr_writing.mjs:479 | the context of every import is among the imported contexts |
| OcrImport.OcrAdditionAt | scripts/import_ocr_writing.mjs:466-480 | every import has id w plus its number padded, tag writing, 2 points, the fixed prompt, a new context and a non-empty target and answer within the grade |
| OcrImport.OcrAdditionsDistinct | scripts/import_ocr_writing.mjs:466-480 | no two imports share a context |
| OcrImport.DecideSound | scripts/import_ocr_writing.mjs:399-480 | an import is for a new context with a non-empty target and answer within the grade |
| OcrImport.ApplyKeeps | scripts/import_ocr_writing.mjs:397-481 | a sound verdict keeps the ladder invariant, and each fragment adds at most one import or review entry |
| OcrImport.ReviewKeeps | scripts/import_ocr_writing.mjs:406-464 | a review entry keeps the invariant |
| OcrImport.AcceptKeeps | scripts/import_ocr_writing.mjs:466-480 | an import numbered by the counter keeps the invariant |
| OcrImport.OcrQuestionIsAddition | scripts/import_ocr_writing.mjs:466-478 | the pushed question meets the import promise |
| OcrImport.AppendAddition | scripts/import_ocr_writing.mjs:466-480 | an import with a new context extends the numbered imports |
| OcrImport.LadderFacts | scripts/import_ocr_writing.mjs:391-483 | the imports are numbered consecutively from the start id, their contexts are added to the known ones and nothing else is, earlier review entries are kept, and each fragment gives at most one outcome |
| OcrImport.ExistingContextsMembers | scripts/import_ocr_writing.mjs:380-384 | a context is known exactly when some writing question normalises to it |
| OcrImport.BuildExistingContexts | scripts/import_ocr_writing.mjs:380-384 | the loop computes that set |
| OcrImport.ImportOcrWriting | scripts/import_ocr_writing.mjs:358-486 | `main` from the OCR text and the bank to the bank and review list it writes |
| OcrImport.ImportedBankOrder | scripts/import_ocr_writing.mjs:485-486 | with imports numbered from `nextWritingId`, the sorted bank keeps every question, is ordered by tag rank, and no import has the id of an old writing question |
| OcrImport.ImportFacts | scripts/import_ocr_writing.mjs:358-486 | the bank after the import is the old bank and the imports, sorted by tag; the imports meet the import promise, their ids are new, and there are no more imports and reviews than fragments |
| OrderedMaps.Get | scripts/import_ocr_writing.mjs:283 | `map.get(k)` is nothing exactly when `k` is not a key, and otherwise the value stored under it |
| OrderedMaps.PutGet | scripts/import_ocr_writing.mjs:285 | after `map.set(k, v)`, `k` reads `v` and every other key reads as before |
| OrderedMaps.PutKeys | scripts/generate_onkun_homophone_from_ocr.mjs:323 | `set` keeps a present key in its place and puts a new key last, the iteration order of a `Map` |
| OrderedMaps.PutDistinct | scripts/generate_onkun_homophone_from_ocr.mjs:202 | a map built by `set` never holds a key twice |
| OrderedMaps.GetRemoveKeys | scripts/import_ocr_writing.mjs:287 | after deleting the ambiguous keys they read nothing and every other key reads as before |
| OrderedMaps.RemoveKeysTwice | scripts/import_ocr_writing.mjs:287 | deleting one set of keys and then another deletes their union, so the order of the deletions does not matter |
| OrderedMaps.PutAllGet | scripts/import_ocr_writing.mjs:378 | after setting every entry of a table with distinct keys, a table key reads the table's value and every other key reads as before |
| Seqs.SortInPlace | scripts/generate_onkun_homophone_from_ocr.mjs:153-161 | `Array.prototype.sort` in place, as a stable insertion sort, leaves the array in the order `SortBy` describes |
| Seqs.SortByPermutation | scripts/generate_onkun_homophone_from_ocr.mjs:153-161 | sorting is a permutation |
| Seqs.SortBySorted | scripts/generate_onkun_homophone_from_ocr.mjs:153-161 | with a total preorder the result is sorted |
| Seqs.Dedup | scripts/generate_reading_from_writing.mjs:162-166 | `[...new Set(xs)]` holds the elements of `xs`, each once |
| Strs.Split | scripts/import_ocr_writing.mjs:158 | `split('\n')` always gives at least one piece |
| Strs.SplitJoin | scripts/import_ocr_writing.mjs:158 | splitting a join of pieces without the separator gives the pieces back |
| Strs.TrimIdempotent | scripts/import_ocr_writing.mjs:168 | `trim()` of a trimmed text changes nothing, and a trimmed text starts and ends with a non-space character |
| Strs.FindFirst | scripts/generate_onkun_homophone_from_ocr.mjs:251 | `indexOf` is the first position where the pattern occurs, and nothing only when it occurs nowhere |
| Strs.ReplaceFirstParts | scripts/generate_onkun_homophone_from_ocr.mjs:220-222 | `replace` with a text pattern changes only its first occurrence, and nothing when there is none |

## Left out

- File and console I/O, command-line parsing, `JSON.parse`/`JSON.stringify`, `process.exit`, and the `dryRun` switch: the scripts are modelled from the parsed bank to the bank they would write. The review file is the `review` list of the result.
- React state, effects, timers and the elapsed-time display of the quiz hook: the session is a class whose methods are the state updates.
- The clock: the current date (`new Date()`) is passed in as an integer day number `today`, with `yesterday` for the streak. Local time zones are not modelled.
- `Math.random()`: it is the stream `rand`, with the index of the first draw.
- Floating point: the scheduler, the exam pass mark and the weights use exact reals. `Math.pow` is the parameter `pow`; only its positivity and the 0.05 floor are used. Rounding, NaN and the float result of mulberry32 beyond `x / 2^32` are not modelled.
- `localeCompare` (with and without `'ja'`): it is the parameter `localeLe`. The sortedness lemmas assume it is a total preorder.
- `Array.prototype.sort`: it is a stable insertion sort. Each sort therefore stands for one particular order among those the engine may choose when the comparator ties or is not a total preorder.
- The OCR cleanup regexes (`normalizeContext`, `likelyNoise`, `splitQuestionFragments`) and the fixed tables `MANUAL_TARGET_ANSWER`, `MANUAL_CONTEXT_OVERRIDE` and `MANUAL_ON_KUN`: they are parameters (`Cleanup`, `manual`, `overrides`). Their contents are not modelled; the 易 entry is the one exception (see below).
- `Number(...)` on non-numeric text: an id number is a natural number or absent. NaN, Infinity, signs, decimals and exponents in ids are not modelled. `BankText.NumberOf` reads a text as a number only when it is a run of decimal digits, so two inputs `Number` accepts read as `None`: a number with surrounding whitespace (`Number(" 5")` is 5) and one with a radix prefix (`Number("0x10")` is 16, and likewise `0b` and `0o`). A grade is an optional real; a missing or non-finite grade is `None`.
- The grade file's JSON shape (`gradeData?.grades`, `row?.kanji ?? []`): it arrives as a list of rows.
- Tags outside the eleven known ones: the tag is a datatype, so the rank 999 that `sortQuestions` gives unknown tags never arises.
- Text outside the Basic Multilingual Plane: the UTF-16 code units in `hashString` are modelled, but `String.length` and `slice` in the scripts count characters, not code units.
- Fields of a stored state outside `AppState`: `...parsed` in `normalizeState` copies them into the loaded state. A stored state here holds only the seven known fields, so such extra fields are not modelled.
- JavaScript objects used as maps, such as `tagStats` and `minerals`: they are Dafny `map`s. Prototype keys and the key order of objects are not modelled.
- Where a JavaScript `Map`'s order matters (pools, groups, specimens), it is a sequence of slots.
- The mineral catalog: it is the parameter `rules` of `MineralRule`. A mineral counter missing from the state counts as 0 (the code would compute NaN; a loaded state always holds every counter).
- `current` in `parsePages`: the code pushes the page object and then fills it through the shared reference. The model updates the last page of the list instead; the results agree, but aliasing is not modelled.
- The generator loops: each is modelled in two passes, the question for each item and then the numbering of those made. The loop body does not read the counter, so the results agree.
- The OCR ladder: the fragments are collected first and decided afterwards. The same argument applies, except that the known contexts grow in the ladder itself.
- The weighted pick's `sum <= 0` fallback: it is not a separate path. `PickWeightedQuestion` proves the weight sum positive whenever there are candidates.
- Ledger.TotalHistoryCorrect: states only that the total is at least 1 exactly when some record has a correct answer. That is all the badge check reads; the exact sum over an unordered map is not stated.
- Ledger.TotalTagCorrect: sums over the eleven known tags; the code sums `Object.values(tagStats)`. `normalizeState` fills in every known tag, but it also keeps any other key of a stored state, so the two agree only when a stored state has no such key.

## Observations

These facts about the source are proved in the model. None of them changes behaviour:

- `ReadingBank.TopUpIsDead`: the top-up loop of the reading `pickDistractors` (scripts/generate_reading_from_writing.mjs:117-123) never adds a reading. When the shuffled base gives fewer than three, the base was the whole filtered pool.
- `OcrImport.ManualTestRedundant`: the `MANUAL_TARGET_ANSWER[t]` test in `knownTokenCount` (scripts/import_ocr_writing.mjs:404) never changes the count, because the table was set into the target map before.
- `OnKunBank.EasyDoesNotRoundTrip`: the on/kun answer format does not round-trip for an entry with two on readings and a kun reading. The built-in 易 formats as エキ・イ・やさしい, and parsing that back gives on エキ with kun イ. It matters only when a generated question is kept in the bank and read back by a later run without the reset.

The code's own behaviour is kept in three places where a reader might expect otherwise:

- `Session.QuizSession.StartQuiz`: starting a quiz with an empty list leaves the session active.
- `Session.QuizSession.AnswerAll`: after the last answer the current question stays the last one; the index does not move past the end.
- `QuizSets.ShortBlueprintTotal`: the short-exam blueprint asks 19 questions, so the `slice(0, 20)` of `buildExamShort` cuts nothing.
