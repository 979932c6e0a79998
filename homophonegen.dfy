/** The homophone half of the on/kun and homophone generator
    (`scripts/generate_onkun_homophone_from_ocr.mjs`), and the script's
    main flow that runs both halves over the bank. */
module HomophoneBank {
  import opened Types
  import opened Strs
  import opened Seqs
  import opened BankText
  import opened OrderedMaps
  import opened OnKunBank

  // ----- readingGroups -----

  /** The records of one reading, keyed by answer: the first record of each answer. */
  type Group = seq<Slot<WritingRecord>>

  function GroupOf(groups: seq<Slot<Group>>, reading: string): Group
  {
    match Get(groups, reading)
    case None => []
    case Some(g) => g
  }

  /** `readingGroups.get(reading)?.get(answer)` */
  function Lookup(groups: seq<Slot<Group>>, reading: string, answer: string): Option<WritingRecord>
  {
    Get(GroupOf(groups, reading), answer)
  }

  /** One step of the grouping loop: a new reading gets an empty group, and
      the record goes into its reading's group unless its answer is there. */
  function AddRecord(groups: seq<Slot<Group>>, r: WritingRecord): seq<Slot<Group>>
  {
    var ready := if Get(groups, r.reading).None? then Put(groups, r.reading, []) else groups;
    var g := GroupOf(ready, r.reading);
    if Get(g, r.answer).None? then Put(ready, r.reading, Put(g, r.answer, r)) else ready
  }

  function ReadingGroups(records: seq<WritingRecord>): seq<Slot<Group>>
  {
    if records == [] then []
    else AddRecord(ReadingGroups(records[..|records| - 1]), records[|records| - 1])
  }

  /** The first record with this reading and answer. */
  function FirstRecord(records: seq<WritingRecord>, reading: string, answer: string): (r: Option<WritingRecord>)
    ensures r.Some? ==> r.value in records && r.value.reading == reading && r.value.answer == answer
    ensures r.None? ==> forall j | 0 <= j < |records| :: records[j].reading != reading || records[j].answer != answer
  {
    if records == [] then None
    else
      var init := records[..|records| - 1];
      var last := records[|records| - 1];
      assert forall j | 0 <= j < |init| :: init[j] == records[j];
      match FirstRecord(init, reading, answer)
      case Some(x) => Some(x)
      case None => if last.reading == reading && last.answer == answer then Some(last) else None
  }

  /** The grouping loop over `writingRecords`. */
  method BuildReadingGroups(records: seq<WritingRecord>) returns (groups: seq<Slot<Group>>)
    ensures groups == ReadingGroups(records)
  {
    groups := [];
    var i := 0;
    while i < |records|
      invariant i <= |records|
      invariant groups == ReadingGroups(records[..i])
    {
      var r := records[i];
      if Get(groups, r.reading).None? {
        groups := Put(groups, r.reading, []);
      }
      var group := GroupOf(groups, r.reading);
      if Get(group, r.answer).None? {
        groups := Put(groups, r.reading, Put(group, r.answer, r));
      }
      TakeSnoc(records, i);
      i := i + 1;
    }
    TakeAll(records);
  }

  lemma AddRecordLookup(groups: seq<Slot<Group>>, r: WritingRecord, reading: string, answer: string)
    ensures Lookup(AddRecord(groups, r), reading, answer) ==
      if Lookup(groups, reading, answer).Some? then Lookup(groups, reading, answer)
      else if r.reading == reading && r.answer == answer then Some(r) else None
  {
    var ready := if Get(groups, r.reading).None? then Put(groups, r.reading, []) else groups;
    PutGet(groups, r.reading, [], reading);
    var g := GroupOf(ready, r.reading);
    assert Lookup(ready, reading, answer) == Lookup(groups, reading, answer);
    if Get(g, r.answer).None? {
      PutGet(ready, r.reading, Put(g, r.answer, r), reading);
      PutGet(g, r.answer, r, answer);
    }
  }

  /** Each reading's group holds, for each answer, the first record with
      that reading and answer. */
  lemma {:induction false} ReadingGroupsLookup(records: seq<WritingRecord>, reading: string, answer: string)
    ensures Lookup(ReadingGroups(records), reading, answer) == FirstRecord(records, reading, answer)
  {
    if records != [] {
      var init := records[..|records| - 1];
      ReadingGroupsLookup(init, reading, answer);
      AddRecordLookup(ReadingGroups(init), records[|records| - 1], reading, answer);
    }
  }

  /** No reading appears twice, and no answer twice within a group. */
  predicate GroupsDistinct(groups: seq<Slot<Group>>)
  {
    DistinctKeys(groups) && forall x | x in groups :: DistinctKeys(x.value)
  }

  lemma GroupOfDistinct(groups: seq<Slot<Group>>, reading: string)
    requires GroupsDistinct(groups)
    ensures DistinctKeys(GroupOf(groups, reading))
  {
  }

  lemma PutGroupDistinct(groups: seq<Slot<Group>>, k: string, g: Group)
    requires GroupsDistinct(groups) && DistinctKeys(g)
    ensures GroupsDistinct(Put(groups, k, g))
  {
    PutDistinct(groups, k, g);
    PutSlots(groups, k, g);
  }

  lemma AddRecordDistinct(groups: seq<Slot<Group>>, r: WritingRecord)
    requires GroupsDistinct(groups)
    ensures GroupsDistinct(AddRecord(groups, r))
  {
    var ready := if Get(groups, r.reading).None? then Put(groups, r.reading, []) else groups;
    if Get(groups, r.reading).None? {
      PutGroupDistinct(groups, r.reading, []);
    }
    var g := GroupOf(ready, r.reading);
    GroupOfDistinct(ready, r.reading);
    if Get(g, r.answer).None? {
      PutDistinct(g, r.answer, r);
      PutGroupDistinct(ready, r.reading, Put(g, r.answer, r));
    }
  }

  lemma {:induction false} ReadingGroupsDistinct(records: seq<WritingRecord>)
    ensures GroupsDistinct(ReadingGroups(records))
  {
    if records != [] {
      ReadingGroupsDistinct(records[..|records| - 1]);
      AddRecordDistinct(ReadingGroups(records[..|records| - 1]), records[|records| - 1]);
    }
  }

  // ----- existingKeys, bankSets, singleCharPool -----

  /** `${normalizeKey(context)}|${answer}`: what makes two homophone questions the same. */
  function HomophoneKey(context: string, answer: string): string
  {
    NormalizeKey(context) + "|" + answer
  }

  function ExistingKeys(qs: seq<Question>): set<string>
  {
    set q | q in qs && q.tag == Homophone :: HomophoneKey(q.context, q.answer)
  }

  /** `[...c].length === 1`: one code point. */
  predicate SingleChar(c: string)
  {
    |c| == 1
  }

  /** The set of single-character labels of one homophone question's choices. */
  function ChoiceSet(cs: seq<Choice>): (r: seq<string>)
    ensures Distinct(r)
    ensures forall c :: c in r <==> c in LabelsOf(cs) && SingleChar(c)
  {
    Dedup(Filter(LabelsOf(cs), SingleChar))
  }

  /** `bankSets`: one set per homophone question that has choices, in bank order. */
  function BankSets(qs: seq<Question>): seq<seq<string>>
  {
    if qs == [] then []
    else
      var init := BankSets(qs[..|qs| - 1]);
      var q := qs[|qs| - 1];
      if q.tag == Homophone && q.choices.Some? then init + [ChoiceSet(q.choices.value)] else init
  }

  /** Every bank set is the set of single-character labels of some
      homophone question of the bank. */
  lemma {:induction false} BankSetsFrom(qs: seq<Question>)
    ensures forall s | s in BankSets(qs) :: exists q | q in qs :: q.tag == Homophone && q.choices.Some? && s == ChoiceSet(q.choices.value)
  {
    if qs != [] {
      var init := qs[..|qs| - 1];
      BankSetsFrom(init);
      assert forall q | q in init :: q in qs;
    }
  }

  // ----- candidateSet -----

  /** `set.add(x)` on a set kept in insertion order. */
  function AddOne(acc: seq<string>, x: string): seq<string>
  {
    if x in acc then acc else acc + [x]
  }

  /** `for (const ch of s) set.add(ch)` */
  function AddAll(acc: seq<string>, s: seq<string>): seq<string>
  {
    if s == [] then acc else AddOne(AddAll(acc, s[..|s| - 1]), s[|s| - 1])
  }

  /** `chars.some((ch) => set.has(ch))` */
  predicate Intersects(chars: seq<string>, s: seq<string>)
  {
    exists i | 0 <= i < |chars| :: chars[i] in s
  }

  /** The set after the loop over the bank sets: every set that shares a
      kanji with `chars` is added whole. */
  function Absorbed(acc: seq<string>, chars: seq<string>, sets: seq<seq<string>>): seq<string>
  {
    if sets == [] then acc
    else
      var a := Absorbed(acc, chars, sets[..|sets| - 1]);
      if Intersects(chars, sets[|sets| - 1]) then AddAll(a, sets[|sets| - 1]) else a
  }

  /** The most kanji the pool tops the set up to. */
  const CandidateLimit: nat := 8

  /** The loop over `singleCharPool`: add in order until the set holds eight. */
  function FillTo(acc: seq<string>, pool: seq<string>): seq<string>
    decreases |pool|
  {
    if pool == [] || |acc| >= CandidateLimit then acc
    else FillTo(AddOne(acc, pool[0]), pool[1..])
  }

  /** `candidateLabels` for a reading group with kanji `chars`. */
  function CandidateLabels(chars: seq<string>, sets: seq<seq<string>>, pool: seq<string>): seq<string>
  {
    Filter(FillTo(Absorbed(Dedup(chars), chars, sets), pool), SingleChar)
  }

  lemma AddOneFacts(acc: seq<string>, x: string)
    ensures forall y :: y in AddOne(acc, x) <==> y in acc || y == x
    ensures Distinct(acc) ==> Distinct(AddOne(acc, x))
    ensures |AddOne(acc, x)| <= |acc| + 1
  {
  }

  lemma {:induction false} AddAllFacts(acc: seq<string>, s: seq<string>)
    ensures forall y :: y in AddAll(acc, s) <==> y in acc || y in s
    ensures Distinct(acc) ==> Distinct(AddAll(acc, s))
  {
    if s != [] {
      var init := s[..|s| - 1];
      AddAllFacts(acc, init);
      AddOneFacts(AddAll(acc, init), s[|s| - 1]);
      InitLast(s);
      assert forall y :: y in s <==> y in init || y == s[|s| - 1];
    }
  }

  /** The absorbed set holds the start and every bank set that shares a
      kanji with `chars`, and nothing else. */
  lemma {:induction false} AbsorbedFacts(acc: seq<string>, chars: seq<string>, sets: seq<seq<string>>)
    ensures forall y :: y in Absorbed(acc, chars, sets) <==>
      y in acc || exists i | 0 <= i < |sets| :: Intersects(chars, sets[i]) && y in sets[i]
    ensures Distinct(acc) ==> Distinct(Absorbed(acc, chars, sets))
  {
    if sets != [] {
      var init := sets[..|sets| - 1];
      var last := sets[|sets| - 1];
      AbsorbedFacts(acc, chars, init);
      var a := Absorbed(acc, chars, init);
      if Intersects(chars, last) {
        AddAllFacts(a, last);
      }
      forall y ensures y in Absorbed(acc, chars, sets) <==>
        y in acc || exists i | 0 <= i < |sets| :: Intersects(chars, sets[i]) && y in sets[i]
      {
        if y in a && y !in acc {
          var i :| 0 <= i < |init| && Intersects(chars, init[i]) && y in init[i];
          assert sets[i] == init[i];
        }
        if exists i | 0 <= i < |sets| :: Intersects(chars, sets[i]) && y in sets[i] {
          var i :| 0 <= i < |sets| && Intersects(chars, sets[i]) && y in sets[i];
          if i < |init| {
            assert init[i] == sets[i];
          }
        }
      }
    }
  }

  /** Topping up keeps what the set had, adds only pool kanji, keeps it
      free of repeats, and stops short of the whole pool only at eight. */
  lemma {:induction false} FillToFacts(acc: seq<string>, pool: seq<string>)
    ensures var r := FillTo(acc, pool);
      && (forall y | y in acc :: y in r)
      && (forall y | y in r :: y in acc || y in pool)
      && (Distinct(acc) ==> Distinct(r))
      && (|r| < CandidateLimit ==> forall y | y in pool :: y in r)
      && (|acc| < CandidateLimit ==> |r| <= CandidateLimit)
    decreases |pool|
  {
    if pool != [] && |acc| < CandidateLimit {
      var a := AddOne(acc, pool[0]);
      AddOneFacts(acc, pool[0]);
      FillToFacts(a, pool[1..]);
      assert forall y | y in pool :: y == pool[0] || y in pool[1..];
    }
  }

  /** The labels offered for a group: distinct single characters, every
      single-character kanji of the group among them, and each one a
      kanji of the group, of a bank set sharing a kanji with it, or of the
      pool. */
  lemma CandidateLabelsFacts(chars: seq<string>, sets: seq<seq<string>>, pool: seq<string>)
    ensures var labels := CandidateLabels(chars, sets, pool);
      && Distinct(labels)
      && (forall c | c in labels :: SingleChar(c))
      && (forall c | c in chars && SingleChar(c) :: c in labels)
      && (forall c | c in labels :: c in chars || c in pool ||
            exists i | 0 <= i < |sets| :: Intersects(chars, sets[i]) && c in sets[i])
  {
    var start := Dedup(chars);
    var a := Absorbed(start, chars, sets);
    AbsorbedFacts(start, chars, sets);
    FillToFacts(a, pool);
    DistinctFilter(FillTo(a, pool), SingleChar);
  }

  /** The candidate-set part of the loop body. */
  method BuildCandidateLabels(chars: seq<string>, sets: seq<seq<string>>, pool: seq<string>) returns (labels: seq<string>)
    ensures labels == CandidateLabels(chars, sets, pool)
  {
    var candidates := Dedup(chars);
    candidates := AbsorbSets(candidates, chars, sets);
    candidates := FillFromPool(candidates, pool);
    labels := Filter(candidates, SingleChar);
  }

  method AbsorbSets(acc: seq<string>, chars: seq<string>, sets: seq<seq<string>>) returns (r: seq<string>)
    ensures r == Absorbed(acc, chars, sets)
  {
    r := acc;
    var i := 0;
    while i < |sets|
      invariant i <= |sets|
      invariant r == Absorbed(acc, chars, sets[..i])
    {
      TakeSnoc(sets, i);
      assert sets[..i + 1][..i] == sets[..i];
      if Intersects(chars, sets[i]) {
        r := AddEach(r, sets[i]);
      }
      i := i + 1;
    }
    TakeAll(sets);
  }

  method AddEach(acc: seq<string>, s: seq<string>) returns (r: seq<string>)
    ensures r == AddAll(acc, s)
  {
    r := acc;
    var j := 0;
    while j < |s|
      invariant j <= |s|
      invariant r == AddAll(acc, s[..j])
    {
      TakeSnoc(s, j);
      assert s[..j + 1][..j] == s[..j];
      r := AddOne(r, s[j]);
      j := j + 1;
    }
    TakeAll(s);
  }

  method FillFromPool(acc: seq<string>, pool: seq<string>) returns (r: seq<string>)
    ensures r == FillTo(acc, pool)
  {
    r := acc;
    var j := 0;
    while j < |pool|
      invariant j <= |pool|
      invariant FillTo(r, pool[j..]) == FillTo(acc, pool)
    {
      if |r| >= CandidateLimit {
        break;
      }
      assert pool[j..][1..] == pool[j + 1..];
      r := AddOne(r, pool[j]);
      j := j + 1;
    }
  }

  // ----- one answer of a reading group -----

  /** The question for `answer` of `reading` with the given context and candidate labels. */
  function HomophoneDraft(reading: string, answer: string, context: string, labels: seq<string>): Option<Question>
  {
    var d := Distractors(answer, labels, "hp:" + reading + ":" + answer, 3);
    if |d| < 3 then None
    else
      var choiceLabels := KeyedShuffle([answer] + d, "hp-choice:" + reading + ":" + answer);
      Some(Question("", Homophone, GeneratedHpPrefix + "-" + reading, 2, 2, HomophonePrompt, context,
        MakeHomophoneTarget(context), answer, Some(ChoicesOf(choiceLabels)), None, Some(answer + "（" + reading + "）")))
  }

  function ItemOf(reading: string, answer: string, sample: WritingRecord, chars: seq<string>,
                  sets: seq<seq<string>>, pool: seq<string>): KeyedDraft
  {
    var context := MakeHomophoneContext(sample.restored, answer);
    KeyedDraft(HomophoneKey(context, answer), HomophoneDraft(reading, answer, context, CandidateLabels(chars, sets, pool)))
  }

  /** The body of the inner loop for one answer, up to its numbering. */
  method MakeItem(reading: string, answer: string, sample: WritingRecord, chars: seq<string>,
                  sets: seq<seq<string>>, pool: seq<string>) returns (item: KeyedDraft)
    ensures item == ItemOf(reading, answer, sample, chars, sets, pool)
  {
    var context := MakeHomophoneContext(sample.restored, answer);
    var key := HomophoneKey(context, answer);
    var candidateLabels := BuildCandidateLabels(chars, sets, pool);
    var draft := MakeHomophoneDraft(reading, answer, context, candidateLabels);
    item := KeyedDraft(key, draft);
  }

  method MakeHomophoneDraft(reading: string, answer: string, context: string, labels: seq<string>) returns (r: Option<Question>)
    ensures r == HomophoneDraft(reading, answer, context, labels)
  {
    var distractors := PickDistractors(answer, labels, "hp:" + reading + ":" + answer, 3);
    if |distractors| < 3 {
      return None;
    }
    var choiceLabels := ShuffleWithKey([answer] + distractors, "hp-choice:" + reading + ":" + answer);
    r := Some(Question("", Homophone, GeneratedHpPrefix + "-" + reading, 2, 2, HomophonePrompt, context,
      MakeHomophoneTarget(context), answer, Some(ChoicesOf(choiceLabels)), None, Some(answer + "（" + reading + "）")));
  }

  /** A generated homophone question, apart from where it comes from: the
      fixed prompt, points and difficulty, the blanked target of its
      context, and four distinct labels holding the answer whose others are
      single characters. */
  predicate HomophoneShape(q: Question)
  {
    && q.tag == Homophone && q.points == 2 && q.difficulty == 2 && q.question == HomophonePrompt
    && q.target == MakeHomophoneTarget(q.context)
    && q.choices.Some? && |ChoiceLabels(q)| == 4 && Distinct(ChoiceLabels(q))
    && q.answer in ChoiceLabels(q)
    && (forall l | l in ChoiceLabels(q) :: l == q.answer || SingleChar(l))
  }

  lemma HomophoneDraftFacts(reading: string, answer: string, context: string, labels: seq<string>)
    requires Distinct(labels) && forall l | l in labels :: SingleChar(l)
    ensures var d := HomophoneDraft(reading, answer, context, labels);
      d.Some? ==> && HomophoneShape(d.value) && d.value.answer == answer && d.value.context == context
                  && d.value.source == GeneratedHpPrefix + "-" + reading
                  && d.value.explanation == Some(answer + "（" + reading + "）")
  {
    var key := "hp:" + reading + ":" + answer;
    var d := Distractors(answer, labels, key, 3);
    DistractorsFacts(answer, labels, key, 3);
    if |d| >= 3 {
      var choiceLabels := KeyedShuffle([answer] + d, "hp-choice:" + reading + ":" + answer);
      ShuffledChoices(answer, d, "hp-choice:" + reading + ":" + answer);
      LabelsOfChoices(choiceLabels);
      var q := HomophoneDraft(reading, answer, context, labels).value;
      assert ChoiceLabels(q) == choiceLabels;
    }
  }

  /** The item for `answer` of `reading` made from `sample`, when it has a
      question: that question's key, and a question of the right shape
      whose context is made from the sample's restored sentence. */
  predicate ItemShape(item: KeyedDraft, reading: string, answer: string, sample: WritingRecord)
  {
    item.draft.Some? ==>
      && HomophoneShape(item.draft.value) && item.draft.value.answer == answer
      && item.key == HomophoneKey(item.draft.value.context, answer)
      && item.draft.value.context == MakeHomophoneContext(sample.restored, answer)
      && item.draft.value.source == GeneratedHpPrefix + "-" + reading
      && item.draft.value.explanation == Some(answer + "（" + reading + "）")
  }

  lemma ItemOfFacts(reading: string, answer: string, sample: WritingRecord, chars: seq<string>,
                    sets: seq<seq<string>>, pool: seq<string>)
    ensures ItemShape(ItemOf(reading, answer, sample, chars, sets, pool), reading, answer, sample)
  {
    CandidateLabelsFacts(chars, sets, pool);
    HomophoneDraftFacts(reading, answer, MakeHomophoneContext(sample.restored, answer), CandidateLabels(chars, sets, pool));
  }

  // ----- the loops over the groups and their answers -----

  predicate InGroup(g: Group, chars: seq<string>)
  {
    forall i | 0 <= i < |chars| :: Get(g, chars[i]).Some?
  }

  /** The item of each answer of a group, made from the answer and its sample. */
  function ItemMaker(reading: string, chars: seq<string>, sets: seq<seq<string>>, pool: seq<string>): (string, WritingRecord) -> KeyedDraft
  {
    (answer: string, sample: WritingRecord) => ItemOf(reading, answer, sample, chars, sets, pool)
  }

  /** The items for the first `n` answers of `chars`. */
  function AnswerItems(mk: (string, WritingRecord) -> KeyedDraft, g: Group, chars: seq<string>, n: nat): (r: seq<KeyedDraft>)
    requires InGroup(g, chars) && n <= |chars|
    ensures |r| == n
  {
    if n == 0 then []
    else AnswerItems(mk, g, chars, n - 1) + [mk(chars[n - 1], Get(g, chars[n - 1]).value)]
  }

  /** `chars.sort((a, b) => a.localeCompare(b, 'ja'))` */
  function SortedAnswers(g: Group, localeLe: (string, string) -> bool): (chars: seq<string>)
    ensures InGroup(g, chars)
  {
    var chars := SortBy(Keys(g), localeLe);
    SortByMembers(Keys(g), localeLe);
    chars
  }

  /** The items of one reading group; a group of fewer than two kanji has none. */
  function GroupItems(slot: Slot<Group>, sets: seq<seq<string>>, pool: seq<string>, localeLe: (string, string) -> bool): seq<KeyedDraft>
  {
    if |Keys(slot.value)| < 2 then []
    else
      var chars := SortedAnswers(slot.value, localeLe);
      AnswerItems(ItemMaker(slot.key, chars, sets, pool), slot.value, chars, |chars|)
  }

  function AllItems(groups: seq<Slot<Group>>, sets: seq<seq<string>>, pool: seq<string>, localeLe: (string, string) -> bool): seq<KeyedDraft>
  {
    if groups == [] then []
    else AllItems(groups[..|groups| - 1], sets, pool, localeLe) + GroupItems(groups[|groups| - 1], sets, pool, localeLe)
  }

  method MakeGroupItems(slot: Slot<Group>, sets: seq<seq<string>>, pool: seq<string>, localeLe: (string, string) -> bool)
    returns (items: seq<KeyedDraft>)
    ensures items == GroupItems(slot, sets, pool, localeLe)
  {
    if |Keys(slot.value)| < 2 {
      return [];
    }
    var chars := SortedAnswers(slot.value, localeLe);
    items := [];
    var j := 0;
    while j < |chars|
      invariant j <= |chars|
      invariant items == AnswerItems(ItemMaker(slot.key, chars, sets, pool), slot.value, chars, j)
    {
      var answer := chars[j];
      var sample := Get(slot.value, answer).value;
      var item := MakeItem(slot.key, answer, sample, chars, sets, pool);
      assert item == ItemMaker(slot.key, chars, sets, pool)(answer, sample);
      items := items + [item];
      j := j + 1;
    }
  }

  lemma AllItemsSnoc(groups: seq<Slot<Group>>, i: nat, sets: seq<seq<string>>, pool: seq<string>, localeLe: (string, string) -> bool)
    requires i < |groups|
    ensures AllItems(groups[..i + 1], sets, pool, localeLe) == AllItems(groups[..i], sets, pool, localeLe) + GroupItems(groups[i], sets, pool, localeLe)
  {
    TakeSnoc(groups, i);
    assert groups[..i + 1][..i] == groups[..i];
  }

  method MakeAllItems(groups: seq<Slot<Group>>, sets: seq<seq<string>>, pool: seq<string>, localeLe: (string, string) -> bool)
    returns (items: seq<KeyedDraft>)
    ensures items == AllItems(groups, sets, pool, localeLe)
  {
    items := [];
    var i := 0;
    while i < |groups|
      invariant i <= |groups|
      invariant items == AllItems(groups[..i], sets, pool, localeLe)
    {
      var more := MakeGroupItems(groups[i], sets, pool, localeLe);
      AllItemsSnoc(groups, i, sets, pool, localeLe);
      items := items + more;
      i := i + 1;
    }
    TakeAll(groups);
  }

  // ----- generateHomophoneQuestions -----

  /** `a[0].localeCompare(b[0], 'ja')` on the entries of `readingGroups` */
  function ByReading(localeLe: (string, string) -> bool): (Slot<Group>, Slot<Group>) -> bool
  {
    (a: Slot<Group>, b: Slot<Group>) => localeLe(a.key, b.key)
  }

  /** What the homophone generator adds to the bank. */
  function GeneratedHomophone(qs: seq<Question>, records: seq<WritingRecord>, localeLe: (string, string) -> bool): seq<Question>
  {
    var groups := SortBy(ReadingGroups(records), ByReading(localeLe));
    var items := AllItems(groups, BankSets(qs), Dedup(RecordAnswers(records)), localeLe);
    KeyedNumbered(items, 0, ExistingKeys(qs), IdMaker("hp"), NextId(qs, Homophone, "hp"))
  }

  /** `generateHomophoneQuestions(questions, writingRecords)`, with the
      `'ja'` collation as `localeLe`. */
  method GenerateHomophoneQuestions(qs: seq<Question>, records: seq<WritingRecord>, localeLe: (string, string) -> bool)
    returns (additions: seq<Question>)
    ensures additions == GeneratedHomophone(qs, records, localeLe)
  {
    var existingKeys := ExistingKeys(qs);
    var readingGroups := BuildReadingGroups(records);
    var bankSets := BankSets(qs);
    var singleCharPool := Dedup(RecordAnswers(records));
    var nextHp := NextId(qs, Homophone, "hp");
    var groups := SortBy(readingGroups, ByReading(localeLe));
    var items := MakeAllItems(groups, bankSets, singleCharPool, localeLe);
    additions := PushKeyed(items, existingKeys, IdMaker("hp"), nextHp);
  }

  // ----- what the homophone generator adds -----

  /** The question asks for the answer of record `r`, the first record of
      its reading and answer: its context is made from that record's
      restored sentence, and its source and explanation name the reading. */
  predicate HpFromRecord(q: Question, r: WritingRecord, records: seq<WritingRecord>)
  {
    && r.answer == q.answer
    && FirstRecord(records, r.reading, r.answer) == Some(r)
    && q.context == MakeHomophoneContext(r.restored, q.answer)
    && q.source == GeneratedHpPrefix + "-" + r.reading
    && q.explanation == Some(q.answer + "（" + r.reading + "）")
  }

  /** Some other record has the same reading and a different answer: the
      reading really has a homophone. */
  predicate HasHomophone(r: WritingRecord, records: seq<WritingRecord>)
  {
    exists r2 | r2 in records :: r2.reading == r.reading && r2.answer != r.answer
  }

  /** A homophone question made from the records. */
  predicate GoodHomophone(q: Question, records: seq<WritingRecord>)
  {
    && HomophoneShape(q)
    && exists r | r in records :: HpFromRecord(q, r, records) && HasHomophone(r, records)
  }

  /** An item that has a question holds a good homophone question of its own key. */
  predicate GoodItem(item: KeyedDraft, records: seq<WritingRecord>)
  {
    item.draft.Some? ==>
      GoodHomophone(item.draft.value, records) && item.key == HomophoneKey(item.draft.value.context, item.draft.value.answer)
  }

  predicate GoodItems(items: seq<KeyedDraft>, records: seq<WritingRecord>)
  {
    forall i | 0 <= i < |items| :: GoodItem(items[i], records)
  }

  lemma GoodItemsAppend(a: seq<KeyedDraft>, b: seq<KeyedDraft>, records: seq<WritingRecord>)
    requires GoodItems(a, records) && GoodItems(b, records)
    ensures GoodItems(a + b, records)
  {
    forall i | 0 <= i < |a + b| ensures GoodItem((a + b)[i], records) {
      if i < |a| {
        assert (a + b)[i] == a[i];
      } else {
        assert (a + b)[i] == b[i - |a|];
      }
    }
  }

  /** A group as `readingGroups` holds it for its reading. */
  predicate GroupOfRecords(slot: Slot<Group>, records: seq<WritingRecord>)
  {
    Get(ReadingGroups(records), slot.key) == Some(slot.value) && DistinctKeys(slot.value)
  }

  /** The record a group keeps for `answer`: the first of that reading and
      answer, with a homophone. */
  predicate IsSample(sample: WritingRecord, reading: string, answer: string, records: seq<WritingRecord>)
  {
    && sample in records && sample.reading == reading && sample.answer == answer
    && FirstRecord(records, reading, answer) == Some(sample)
    && HasHomophone(sample, records)
  }

  /** The sample of an answer of a group is the first record of that
      reading and answer, and a group of two or more kanji gives every
      answer a homophone. */
  lemma SampleFacts(slot: Slot<Group>, answer: string, records: seq<WritingRecord>)
    requires GroupOfRecords(slot, records) && |Keys(slot.value)| >= 2 && Get(slot.value, answer).Some?
    ensures IsSample(Get(slot.value, answer).value, slot.key, answer, records)
  {
    var g := slot.value;
    ReadingGroupsLookup(records, slot.key, answer);
    var ks := Keys(g);
    var other := if ks[0] != answer then ks[0] else ks[1];
    assert other != answer by {
      assert g[0].key != g[1].key;
    }
    assert Get(g, other).Some? by {
      assert other in ks;
    }
    ReadingGroupsLookup(records, slot.key, other);
    var r2 := FirstRecord(records, slot.key, other).value;
    assert r2 in records && r2.reading == slot.key && r2.answer != answer;
  }

  lemma ItemFromSample(item: KeyedDraft, reading: string, answer: string, sample: WritingRecord, records: seq<WritingRecord>)
    requires ItemShape(item, reading, answer, sample) && IsSample(sample, reading, answer, records)
    ensures GoodItem(item, records)
  {
    if item.draft.Some? {
      assert HpFromRecord(item.draft.value, sample, records);
    }
  }

  lemma ItemGood(slot: Slot<Group>, answer: string, chars: seq<string>, sets: seq<seq<string>>, pool: seq<string>,
                 records: seq<WritingRecord>)
    requires GroupOfRecords(slot, records) && |Keys(slot.value)| >= 2 && Get(slot.value, answer).Some?
    ensures GoodItem(ItemMaker(slot.key, chars, sets, pool)(answer, Get(slot.value, answer).value), records)
  {
    var sample := Get(slot.value, answer).value;
    SampleFacts(slot, answer, records);
    ItemOfFacts(slot.key, answer, sample, chars, sets, pool);
    assert ItemMaker(slot.key, chars, sets, pool)(answer, sample) == ItemOf(slot.key, answer, sample, chars, sets, pool);
    ItemFromSample(ItemOf(slot.key, answer, sample, chars, sets, pool), slot.key, answer, sample, records);
  }

  lemma {:induction false} AnswerItemsAt(mk: (string, WritingRecord) -> KeyedDraft, g: Group, chars: seq<string>, n: nat, j: nat)
    requires InGroup(g, chars) && j < n <= |chars|
    ensures AnswerItems(mk, g, chars, n)[j] == mk(chars[j], Get(g, chars[j]).value)
  {
    if j < n - 1 {
      AnswerItemsAt(mk, g, chars, n - 1, j);
    }
  }

  lemma AnswerItemsGood(slot: Slot<Group>, chars: seq<string>, sets: seq<seq<string>>,
                        pool: seq<string>, records: seq<WritingRecord>)
    requires GroupOfRecords(slot, records) && |Keys(slot.value)| >= 2 && InGroup(slot.value, chars)
    ensures GoodItems(AnswerItems(ItemMaker(slot.key, chars, sets, pool), slot.value, chars, |chars|), records)
  {
    var mk := ItemMaker(slot.key, chars, sets, pool);
    var items := AnswerItems(mk, slot.value, chars, |chars|);
    forall j | 0 <= j < |chars| ensures GoodItem(items[j], records) {
      AnswerItemsAt(mk, slot.value, chars, |chars|, j);
      ItemGood(slot, chars[j], chars, sets, pool, records);
    }
  }

  lemma {:induction false} AllItemsGood(groups: seq<Slot<Group>>, sets: seq<seq<string>>, pool: seq<string>,
                                        localeLe: (string, string) -> bool, records: seq<WritingRecord>)
    requires forall slot | slot in groups :: GroupOfRecords(slot, records)
    ensures GoodItems(AllItems(groups, sets, pool, localeLe), records)
  {
    if groups != [] {
      var init := groups[..|groups| - 1];
      var last := groups[|groups| - 1];
      assert forall slot | slot in init :: slot in groups;
      AllItemsGood(init, sets, pool, localeLe, records);
      if |Keys(last.value)| >= 2 {
        var chars := SortedAnswers(last.value, localeLe);
        AnswerItemsGood(last, chars, sets, pool, records);
      }
      GoodItemsAppend(AllItems(init, sets, pool, localeLe), GroupItems(last, sets, pool, localeLe), records);
    }
  }

  /** In a map without repeated readings every slot of its sorted entries
      is what its reading looks up. */
  lemma SortedSlots(m: seq<Slot<Group>>, le: (Slot<Group>, Slot<Group>) -> bool)
    requires GroupsDistinct(m)
    ensures forall slot | slot in SortBy(m, le) :: Get(m, slot.key) == Some(slot.value) && DistinctKeys(slot.value)
  {
    forall slot | slot in SortBy(m, le) ensures Get(m, slot.key) == Some(slot.value) && DistinctKeys(slot.value) {
      SortByMember(m, le, slot);
      var i :| 0 <= i < |m| && m[i] == slot;
      GetSlot(m, i);
    }
  }

  /** The sorted entries of `readingGroups` are its groups. */
  lemma SortedGroupsOfRecords(records: seq<WritingRecord>, localeLe: (string, string) -> bool)
    ensures forall slot | slot in SortBy(ReadingGroups(records), ByReading(localeLe)) :: GroupOfRecords(slot, records)
  {
    ReadingGroupsDistinct(records);
    SortedSlots(ReadingGroups(records), ByReading(localeLe));
  }

  /** Good homophone questions with consecutive ids from `start`, none of
      a key in `seen`, no two of the same key. */
  predicate GoodKeyedNumbering(r: seq<Question>, seen: set<string>, records: seq<WritingRecord>, idOf: nat -> string, start: nat)
  {
    && (forall k | 0 <= k < |r| ::
          && r[k].id == idOf(start + k) && GoodHomophone(r[k], records)
          && HomophoneKey(r[k].context, r[k].answer) !in seen)
    && (forall k, l | 0 <= k < l < |r| :: HomophoneKey(r[k].context, r[k].answer) != HomophoneKey(r[l].context, r[l].answer))
  }

  /** Giving a question an id changes nothing else about it. */
  lemma WithId(q: Question, id: string, records: seq<WritingRecord>)
    requires GoodHomophone(q, records)
    ensures GoodHomophone(q.(id := id), records)
  {
    var r :| r in records && HpFromRecord(q, r, records) && HasHomophone(r, records);
    assert ChoiceLabels(q.(id := id)) == ChoiceLabels(q);
    assert HpFromRecord(q.(id := id), r, records);
  }

  lemma NumberedHomophones(items: seq<KeyedDraft>, seen: set<string>, idOf: nat -> string, start: nat, records: seq<WritingRecord>)
    requires GoodItems(items, records)
    ensures GoodKeyedNumbering(KeyedNumbered(items, 0, seen, idOf, start), seen, records, idOf, start)
  {
    var js := KeyedNumberedSource(items, 0, seen, idOf, start);
    var r := KeyedNumbered(items, 0, seen, idOf, start);
    forall k | 0 <= k < |r|
      ensures r[k].id == idOf(start + k) && GoodHomophone(r[k], records)
      ensures HomophoneKey(r[k].context, r[k].answer) == items[js[k]].key
    {
      assert GoodItem(items[js[k]], records);
      WithId(items[js[k]].draft.value, idOf(start + k), records);
    }
  }

  /** A homophone question the generator adds as its `n`-th: numbered `hp`
      with `n`, an id no homophone question of the bank has, made from the
      records, and of a key the bank does not hold yet. */
  predicate HpAddition(q: Question, n: nat, qs: seq<Question>, records: seq<WritingRecord>)
  {
    && q.id == FormatId("hp", n)
    && (forall j | 0 <= j < |qs| && qs[j].tag == Homophone :: qs[j].id != q.id)
    && GoodHomophone(q, records)
    && HomophoneKey(q.context, q.answer) !in ExistingKeys(qs)
  }

  predicate HpAdditions(r: seq<Question>, start: nat, qs: seq<Question>, records: seq<WritingRecord>)
  {
    && (forall i | 0 <= i < |r| :: HpAddition(r[i], start + i, qs, records))
    && (forall i, j | 0 <= i < j < |r| :: HomophoneKey(r[i].context, r[i].answer) != HomophoneKey(r[j].context, r[j].answer))
  }

  lemma HpAdditionsFacts(qs: seq<Question>, records: seq<WritingRecord>, start: nat, r: seq<Question>)
    requires start == NextId(qs, Homophone, "hp")
    requires GoodKeyedNumbering(r, ExistingKeys(qs), records, IdMaker("hp"), start)
    ensures HpAdditions(r, start, qs, records)
  {
    NumberedIdsFresh(qs, Homophone, "hp", r, start);
  }

  /** What the generator adds: its `i`-th question is numbered `hp` with
      one past the bank's largest plus `i`; each asks, with four distinct
      labels, for the kanji of a writing record whose reading another
      record's kanji shares; and no two of them, nor any of them and a
      homophone question of the bank, have the same normalized context and
      answer. */
  lemma GeneratedHomophoneFacts(qs: seq<Question>, records: seq<WritingRecord>, localeLe: (string, string) -> bool)
    ensures HpAdditions(GeneratedHomophone(qs, records, localeLe), NextId(qs, Homophone, "hp"), qs, records)
  {
    var groups := SortBy(ReadingGroups(records), ByReading(localeLe));
    var items := AllItems(groups, BankSets(qs), Dedup(RecordAnswers(records)), localeLe);
    SortedGroupsOfRecords(records, localeLe);
    AllItemsGood(groups, BankSets(qs), Dedup(RecordAnswers(records)), localeLe, records);
    NumberedHomophones(items, ExistingKeys(qs), IdMaker("hp"), NextId(qs, Homophone, "hp"), records);
    HpAdditionsFacts(qs, records, NextId(qs, Homophone, "hp"),
      KeyedNumbered(items, 0, ExistingKeys(qs), IdMaker("hp"), NextId(qs, Homophone, "hp")));
  }
}
