/** The reading generator: for each katakana-target writing question, a
    four-choice reading question asking for the hiragana reading of its
    answer kanji, with distractors drawn from the readings of the other
    writing questions. Reading and writing the JSON file, the command line
    and the console summary are outside the model. */
module ReadingBank {
  import opened Types
  import opened Strs
  import opened Seqs
  import opened BankText
  import opened OnKunBank

  /** What the source of a generated reading question starts with. */
  const GeneratedReadingPrefix: string := "generated-from-"

  const ReadingPrompt: string := "線のついた漢字の読みをひらがなで答えなさい。"

  // ----- pickDistractors -----

  /** The pool without the answer, each reading once. */
  function Filtered(answer: string, pool: seq<string>): seq<string>
  {
    Dedup(Filter(pool, Other(answer)))
  }

  /** `Math.abs(x.length - answer.length) <= 1` */
  function NearLength(answer: string): string -> bool
  {
    (x: string) => |x| - |answer| <= 1 && |answer| - |x| <= 1
  }

  /** The readings of nearly the answer's length when there are three of
      them, otherwise all of the filtered pool. */
  function DistractorBase(answer: string, pool: seq<string>): seq<string>
  {
    var near := Filter(Filtered(answer, pool), NearLength(answer));
    if |near| >= 3 then near else Filtered(answer, pool)
  }

  /** The loop that tops `out` up to `limit` with the values of `rest` it
      does not hold yet. */
  function TopUp(out: seq<string>, rest: seq<string>, limit: nat): seq<string>
    decreases |rest|
  {
    if rest == [] || |out| >= limit then out
    else if rest[0] in out then TopUp(out, rest[1..], limit)
    else TopUp(out + [rest[0]], rest[1..], limit)
  }

  /** `pickDistractors(answer, pool, seedKey)` as written: the first three
      of the shuffled base, topped up from the filtered pool when fewer. */
  function ReadingDistractors(answer: string, pool: seq<string>, seedKey: string): seq<string>
  {
    var out := Take(KeyedShuffle(DistractorBase(answer, pool), seedKey), 3);
    if |out| < 3 then TopUp(out, Filtered(answer, pool), 3) else out
  }

  /** Topping up from values `out` already holds adds nothing. */
  lemma {:induction false} TopUpNothingNew(out: seq<string>, rest: seq<string>, limit: nat)
    requires forall i | 0 <= i < |rest| :: rest[i] in out
    ensures TopUp(out, rest, limit) == out
  {
    if rest != [] && |out| < limit {
      assert rest[0] in out;
      TopUpNothingNew(out, rest[1..], limit);
    }
  }

  /** The top-up never adds anything: when the shuffled base gives fewer
      than three readings, the base is the whole filtered pool and all of it
      is already taken. */
  lemma TopUpIsDead(answer: string, pool: seq<string>, seedKey: string)
    ensures ReadingDistractors(answer, pool, seedKey) == Take(KeyedShuffle(DistractorBase(answer, pool), seedKey), 3)
  {
    var base := DistractorBase(answer, pool);
    var s := KeyedShuffle(base, seedKey);
    var out := Take(s, 3);
    KeyedShuffleFacts(base, seedKey);
    if |out| < 3 {
      assert base == Filtered(answer, pool);
      assert out == s;
      forall i | 0 <= i < |Filtered(answer, pool)| ensures Filtered(answer, pool)[i] in out {
        assert Filtered(answer, pool)[i] in base;
      }
      TopUpNothingNew(out, Filtered(answer, pool), 3);
    }
  }

  /** Never the answer, only readings of the pool, no reading twice, three
      of them unless the pool has fewer other readings, and all of nearly
      the answer's length when the pool has three such. */
  lemma ReadingDistractorsFacts(answer: string, pool: seq<string>, seedKey: string)
    ensures var d := ReadingDistractors(answer, pool, seedKey);
      && answer !in d
      && (forall x | x in d :: x in pool)
      && Distinct(d)
      && |d| == (if |Filtered(answer, pool)| < 3 then |Filtered(answer, pool)| else 3)
      && (|Filter(Filtered(answer, pool), NearLength(answer))| >= 3 ==> forall x | x in d :: NearLength(answer)(x))
  {
    var f := Filtered(answer, pool);
    var near := Filter(f, NearLength(answer));
    var base := DistractorBase(answer, pool);
    TopUpIsDead(answer, pool, seedKey);
    KeyedShuffleFacts(base, seedKey);
    DistinctFilter(f, NearLength(answer));
    var s := KeyedShuffle(base, seedKey);
    var d := Take(s, 3);
    forall x | x in d ensures x in s {
    }
  }

  /** `pickDistractors(answer, pool, seedKey)` */
  method PickReadingDistractors(answer: string, pool: seq<string>, seedKey: string) returns (out: seq<string>)
    ensures out == ReadingDistractors(answer, pool, seedKey)
  {
    var filtered := Filtered(answer, pool);
    var near := Filter(filtered, NearLength(answer));
    var base := if |near| >= 3 then near else filtered;
    var arr := ShuffleWithKey(base, seedKey);
    out := FirstThree(arr);
    if |out| < 3 {
      out := TopUpLoop(out, filtered, 3);
    }
  }

  /** `for (const v of arr) { if (out.length >= 3) break; out.push(v); }` */
  method FirstThree(arr: seq<string>) returns (out: seq<string>)
    ensures out == Take(arr, 3)
  {
    out := [];
    var i := 0;
    while i < |arr|
      invariant i <= |arr| && i <= 3 && out == arr[..i]
    {
      if |out| >= 3 {
        break;
      }
      out := out + [arr[i]];
      i := i + 1;
    }
  }

  /** The top-up loop over `rest`: stop at `limit`, skip what `out` holds. */
  method TopUpLoop(out0: seq<string>, rest: seq<string>, limit: nat) returns (out: seq<string>)
    ensures out == TopUp(out0, rest, limit)
  {
    out := out0;
    var i := 0;
    while i < |rest|
      invariant i <= |rest|
      invariant TopUp(out, rest[i..], limit) == TopUp(out0, rest, limit)
    {
      if |out| >= limit {
        break;
      }
      assert rest[i..][1..] == rest[i + 1..];
      if rest[i] !in out {
        out := out + [rest[i]];
      }
      i := i + 1;
    }
  }

  // ----- markTargetContext -----

  const OpenMark: string := "【"
  const CloseMark: string := "】"

  /** `markTargetContext(context, answer)`: the first occurrence of the
      answer put in 【】 brackets. */
  function MarkTargetContext(context: string, answer: string): string
  {
    if !Contains(context, answer) then context
    else ReplaceFirst(context, answer, OpenMark + answer + CloseMark)
  }

  /** Dropping whitespace keeps the two marks and strips the parts between them. */
  lemma SpacesAroundMarks(pre: string, answer: string, post: string)
    ensures Strip(pre + OpenMark + answer + CloseMark + post, IsSpace)
         == Strip(pre, IsSpace) + OpenMark + Strip(answer, IsSpace) + CloseMark + Strip(post, IsSpace)
  {
    StripAppend(pre + OpenMark + answer + CloseMark, post, IsSpace);
    StripAppend(pre + OpenMark + answer, CloseMark, IsSpace);
    StripAppend(pre + OpenMark, answer, IsSpace);
    StripAppend(pre, OpenMark, IsSpace);
    StripNothing(OpenMark, IsSpace);
    StripNothing(CloseMark, IsSpace);
  }

  /** Dropping brackets drops the two marks. */
  lemma BracketsDropMarks(pre: string, answer: string, post: string)
    ensures Strip(pre + OpenMark + answer + CloseMark + post, IsBracket) == Strip(pre + answer + post, IsBracket)
  {
    MarksAreBrackets();
    StripDropsTwo(pre, OpenMark, answer, CloseMark, post, IsBracket);
  }

  /** Two pieces the strip removes entirely leave no trace. */
  lemma StripDropsTwo(pre: string, o: string, answer: string, c: string, post: string, drop: char -> bool)
    requires Strip(o, drop) == [] && Strip(c, drop) == []
    ensures Strip(pre + o + answer + c + post, drop) == Strip(pre + answer + post, drop)
  {
    var sp, sa, sq := Strip(pre, drop), Strip(answer, drop), Strip(post, drop);
    calc {
      Strip(pre + o + answer + c + post, drop);
    == { StripAppend(pre + o + answer + c, post, drop); }
      Strip(pre + o + answer + c, drop) + sq;
    == { StripAppend(pre + o + answer, c, drop); }
      Strip(pre + o + answer, drop) + sq;
    == { StripAppend(pre + o, answer, drop); StripAppend(pre, o, drop); }
      sp + sa + sq;
    == { StripAppend(pre, answer, drop); StripAppend(pre + answer, post, drop); }
      Strip(pre + answer + post, drop);
    }
  }

  lemma MarksAreBrackets()
    ensures Strip(OpenMark, IsBracket) == [] && Strip(CloseMark, IsBracket) == []
  {
    assert IsBracket(OpenMark[0]) && IsBracket(CloseMark[0]);
    assert OpenMark[..0] == [] && CloseMark[..0] == [];
  }

  /** The key of a text with marks around a part is the key without them. */
  lemma MarksKeepKey(pre: string, answer: string, post: string)
    ensures NormalizeKey(pre + OpenMark + answer + CloseMark + post) == NormalizeKey(pre + answer + post)
  {
    var sp, sa, sq := Strip(pre, IsSpace), Strip(answer, IsSpace), Strip(post, IsSpace);
    SpacesAroundMarks(pre, answer, post);
    StripAppend(pre + answer, post, IsSpace);
    StripAppend(pre, answer, IsSpace);
    BracketsDropMarks(sp, sa, sq);
  }

  /** The brackets the mark adds are dropped by `normalizeKey`, so a marked
      context and the unmarked one have the same key. */
  lemma MarkedContextKey(context: string, answer: string)
    ensures NormalizeKey(MarkTargetContext(context, answer)) == NormalizeKey(context)
  {
    if Contains(context, answer) {
      var i := FindFirst(context, answer).value;
      var pre, post := context[..i], context[i + |answer|..];
      MarkedContextShape(context, answer);
      assert context == pre + answer + post;
      MarksKeepKey(pre, answer, post);
    }
  }

  /** The mark is where the answer first occurred, and the text around it is kept. */
  lemma MarkedContextShape(context: string, answer: string)
    requires Contains(context, answer)
    ensures var i := FindFirst(context, answer).value;
      MarkTargetContext(context, answer) == context[..i] + OpenMark + answer + CloseMark + context[i + |answer|..]
  {
    ReplaceFirstParts(context, answer, OpenMark + answer + CloseMark);
  }

  // ----- the loop body -----

  /** `/[ァ-ヶ]/.test(marked)` falls back to a context naming the kanji. */
  function FallbackContext(answer: string): string
  {
    OpenMark + answer + CloseMark + "の読みを選びなさい。"
  }

  /** The context of the reading question made from writing question `w`. */
  function ReadingContext(w: Question): string
  {
    var marked := MarkTargetContext(RestoreContext(w.context, w.target, w.answer), w.answer);
    if HasKatakana(marked) then FallbackContext(w.answer) else marked
  }

  /** A context keeps katakana only when the answer has some. */
  lemma ReadingContextKana(w: Question)
    requires !HasKatakana(w.answer)
    ensures !HasKatakana(ReadingContext(w))
  {
  }

  /** `${normalizeKey(context)}|${reading}`: what makes two reading questions the same. */
  function ReadingKey(context: string, reading: string): string
  {
    NormalizeKey(context) + "|" + reading
  }

  function ReadingExplanation(answer: string, reading: string): string
  {
    answer + " の読みは「" + reading + "」。"
  }

  /** The question for reading `reading` of writing question `w` with its
      context, or `None` when fewer than three distractors are found. */
  function ReadingDraft(w: Question, reading: string, context: string, pool: seq<string>): Option<Question>
  {
    var d := ReadingDistractors(reading, pool, w.id + ":" + w.target + ":" + w.answer);
    if |d| < 3 then None
    else
      var labels := KeyedShuffle([reading] + d, "choice:" + w.id);
      Some(Question("", Reading, GeneratedReadingPrefix + w.source, 1, if |reading| >= 4 then 2 else 1,
        ReadingPrompt, context, w.answer, reading, Some(ChoicesOf(labels)), None,
        Some(ReadingExplanation(w.answer, reading))))
  }

  /** What the loop body decides for writing question `w`: nothing when its
      target's hiragana is not a reading of at least `minReadingLength`
      characters, or else the key and the question. */
  function ReadingItemOf(w: Question, pool: seq<string>, minReadingLength: int): KeyedDraft
  {
    var reading := KatakanaToHiragana(w.target);
    if !IsReading(reading) || |reading| < minReadingLength then KeyedDraft("", None)
    else
      var context := ReadingContext(w);
      KeyedDraft(ReadingKey(context, reading), ReadingDraft(w, reading, context, pool))
  }

  method MakeReadingDraft(w: Question, reading: string, context: string, pool: seq<string>) returns (r: Option<Question>)
    ensures r == ReadingDraft(w, reading, context, pool)
  {
    var distractors := PickReadingDistractors(reading, pool, w.id + ":" + w.target + ":" + w.answer);
    if |distractors| < 3 {
      return None;
    }
    var choiceLabels := ShuffleWithKey([reading] + distractors, "choice:" + w.id);
    r := Some(Question("", Reading, GeneratedReadingPrefix + w.source, 1, if |reading| >= 4 then 2 else 1,
      ReadingPrompt, context, w.answer, reading, Some(ChoicesOf(choiceLabels)), None,
      Some(ReadingExplanation(w.answer, reading))));
  }

  method MakeReadingItem(w: Question, pool: seq<string>, minReadingLength: int) returns (item: KeyedDraft)
    ensures item == ReadingItemOf(w, pool, minReadingLength)
  {
    var reading := KatakanaToHiragana(w.target);
    if !IsReading(reading) || |reading| < minReadingLength {
      return KeyedDraft("", None);
    }
    var restored := RestoreContext(w.context, w.target, w.answer);
    var marked := MarkTargetContext(restored, w.answer);
    var context := if HasKatakana(marked) then FallbackContext(w.answer) else marked;
    var key := ReadingKey(context, reading);
    var draft := MakeReadingDraft(w, reading, context, pool);
    item := KeyedDraft(key, draft);
  }

  // ----- candidates, pool and keys -----

  /** The filter giving `writingCandidates`: a writing question with a
      target, an answer and a context, from OCR when `onlyOcr`, whose target
      holds katakana. */
  function WritingCandidate(onlyOcr: bool): Question -> bool
  {
    (w: Question) => && w.tag == Writing && w.target != "" && w.answer != "" && w.context != ""
         && (!onlyOcr || IsOcrSource(w.source)) && HasKatakana(w.target)
  }

  function WritingCandidates(qs: seq<Question>, onlyOcr: bool): seq<Question>
  {
    Filter(qs, WritingCandidate(onlyOcr))
  }

  /** The hiragana of each candidate's target. */
  function TargetReadings(ws: seq<Question>): (r: seq<string>)
    ensures |r| == |ws| && forall i | 0 <= i < |ws| :: r[i] == KatakanaToHiragana(ws[i].target)
  {
    seq(|ws|, i requires 0 <= i < |ws| => KatakanaToHiragana(ws[i].target))
  }

  /** `/^[ぁ-ゖー]{1,12}$/.test(x) && x.length >= minReadingLength` */
  function PoolReading(minReadingLength: int): string -> bool
  {
    (x: string) => IsReading(x) && |x| >= minReadingLength
  }

  /** `readingPool`: each usable reading of a candidate once, in order. */
  function ReadingPool(ws: seq<Question>, minReadingLength: int): seq<string>
  {
    Dedup(Filter(TargetReadings(ws), PoolReading(minReadingLength)))
  }

  /** A reading is in the pool exactly when it is the usable reading of a
      candidate's target, and no reading is there twice. */
  lemma ReadingPoolFacts(ws: seq<Question>, minReadingLength: int, x: string)
    ensures Distinct(ReadingPool(ws, minReadingLength))
    ensures x in ReadingPool(ws, minReadingLength) <==>
      IsReading(x) && |x| >= minReadingLength && exists i | 0 <= i < |ws| :: KatakanaToHiragana(ws[i].target) == x
  {
    var rs := TargetReadings(ws);
    if x in rs {
      var i :| 0 <= i < |rs| && rs[i] == x;
      assert KatakanaToHiragana(ws[i].target) == x;
    }
  }

  /** `existingReadingKey` */
  function ExistingReadingKeys(qs: seq<Question>): set<string>
  {
    set q | q in qs && q.tag == Reading :: ReadingKey(q.context, q.answer)
  }

  /** The loop body as a function value. */
  function ReadingMaker(pool: seq<string>, minReadingLength: int): Question -> KeyedDraft
  {
    (w: Question) => ReadingItemOf(w, pool, minReadingLength)
  }

  /** The loop's items, one per candidate. */
  function ReadingItems(mk: Question -> KeyedDraft, ws: seq<Question>): (items: seq<KeyedDraft>)
    ensures |items| == |ws|
  {
    if ws == [] then [] else ReadingItems(mk, ws[..|ws| - 1]) + [mk(ws[|ws| - 1])]
  }

  lemma {:induction false} ReadingItemsAt(mk: Question -> KeyedDraft, ws: seq<Question>, j: nat)
    requires j < |ws|
    ensures ReadingItems(mk, ws)[j] == mk(ws[j])
  {
    if j < |ws| - 1 {
      ReadingItemsAt(mk, ws[..|ws| - 1], j);
    }
  }

  method MakeReadingItems(ws: seq<Question>, pool: seq<string>, minReadingLength: int) returns (items: seq<KeyedDraft>)
    ensures items == ReadingItems(ReadingMaker(pool, minReadingLength), ws)
  {
    items := [];
    var i := 0;
    while i < |ws|
      invariant i <= |ws|
      invariant items == ReadingItems(ReadingMaker(pool, minReadingLength), ws[..i])
    {
      var item := MakeReadingItem(ws[i], pool, minReadingLength);
      assert item == ReadingMaker(pool, minReadingLength)(ws[i]);
      assert ws[..i + 1][..i] == ws[..i];
      items := items + [item];
      i := i + 1;
    }
    TakeAll(ws);
  }

  // ----- what the generator adds -----

  /** What the generator adds to the bank. */
  function GeneratedReadings(qs: seq<Question>, onlyOcr: bool, minReadingLength: int): seq<Question>
  {
    var ws := WritingCandidates(qs, onlyOcr);
    var pool := ReadingPool(ws, minReadingLength);
    KeyedNumbered(ReadingItems(ReadingMaker(pool, minReadingLength), ws), 0, ExistingReadingKeys(qs), IdMaker("r"), NextId(qs, Reading, "r"))
  }

  /** The candidates, the pool and the loop of `main`. */
  method GenerateReadingQuestions(qs: seq<Question>, onlyOcr: bool, minReadingLength: int) returns (additions: seq<Question>)
    ensures additions == GeneratedReadings(qs, onlyOcr, minReadingLength)
  {
    var existingReadingKey := ExistingReadingKeys(qs);
    var writingCandidates := WritingCandidates(qs, onlyOcr);
    var readingPool := ReadingPool(writingCandidates, minReadingLength);
    var nextId := NextId(qs, Reading, "r");
    var items := MakeReadingItems(writingCandidates, readingPool, minReadingLength);
    additions := PushKeyed(items, existingReadingKey, IdMaker("r"), nextId);
  }

  /** A reading question made from writing candidate `w`: its answer is the
      hiragana of `w`'s target and its target `w`'s kanji, four distinct
      choices hold the answer and readings of the pool, and difficulty 2
      goes with readings of four characters or more. */
  predicate ReadingFrom(q: Question, w: Question, pool: seq<string>, minReadingLength: int)
  {
    && q.tag == Reading && q.source == GeneratedReadingPrefix + w.source && q.points == 1
    && q.question == ReadingPrompt
    && q.answer == KatakanaToHiragana(w.target) && IsReading(q.answer) && |q.answer| >= minReadingLength
    && q.target == w.answer && q.context == ReadingContext(w)
    && q.difficulty == (if |q.answer| >= 4 then 2 else 1)
    && q.explanation == Some(ReadingExplanation(w.answer, q.answer))
    && q.choices.Some? && |ChoiceLabels(q)| == 4 && Distinct(ChoiceLabels(q)) && q.answer in ChoiceLabels(q)
    && (forall l | l in ChoiceLabels(q) :: l == q.answer || l in pool)
  }

  predicate GoodReadingItem(item: KeyedDraft, w: Question, pool: seq<string>, minReadingLength: int)
  {
    item.draft.Some? ==>
      ReadingFrom(item.draft.value, w, pool, minReadingLength)
      && item.key == ReadingKey(item.draft.value.context, item.draft.value.answer)
  }

  lemma ReadingDraftFacts(w: Question, reading: string, context: string, pool: seq<string>, minReadingLength: int)
    requires reading == KatakanaToHiragana(w.target) && IsReading(reading) && |reading| >= minReadingLength
    requires context == ReadingContext(w)
    ensures var d := ReadingDraft(w, reading, context, pool);
      d.Some? ==> ReadingFrom(d.value, w, pool, minReadingLength) && d.value.answer == reading && d.value.context == context
  {
    var d := ReadingDistractors(reading, pool, w.id + ":" + w.target + ":" + w.answer);
    if |d| >= 3 {
      ReadingDistractorsFacts(reading, pool, w.id + ":" + w.target + ":" + w.answer);
      ShuffledChoices(reading, d, "choice:" + w.id);
      var labels := KeyedShuffle([reading] + d, "choice:" + w.id);
      LabelsOfChoices(labels);
    }
  }

  lemma ReadingItemGood(w: Question, pool: seq<string>, minReadingLength: int)
    ensures GoodReadingItem(ReadingItemOf(w, pool, minReadingLength), w, pool, minReadingLength)
  {
    var reading := KatakanaToHiragana(w.target);
    if IsReading(reading) && |reading| >= minReadingLength {
      ReadingDraftFacts(w, reading, ReadingContext(w), pool, minReadingLength);
    }
  }

  /** A good reading question of one of the candidates. */
  predicate GoodReading(q: Question, ws: seq<Question>, pool: seq<string>, minReadingLength: int)
  {
    exists w | w in ws :: ReadingFrom(q, w, pool, minReadingLength)
  }

  predicate GoodReadingItems(items: seq<KeyedDraft>, ws: seq<Question>, pool: seq<string>, minReadingLength: int)
  {
    forall i | 0 <= i < |items| :: items[i].draft.Some? ==>
      GoodReading(items[i].draft.value, ws, pool, minReadingLength)
      && items[i].key == ReadingKey(items[i].draft.value.context, items[i].draft.value.answer)
  }

  lemma ReadingItemsGood(ws: seq<Question>, pool: seq<string>, minReadingLength: int)
    ensures GoodReadingItems(ReadingItems(ReadingMaker(pool, minReadingLength), ws), ws, pool, minReadingLength)
  {
    var mk := ReadingMaker(pool, minReadingLength);
    var items := ReadingItems(mk, ws);
    forall i | 0 <= i < |items| && items[i].draft.Some?
      ensures GoodReading(items[i].draft.value, ws, pool, minReadingLength)
      ensures items[i].key == ReadingKey(items[i].draft.value.context, items[i].draft.value.answer)
    {
      ReadingItemsAt(mk, ws, i);
      ReadingItemGood(ws[i], pool, minReadingLength);
      assert ReadingFrom(items[i].draft.value, ws[i], pool, minReadingLength);
    }
  }

  /** Giving a question an id changes nothing else about it. */
  lemma ReadingWithId(q: Question, id: string, ws: seq<Question>, pool: seq<string>, minReadingLength: int)
    requires GoodReading(q, ws, pool, minReadingLength)
    ensures GoodReading(q.(id := id), ws, pool, minReadingLength)
  {
    var w :| w in ws && ReadingFrom(q, w, pool, minReadingLength);
    assert ChoiceLabels(q.(id := id)) == ChoiceLabels(q);
    assert ReadingFrom(q.(id := id), w, pool, minReadingLength);
  }

  /** The `k`-th question is numbered by `idOf` with `start + k`, made from a
      candidate, of a key not in `seen`, and no two share a key. */
  predicate GoodReadingNumbering(r: seq<Question>, seen: set<string>, ws: seq<Question>, pool: seq<string>,
                                 minReadingLength: int, idOf: nat -> string, start: nat)
  {
    && (forall k | 0 <= k < |r| ::
          && r[k].id == idOf(start + k) && GoodReading(r[k], ws, pool, minReadingLength)
          && ReadingKey(r[k].context, r[k].answer) !in seen)
    && (forall k, l | 0 <= k < l < |r| :: ReadingKey(r[k].context, r[k].answer) != ReadingKey(r[l].context, r[l].answer))
  }

  lemma NumberedReadings(items: seq<KeyedDraft>, seen: set<string>, idOf: nat -> string, start: nat,
                         ws: seq<Question>, pool: seq<string>, minReadingLength: int)
    requires GoodReadingItems(items, ws, pool, minReadingLength)
    ensures GoodReadingNumbering(KeyedNumbered(items, 0, seen, idOf, start), seen, ws, pool, minReadingLength, idOf, start)
  {
    var js := KeyedNumberedSource(items, 0, seen, idOf, start);
    var r := KeyedNumbered(items, 0, seen, idOf, start);
    forall k | 0 <= k < |r|
      ensures r[k].id == idOf(start + k) && GoodReading(r[k], ws, pool, minReadingLength)
      ensures ReadingKey(r[k].context, r[k].answer) == items[js[k]].key
    {
      ReadingWithId(items[js[k]].draft.value, idOf(start + k), ws, pool, minReadingLength);
    }
  }

  /** What the generator adds: its `i`-th question is numbered by `IdMaker("r")`
      with `start + i` (that is, `FormatId("r", start + i)`) under an id no
      reading question of the bank has, is made from a candidate, has a
      key the bank does not hold yet, and no two of them share a key. */
  predicate ReadingAdditions(r: seq<Question>, start: nat, qs: seq<Question>, ws: seq<Question>, pool: seq<string>,
                             minReadingLength: int)
  {
    && (forall i | 0 <= i < |r| :: forall j | 0 <= j < |qs| && qs[j].tag == Reading :: qs[j].id != r[i].id)
    && GoodReadingNumbering(r, ExistingReadingKeys(qs), ws, pool, minReadingLength, IdMaker("r"), start)
  }

  /** Numbered on from the bank's next number, the ids are new to the bank. */
  lemma ReadingAdditionsFacts(qs: seq<Question>, ws: seq<Question>, pool: seq<string>, minReadingLength: int,
                              start: nat, r: seq<Question>)
    requires start == NextId(qs, Reading, "r")
    requires GoodReadingNumbering(r, ExistingReadingKeys(qs), ws, pool, minReadingLength, IdMaker("r"), start)
    ensures ReadingAdditions(r, start, qs, ws, pool, minReadingLength)
  {
    NumberedIdsFresh(qs, Reading, "r", r, start);
  }

  /** What the generator adds: its `i`-th question is numbered `r` with one
      past the bank's largest plus `i`; each is made from a writing
      candidate with distractors from the reading pool; and no two of them,
      nor any of them and a reading question of the bank, have the same
      normalized context and reading. */
  lemma GeneratedReadingsFacts(qs: seq<Question>, onlyOcr: bool, minReadingLength: int)
    ensures var ws := WritingCandidates(qs, onlyOcr);
      ReadingAdditions(GeneratedReadings(qs, onlyOcr, minReadingLength), NextId(qs, Reading, "r"), qs, ws,
                       ReadingPool(ws, minReadingLength), minReadingLength)
  {
    var ws := WritingCandidates(qs, onlyOcr);
    var pool := ReadingPool(ws, minReadingLength);
    var items := ReadingItems(ReadingMaker(pool, minReadingLength), ws);
    ReadingItemsGood(ws, pool, minReadingLength);
    NumberedReadings(items, ExistingReadingKeys(qs), IdMaker("r"), NextId(qs, Reading, "r"), ws, pool, minReadingLength);
    ReadingAdditionsFacts(qs, ws, pool, minReadingLength, NextId(qs, Reading, "r"),
      KeyedNumbered(items, 0, ExistingReadingKeys(qs), IdMaker("r"), NextId(qs, Reading, "r")));
  }

  // ----- main -----

  /** The filter of `--reset-generated`: generated reading questions go. */
  predicate KeepReading(q: Question)
  {
    !(q.tag == Reading && StartsWith(q.source, GeneratedReadingPrefix))
  }

  function ResetReadings(qs: seq<Question>): seq<Question>
  {
    Filter(qs, KeepReading)
  }

  /** A reset keeps exactly the questions that are not generated readings,
      and a reset after a run removes what the run added. */
  lemma ResetReadingsFacts(qs: seq<Question>, r: seq<Question>, start: nat, ws: seq<Question>, pool: seq<string>,
                           minReadingLength: int)
    requires ReadingAdditions(r, start, qs, ws, pool, minReadingLength)
    ensures forall q :: q in ResetReadings(qs) <==> q in qs && KeepReading(q)
    ensures ResetReadings(qs + r) == ResetReadings(qs)
  {
    forall i | 0 <= i < |r| ensures !KeepReading(r[i]) {
      assert GoodReading(r[i], ws, pool, minReadingLength);
      var w :| w in ws && ReadingFrom(r[i], w, pool, minReadingLength);
      assert r[i].source[..|GeneratedReadingPrefix|] == GeneratedReadingPrefix;
    }
    FilterNone(r, KeepReading);
    FilterAppend(qs, r, KeepReading);
  }

  function RegeneratedReadingBank(questions: seq<Question>, reset: bool, onlyOcr: bool, minReadingLength: int,
                                  localeLe: (string, string) -> bool): seq<Question>
  {
    var qs := if reset then ResetReadings(questions) else questions;
    SortBy(qs + GeneratedReadings(qs, onlyOcr, minReadingLength), BankOrder(localeLe))
  }

  /** `main()`, from the parsed bank to the bank it would write. */
  method RegenerateReadings(questions: seq<Question>, reset: bool, onlyOcr: bool, minReadingLength: int,
                            localeLe: (string, string) -> bool) returns (bank: seq<Question>)
    ensures bank == RegeneratedReadingBank(questions, reset, onlyOcr, minReadingLength, localeLe)
  {
    var qs := questions;
    if reset {
      qs := ResetReadings(qs);
    }
    var additions := GenerateReadingQuestions(qs, onlyOcr, minReadingLength);
    qs := qs + additions;
    bank := SortQuestions(qs, localeLe);
  }

  /** What a run leaves: a permutation of the (reset) bank and the
      additions, sorted by tag rank, from which a later reset removes the
      additions again. */
  lemma RegeneratedReadingBankFacts(questions: seq<Question>, reset: bool, onlyOcr: bool, minReadingLength: int,
                                    localeLe: (string, string) -> bool)
    requires TotalPreorder(localeLe)
    ensures var qs := if reset then ResetReadings(questions) else questions;
      var r := GeneratedReadings(qs, onlyOcr, minReadingLength);
      var bank := RegeneratedReadingBank(questions, reset, onlyOcr, minReadingLength, localeLe);
      var ws := WritingCandidates(qs, onlyOcr);
      && multiset(bank) == multiset(qs + r)
      && ReadingAdditions(r, NextId(qs, Reading, "r"), qs, ws, ReadingPool(ws, minReadingLength), minReadingLength)
      && ResetReadings(qs + r) == ResetReadings(qs)
      && (forall i, j | 0 <= i < j < |bank| :: TagRank(bank[i].tag) <= TagRank(bank[j].tag))
  {
    var qs := if reset then ResetReadings(questions) else questions;
    ReadingRunFacts(qs, GeneratedReadings(qs, onlyOcr, minReadingLength), onlyOcr, minReadingLength, localeLe);
  }

  lemma ReadingRunFacts(qs: seq<Question>, r: seq<Question>, onlyOcr: bool, minReadingLength: int,
                        localeLe: (string, string) -> bool)
    requires TotalPreorder(localeLe)
    requires r == GeneratedReadings(qs, onlyOcr, minReadingLength)
    ensures var bank := SortBy(qs + r, BankOrder(localeLe));
      var ws := WritingCandidates(qs, onlyOcr);
      && multiset(bank) == multiset(qs + r)
      && ReadingAdditions(r, NextId(qs, Reading, "r"), qs, ws, ReadingPool(ws, minReadingLength), minReadingLength)
      && ResetReadings(qs + r) == ResetReadings(qs)
      && (forall i, j | 0 <= i < j < |bank| :: TagRank(bank[i].tag) <= TagRank(bank[j].tag))
  {
    var ws := WritingCandidates(qs, onlyOcr);
    GeneratedReadingsFacts(qs, onlyOcr, minReadingLength);
    ResetReadingsFacts(qs, r, NextId(qs, Reading, "r"), ws, ReadingPool(ws, minReadingLength), minReadingLength);
    SortedBank(qs + r, localeLe);
  }
}
