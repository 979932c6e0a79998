/** The on/kun and homophone generator: it parses the on/kun answers already
    in the bank into a pool (with a built-in table filling the gaps), turns
    the single-kanji writing questions into records, and makes new four-choice
    on/kun and homophone questions whose distractors and choice order come
    from seeded shuffles. */
module OnKunBank {
  import opened Types
  import opened Strs
  import opened Seqs
  import opened Shuffle
  import opened BankText
  import opened OrderedMaps

  // ----- on/kun answers -----

  /** `{ on: [...], kun }`; `kun == None` is `null`. */
  datatype OnKunEntry = Entry(on: seq<string>, kun: Option<string>)

  const OnOnly: string := "（音のみ）"
  const Dot: char := '・'

  /** `entry.kun` is truthy: present and not empty. */
  predicate HasKun(e: OnKunEntry)
  {
    e.kun.Some? && e.kun.value != ""
  }

  /** `parseOnKunAnswer(answer)` */
  function ParseOnKunAnswer(text: string): Option<OnKunEntry>
  {
    if text == "" then None
    else if Contains(text, OnOnly) then
      var on := Pieces(RemoveAll(text, OnOnly), Dot);
      if |on| > 0 then Some(Entry(on, None)) else None
    else
      var parts := Pieces(text, Dot);
      if |parts| == 0 then None
      else Some(Entry([parts[0]], if |parts| >= 2 then Some(parts[1]) else None))
  }

  /** `formatOnKunAnswer(entry)` */
  function FormatOnKunAnswer(e: OnKunEntry): string
  {
    if !HasKun(e) then Join(e.on, Dot) + OnOnly
    else Join(e.on, Dot) + [Dot] + e.kun.value
  }

  /** A reading that is not empty and holds neither the separator nor the
      opening bracket of the on-only marker. */
  predicate IsPlainReading(r: string)
  {
    r != "" && NoChar(r, Dot) && NoChar(r, '（')
  }

  predicate WellFormed(e: OnKunEntry)
  {
    && |e.on| >= 1
    && (forall i | 0 <= i < |e.on| :: IsPlainReading(e.on[i]))
    && (e.kun.None? || IsPlainReading(e.kun.value))
  }

  /** What parsing a formatted entry gives: an entry without kun comes back
      whole; an entry with kun comes back with its first on reading only, and
      its kun replaced by the second on reading when there is one. */
  lemma ParseFormat(e: OnKunEntry)
    requires WellFormed(e)
    ensures ParseOnKunAnswer(FormatOnKunAnswer(e)) ==
      if HasKun(e) then Some(Entry([e.on[0]], Some(if |e.on| == 1 then e.kun.value else e.on[1])))
      else Some(e)
  {
    if HasKun(e) {
      ParseFormatKun(e);
    } else {
      ParseFormatOnOnly(e);
    }
  }

  lemma ParseFormatKun(e: OnKunEntry)
    requires WellFormed(e) && HasKun(e)
    ensures ParseOnKunAnswer(FormatOnKunAnswer(e)) ==
      Some(Entry([e.on[0]], Some(if |e.on| == 1 then e.kun.value else e.on[1])))
  {
    var parts := e.on + [e.kun.value];
    assert parts[..|parts| - 1] == e.on;
    var text := Join(parts, Dot);
    assert text == FormatOnKunAnswer(e);
    assert EachNoChar(parts, Dot);
    assert EachNoChar(parts, '（');
    SplitJoin(parts, Dot);
    NonEmptyKeeps(parts);
    JoinNoChar(parts, Dot, '（');
    NotContains(text, OnOnly);
  }

  lemma ParseFormatOnOnly(e: OnKunEntry)
    requires WellFormed(e) && !HasKun(e)
    ensures ParseOnKunAnswer(FormatOnKunAnswer(e)) == Some(e)
  {
    var body := Join(e.on, Dot);
    assert EachNoChar(e.on, '（');
    JoinNoChar(e.on, Dot, '（');
    var text := body + OnOnly;
    assert OccursAt(text, OnOnly, |body|) by {
      assert text[|body|..|body| + |OnOnly|] == OnOnly;
    }
    RemoveTrailingMarker(body, OnOnly);
    assert EachNoChar(e.on, Dot);
    SplitJoin(e.on, Dot);
    NonEmptyKeeps(e.on);
  }

  /** The formatted answer parses back to the entry exactly when the entry
      has no kun reading or a single on reading. */
  lemma OnKunRoundTrip(e: OnKunEntry)
    requires WellFormed(e)
    ensures ParseOnKunAnswer(FormatOnKunAnswer(e)) == Some(e) <==> !HasKun(e) || |e.on| == 1
  {
    ParseFormat(e);
    if HasKun(e) && |e.on| == 1 {
      assert e.on == [e.on[0]];
    }
  }

  /** 易 in the built-in table has two on readings and a kun reading:
      formatted as エキ・イ・やさしい it parses back as on エキ, kun イ. */
  lemma EasyDoesNotRoundTrip()
    ensures var e := Entry(["エキ", "イ"], Some("やさしい"));
      && FormatOnKunAnswer(e) == "エキ・イ・やさしい"
      && ParseOnKunAnswer(FormatOnKunAnswer(e)) == Some(Entry(["エキ"], Some("イ")))
  {
    var e := Entry(["エキ", "イ"], Some("やさしい"));
    assert e.on[..1] == ["エキ"];
    assert IsPlainReading("エキ") && IsPlainReading("イ") && IsPlainReading("やさしい");
    assert WellFormed(e);
    ParseFormat(e);
  }

  // ----- buildOnKunPool -----

  predicate HasKanjiChar(s: string)
  {
    exists i | 0 <= i < |s| :: IsKanjiChar(s[i])
  }

  /** The pool key and entry an on/kun question contributes: its trimmed
      context when that is a single kanji, with its parsed answer. */
  function PoolSlotOf(q: Question): (r: Option<Slot<OnKunEntry>>)
    ensures r.Some? ==> |r.value.key| == 1 && IsKanjiChar(r.value.key[0])
  {
    if q.tag != OnKun then None
    else
      var kanji := Trim(q.context);
      if !HasKanjiChar(kanji) then None
      else if |kanji| != 1 then None
      else match ParseOnKunAnswer(q.answer)
        case None => None
        case Some(e) => Some(Slot(kanji, e))
  }

  /** The map after the loop over the bank. */
  function ParsedPool(qs: seq<Question>): seq<Slot<OnKunEntry>>
  {
    if qs == [] then []
    else
      var m := ParsedPool(qs[..|qs| - 1]);
      match PoolSlotOf(qs[|qs| - 1])
      case None => m
      case Some(x) => Put(m, x.key, x.value)
  }

  /** The built-in table added only for kanji the bank did not provide. */
  function FillMissing(pool: seq<Slot<OnKunEntry>>, manual: seq<Slot<OnKunEntry>>): seq<Slot<OnKunEntry>>
  {
    if manual == [] then pool
    else
      var m := FillMissing(pool, manual[..|manual| - 1]);
      var x := manual[|manual| - 1];
      if Get(m, x.key).None? then Put(m, x.key, x.value) else m
  }

  function OnKunPool(qs: seq<Question>, manual: seq<Slot<OnKunEntry>>): seq<Slot<OnKunEntry>>
  {
    FillMissing(ParsedPool(qs), manual)
  }

  /** `buildOnKunPool(questions)`, with the built-in table as `manual`. */
  method BuildOnKunPool(qs: seq<Question>, manual: seq<Slot<OnKunEntry>>) returns (pool: seq<Slot<OnKunEntry>>)
    ensures pool == OnKunPool(qs, manual)
  {
    pool := [];
    var i := 0;
    while i < |qs|
      invariant 0 <= i <= |qs|
      invariant pool == ParsedPool(qs[..i])
    {
      assert qs[..i + 1][..i] == qs[..i];
      var slot := PoolSlotOf(qs[i]);
      if slot.Some? {
        pool := Put(pool, slot.value.key, slot.value.value);
      }
      i := i + 1;
    }
    assert qs[..i] == qs;
    ghost var parsed := pool;
    var k := 0;
    while k < |manual|
      invariant 0 <= k <= |manual|
      invariant pool == FillMissing(parsed, manual[..k])
    {
      assert manual[..k + 1][..k] == manual[..k];
      if Get(pool, manual[k].key).None? {
        pool := Put(pool, manual[k].key, manual[k].value);
      }
      k := k + 1;
    }
    assert manual[..k] == manual;
  }

  /** The entry of the last on/kun question of the bank whose context is the
      single kanji `k` and whose answer parses. */
  function LastParsed(qs: seq<Question>, k: string): (r: Option<OnKunEntry>)
    ensures r.Some? ==> |k| == 1 && IsKanjiChar(k[0])
  {
    if qs == [] then None
    else match PoolSlotOf(qs[|qs| - 1])
      case Some(x) => if x.key == k then Some(x.value) else LastParsed(qs[..|qs| - 1], k)
      case None => LastParsed(qs[..|qs| - 1], k)
  }

  lemma {:induction false} ParsedPoolGet(qs: seq<Question>, k: string)
    ensures Get(ParsedPool(qs), k) == LastParsed(qs, k)
  {
    if qs != [] {
      ParsedPoolGet(qs[..|qs| - 1], k);
      var x := PoolSlotOf(qs[|qs| - 1]);
      if x.Some? {
        PutGet(ParsedPool(qs[..|qs| - 1]), x.value.key, x.value.value, k);
      }
    }
  }

  lemma {:induction false} FillMissingGet(pool: seq<Slot<OnKunEntry>>, manual: seq<Slot<OnKunEntry>>, k: string)
    ensures Get(FillMissing(pool, manual), k) == if Get(pool, k).Some? then Get(pool, k) else Get(manual, k)
  {
    if manual != [] {
      var init := manual[..|manual| - 1];
      var x := manual[|manual| - 1];
      FillMissingGet(pool, init, k);
      var m := FillMissing(pool, init);
      if Get(m, x.key).None? {
        PutGet(m, x.key, x.value, k);
      }
      InitLast(manual);
      GetSnoc(init, x, k);
    }
  }

  /** The pool reads, for each kanji, the entry parsed from the last on/kun
      question about it; only kanji the bank does not cover read the
      built-in table. */
  lemma OnKunPoolGet(qs: seq<Question>, manual: seq<Slot<OnKunEntry>>, k: string)
    ensures Get(OnKunPool(qs, manual), k) ==
      if LastParsed(qs, k).Some? then LastParsed(qs, k) else Get(manual, k)
  {
    ParsedPoolGet(qs, k);
    FillMissingGet(ParsedPool(qs), manual, k);
  }

  lemma {:induction false} OnKunPoolDistinct(qs: seq<Question>, manual: seq<Slot<OnKunEntry>>)
    ensures DistinctKeys(OnKunPool(qs, manual))
  {
    ParsedPoolDistinct(qs);
    FillMissingDistinct(ParsedPool(qs), manual);
  }

  lemma {:induction false} ParsedPoolDistinct(qs: seq<Question>)
    ensures DistinctKeys(ParsedPool(qs))
  {
    if qs != [] {
      ParsedPoolDistinct(qs[..|qs| - 1]);
      var x := PoolSlotOf(qs[|qs| - 1]);
      if x.Some? {
        PutDistinct(ParsedPool(qs[..|qs| - 1]), x.value.key, x.value.value);
      }
    }
  }

  lemma {:induction false} FillMissingDistinct(pool: seq<Slot<OnKunEntry>>, manual: seq<Slot<OnKunEntry>>)
    requires DistinctKeys(pool)
    ensures DistinctKeys(FillMissing(pool, manual))
  {
    if manual != [] {
      var init := manual[..|manual| - 1];
      var x := manual[|manual| - 1];
      FillMissingDistinct(pool, init);
      var m := FillMissing(pool, init);
      if Get(m, x.key).None? {
        PutDistinct(m, x.key, x.value);
      }
    }
  }

  // ----- buildWritingRecords -----

  datatype WritingRecord = WritingRecord(sourceId: string, source: string, answer: string, reading: string, restored: string)

  /** `/^ocr-(answer|auto)-/` */
  predicate IsOcrSource(source: string)
  {
    StartsWith(source, "ocr-answer-") || StartsWith(source, "ocr-auto-")
  }

  /** The context with its katakana target replaced by the answer, when the
      target occurs in it. */
  function RestoreContext(context: string, target: string, answer: string): string
  {
    if Contains(context, target) then ReplaceFirst(context, target, answer) else context
  }

  /** The record a writing question gives, or `None` when the loop skips it. */
  function WritingRecordOf(q: Question, onlyOcr: bool, minReadingLength: int): (r: Option<WritingRecord>)
    ensures r.Some? ==> && IsReading(r.value.reading) && |r.value.reading| >= minReadingLength
                        && |r.value.answer| == 1 && r.value.answer == q.answer
                        && r.value.reading == KatakanaToHiragana(q.target) && r.value.sourceId == q.id
  {
    if q.tag != Writing then None
    else if q.answer == "" || q.target == "" || q.context == "" then None
    else if onlyOcr && !IsOcrSource(q.source) then None
    else if |q.answer| != 1 then None
    else
      var reading := KatakanaToHiragana(q.target);
      if !IsReading(reading) then None
      else if |reading| < minReadingLength then None
      else Some(WritingRecord(q.id, q.source, q.answer, reading, RestoreContext(q.context, q.target, q.answer)))
  }

  function WritingRecords(qs: seq<Question>, onlyOcr: bool, minReadingLength: int): seq<WritingRecord>
  {
    if qs == [] then []
    else
      var init := WritingRecords(qs[..|qs| - 1], onlyOcr, minReadingLength);
      match WritingRecordOf(qs[|qs| - 1], onlyOcr, minReadingLength)
      case None => init
      case Some(r) => init + [r]
  }

  /** Every record comes from a question the loop accepts, and every
      accepted question gives its record. */
  lemma {:induction false} WritingRecordsMembers(qs: seq<Question>, onlyOcr: bool, minReadingLength: int, x: WritingRecord)
    ensures x in WritingRecords(qs, onlyOcr, minReadingLength) <==>
      exists i | 0 <= i < |qs| :: WritingRecordOf(qs[i], onlyOcr, minReadingLength) == Some(x)
  {
    if qs != [] {
      var init := qs[..|qs| - 1];
      WritingRecordsMembers(init, onlyOcr, minReadingLength, x);
      assert forall i | 0 <= i < |init| :: init[i] == qs[i];
    }
  }

  /** `buildWritingRecords(questions, onlyOcr, minReadingLength)` */
  method BuildWritingRecords(qs: seq<Question>, onlyOcr: bool, minReadingLength: int) returns (out: seq<WritingRecord>)
    ensures out == WritingRecords(qs, onlyOcr, minReadingLength)
  {
    out := [];
    var i := 0;
    while i < |qs|
      invariant 0 <= i <= |qs|
      invariant out == WritingRecords(qs[..i], onlyOcr, minReadingLength)
    {
      assert qs[..i + 1][..i] == qs[..i];
      var r := WritingRecordOf(qs[i], onlyOcr, minReadingLength);
      if r.Some? {
        out := out + [r.value];
      }
      i := i + 1;
    }
    assert qs[..i] == qs;
  }

  // ----- pickDistractors -----

  /** `l => l !== x` */
  function Other(x: string): string -> bool
  {
    l => l != x
  }

  /** The distractors `pickDistractors(correct, labels, seedKey, count)` returns. */
  function Distractors(correct: string, labels: seq<string>, seedKey: string, count: nat): seq<string>
  {
    Take(KeyedShuffle(Filter(labels, Other(correct)), seedKey), count)
  }

  method PickDistractors(correct: string, labels: seq<string>, seedKey: string, count: nat) returns (r: seq<string>)
    ensures r == Distractors(correct, labels, seedKey, count)
  {
    var pool := Filter(labels, Other(correct));
    var arr := ShuffleWithKey(pool, seedKey);
    r := Take(arr, count);
  }

  /** Never the correct label, only labels from the list, as many as asked
      for or as there are other labels, and distinct when the labels are. */
  lemma DistractorsFacts(correct: string, labels: seq<string>, seedKey: string, count: nat)
    ensures var d := Distractors(correct, labels, seedKey, count);
      && correct !in d
      && (forall x | x in d :: x in labels)
      && |d| == (if count < |Filter(labels, Other(correct))| then count else |Filter(labels, Other(correct))|)
      && (Distinct(labels) ==> Distinct(d))
  {
    var pool := Filter(labels, Other(correct));
    KeyedShuffleFacts(pool, seedKey);
    var s := KeyedShuffle(pool, seedKey);
    var d := Take(s, count);
    forall x | x in d ensures x in pool {
      assert x in s;
    }
    if Distinct(labels) {
      DistinctFilter(labels, Other(correct));
    }
  }

  // ----- homophone context and target -----

  /** The blank `（　）` a homophone context shows in place of its answer. */
  const Blank: string := "（　）"

  /** `makeHomophoneContext(restored, answer)` */
  function MakeHomophoneContext(restored: string, answer: string): string
  {
    if Contains(restored, answer) then ReplaceFirst(restored, answer, Blank)
    else "「" + answer + PromptTail
  }

  const PromptTail: string := "」に当てはまる漢字を選びなさい。"

  predicate NoLineTerminator(s: string)
  {
    forall k | 0 <= k < |s| :: !IsLineTerminator(s[k])
  }

  /** `s.replace(/。.*$/, '')`: the text is cut at the first `。` after which
      no line terminator follows (`.` stops at one and `$` is the very end). */
  function CutSentence(s: string): (r: string)
    ensures |r| <= |s| && s[..|r|] == r
    ensures r == s || (s[|r|] == '。' && NoLineTerminator(s[|r| + 1..]))
    ensures forall k | 0 <= k < |r| && s[k] == '。' :: !NoLineTerminator(s[k + 1..])
  {
    if s == [] then s
    else if s[0] == '。' && NoLineTerminator(s[1..]) then []
    else
      var rest := CutSentence(s[1..]);
      assert forall k | 1 <= k < |s| :: s[1..][k - 1..] == s[k..];
      [s[0]] + rest
  }

  /** The short part of a context around its blank: the text before it when
      nothing follows in its sentence, the text after it when nothing comes
      before it, and the bare blank otherwise. */
  function BlankTarget(head: string, tail: string): string
  {
    if head != "" && tail == "" then head + Blank
    else if head == "" && tail != "" then Blank + tail
    else Blank
  }

  /** `makeHomophoneTarget(context)` */
  function MakeHomophoneTarget(context: string): string
  {
    match FindFirst(context, Blank)
    case None => Blank
    case Some(i) => BlankTarget(Trim(context[..i]), Trim(CutSentence(context[i + |Blank|..])))
  }

  /** The blank stands in the context where the answer first stood, and
      putting the answer back gives the restored sentence again. */
  lemma HomophoneContextRoundTrip(restored: string, answer: string)
    requires Contains(restored, answer) && NoChar(restored, '（')
    ensures var i := FindFirst(restored, answer).value;
      && FindFirst(MakeHomophoneContext(restored, answer), Blank) == Some(i)
      && ReplaceFirst(MakeHomophoneContext(restored, answer), Blank, answer) == restored
  {
    var i := FindFirst(restored, answer).value;
    ReplaceFirstParts(restored, answer, Blank);
    assert Blank[0] == '（';
    ReplaceBack(restored, answer, Blank, MakeHomophoneContext(restored, answer), i);
  }

  /** The target of a generated homophone question is built from the text
      before the answer in the restored sentence and the rest of its
      sentence after the answer; a sentence without the answer gives the
      bare blank. */
  lemma HomophoneTargetOf(restored: string, answer: string)
    requires NoChar(restored, '（') && NoChar(answer, '（')
    ensures MakeHomophoneTarget(MakeHomophoneContext(restored, answer)) ==
      if Contains(restored, answer) then
        var i := FindFirst(restored, answer).value;
        BlankTarget(Trim(restored[..i]), Trim(CutSentence(restored[i + |answer|..])))
      else Blank
  {
    var c := MakeHomophoneContext(restored, answer);
    if Contains(restored, answer) {
      var i := FindFirst(restored, answer).value;
      HomophoneContextRoundTrip(restored, answer);
      ReplaceFirstParts(restored, answer, Blank);
      assert c[..i] == restored[..i];
      assert c[i + |Blank|..] == restored[i + |answer|..];
    } else {
      assert c == "「" + answer + PromptTail;
      forall k ensures !OccursAt(c, Blank, k) {
        if 0 <= k && k + |Blank| <= |c| {
          assert c[k..k + |Blank|][0] == c[k];
          if k == 0 {
          } else if k <= |answer| {
            assert c[k] == answer[k - 1];
          } else {
            assert c[k] == PromptTail[k - 1 - |answer|];
          }
        }
      }
    }
  }

  /** Every target holds the blank, at its start or at its end. */
  lemma HomophoneTargetShape(context: string)
    ensures var t := MakeHomophoneTarget(context);
      StartsWith(t, Blank) || t[|t| - |Blank|..] == Blank
  {
  }

  // ----- generateOnKunQuestions -----

  const GeneratedOkPrefix: string := "generated-ok-ocr"
  const GeneratedHpPrefix: string := "generated-hp-ocr"
  const OnKunPrompt: string := "漢字の音読みと訓読みの組み合わせを選びなさい。"
  const HomophonePrompt: string := "（　）に入る漢字を選びなさい。"

  /** `labels.map((label) => ({ label }))` */
  function ChoicesOf(labels: seq<string>): (cs: seq<Choice>)
    ensures |cs| == |labels| && forall i | 0 <= i < |labels| :: cs[i] == Choice(labels[i], None)
  {
    seq(|labels|, i requires 0 <= i < |labels| => Choice(labels[i], None))
  }

  function LabelsOf(cs: seq<Choice>): (labels: seq<string>)
    ensures |labels| == |cs| && forall i | 0 <= i < |cs| :: labels[i] == cs[i].labelText
  {
    seq(|cs|, i requires 0 <= i < |cs| => cs[i].labelText)
  }

  lemma LabelsOfChoices(labels: seq<string>)
    ensures LabelsOf(ChoicesOf(labels)) == labels
  {
  }

  /** The labels of a multiple-choice question (none for a handwriting one). */
  function ChoiceLabels(q: Question): seq<string>
  {
    if q.choices.Some? then LabelsOf(q.choices.value) else []
  }

  function OnKunExplanation(ch: string, e: OnKunEntry): string
  {
    if HasKun(e) then ch + " の音読みは「" + Join(e.on, Dot) + "」、訓読みは「" + e.kun.value + "」。"
    else ch + " は「" + Join(e.on, Dot) + "」の音読み中心で使う漢字。"
  }

  /** The question for kanji `ch` before it is numbered (its id is left
      empty), or `None` when fewer than three other labels are available. */
  function OnKunDraft(ch: string, e: OnKunEntry, allLabels: seq<string>): Option<Question>
  {
    var answer := FormatOnKunAnswer(e);
    var d := Distractors(answer, allLabels, "ok:" + ch + ":" + answer, 3);
    if |d| < 3 then None
    else
      var labels := KeyedShuffle([answer] + d, "ok-choice:" + ch);
      Some(Question("", OnKun, GeneratedOkPrefix, 2, if HasKun(e) then 2 else 3,
        OnKunPrompt, ch, ch, answer, Some(ChoicesOf(labels)), None, Some(OnKunExplanation(ch, e))))
  }

  predicate InPool(pool: seq<Slot<OnKunEntry>>, chars: seq<string>)
  {
    forall i | 0 <= i < |chars| :: Get(pool, chars[i]).Some?
  }

  lemma InPoolPrefix(pool: seq<Slot<OnKunEntry>>, chars: seq<string>, i: nat)
    requires InPool(pool, chars) && i <= |chars|
    ensures InPool(pool, chars[..i])
  {
    assert forall j | 0 <= j < i :: chars[..i][j] == chars[j];
  }

  /** The draft for every kanji the loop visits. */
  function OnKunDrafts(chars: seq<string>, pool: seq<Slot<OnKunEntry>>, allLabels: seq<string>): (ds: seq<Option<Question>>)
    requires InPool(pool, chars)
    ensures |ds| == |chars|
  {
    if chars == [] then []
    else
      InPoolPrefix(pool, chars, |chars| - 1);
      var last := chars[|chars| - 1];
      OnKunDrafts(chars[..|chars| - 1], pool, allLabels) + [OnKunDraft(last, Get(pool, last).value, allLabels)]
  }

  lemma {:induction false} OnKunDraftsAt(chars: seq<string>, pool: seq<Slot<OnKunEntry>>, allLabels: seq<string>, j: nat)
    requires InPool(pool, chars) && j < |chars|
    ensures OnKunDrafts(chars, pool, allLabels)[j] == OnKunDraft(chars[j], Get(pool, chars[j]).value, allLabels)
  {
    InPoolPrefix(pool, chars, |chars| - 1);
    if j < |chars| - 1 {
      OnKunDraftsAt(chars[..|chars| - 1], pool, allLabels, j);
    }
  }

  /** The single-kanji contexts of the bank's on/kun questions. */
  function ExistingTargets(qs: seq<Question>): set<string>
  {
    set q | q in qs && q.tag == OnKun && |Trim(q.context)| == 1 :: Trim(q.context)
  }

  /** `[...new Set([...pool.values()].map(formatOnKunAnswer))]` */
  function AllLabels(pool: seq<Slot<OnKunEntry>>): seq<string>
  {
    var vs := Values(pool);
    Dedup(seq(|vs|, i requires 0 <= i < |vs| => FormatOnKunAnswer(vs[i])))
  }

  function RecordAnswers(records: seq<WritingRecord>): (r: seq<string>)
    ensures |r| == |records| && forall i | 0 <= i < |records| :: r[i] == records[i].answer
  {
    seq(|records|, i requires 0 <= i < |records| => records[i].answer)
  }

  function NotIn(s: set<string>): string -> bool
  {
    c => c !in s
  }

  function HasEntry(pool: seq<Slot<OnKunEntry>>): string -> bool
  {
    c => Get(pool, c).Some?
  }

  /** The kanji the loop visits: the distinct answers of the records that
      have no question yet and an entry in the pool, in locale order. */
  function CandidateChars(qs: seq<Question>, records: seq<WritingRecord>, pool: seq<Slot<OnKunEntry>>,
                          localeLe: (string, string) -> bool): seq<string>
  {
    SortBy(Filter(Filter(Dedup(RecordAnswers(records)), NotIn(ExistingTargets(qs))), HasEntry(pool)), localeLe)
  }

  /** Kanji fit to be visited: distinct, in the pool, answered by some
      writing record and not yet asked about by the bank. */
  predicate Candidates(cs: seq<string>, qs: seq<Question>, records: seq<WritingRecord>, pool: seq<Slot<OnKunEntry>>)
  {
    && Distinct(cs) && InPool(pool, cs)
    && forall c | c in cs :: c !in ExistingTargets(qs) && c in RecordAnswers(records)
  }

  lemma CandidateCharsFacts(qs: seq<Question>, records: seq<WritingRecord>, pool: seq<Slot<OnKunEntry>>,
                            localeLe: (string, string) -> bool)
    ensures Candidates(CandidateChars(qs, records, pool, localeLe), qs, records, pool)
  {
    var d := Dedup(RecordAnswers(records));
    var unseen := Filter(d, NotIn(ExistingTargets(qs)));
    var f := Filter(unseen, HasEntry(pool));
    DistinctFilter(d, NotIn(ExistingTargets(qs)));
    DistinctFilter(unseen, HasEntry(pool));
    SortByMembers(f, localeLe);
    var cs := CandidateChars(qs, records, pool, localeLe);
    forall i | 0 <= i < |cs| ensures Get(pool, cs[i]).Some? {
      assert cs[i] in f;
      assert HasEntry(pool)(cs[i]);
    }
  }

  /** What the on/kun generator adds to the bank. */
  function GeneratedOnKun(qs: seq<Question>, records: seq<WritingRecord>, manual: seq<Slot<OnKunEntry>>,
                          localeLe: (string, string) -> bool): seq<Question>
  {
    OnKunFromPool(qs, records, OnKunPool(qs, manual), localeLe)
  }

  /** The additions made with the given pool. */
  function OnKunFromPool(qs: seq<Question>, records: seq<WritingRecord>, pool: seq<Slot<OnKunEntry>>,
                         localeLe: (string, string) -> bool): seq<Question>
  {
    CandidateCharsFacts(qs, records, pool, localeLe);
    var chars := CandidateChars(qs, records, pool, localeLe);
    Numbered(OnKunDrafts(chars, pool, AllLabels(pool)), 0, IdMaker("ok"), NextId(qs, OnKun, "ok"))
  }

  /** `generateOnKunQuestions(questions, writingRecords)`, with the built-in
      table as `manual` and the `'ja'` collation as `localeLe`. */
  method GenerateOnKunQuestions(qs: seq<Question>, records: seq<WritingRecord>, manual: seq<Slot<OnKunEntry>>,
                                localeLe: (string, string) -> bool) returns (additions: seq<Question>)
    ensures additions == GeneratedOnKun(qs, records, manual, localeLe)
  {
    var pool := BuildOnKunPool(qs, manual);
    var allLabels := AllLabels(pool);
    var nextOk := NextId(qs, OnKun, "ok");
    var chars := CandidateChars(qs, records, pool, localeLe);
    CandidateCharsFacts(qs, records, pool, localeLe);
    additions := OnKunLoop(chars, pool, allLabels, IdMaker("ok"), nextOk);
  }

  /** The loop of `generateOnKunQuestions` over the candidate kanji, in
      two passes: the question for each kanji, then the numbering of those
      that were made; `idOf` formats the counter into an id. */
  method OnKunLoop(chars: seq<string>, pool: seq<Slot<OnKunEntry>>, allLabels: seq<string>, idOf: nat -> string, start: nat)
    returns (additions: seq<Question>)
    requires InPool(pool, chars)
    ensures additions == Numbered(OnKunDrafts(chars, pool, allLabels), 0, idOf, start)
  {
    var drafts := MakeOnKunDrafts(chars, pool, allLabels);
    additions := PushNumbered(drafts, idOf, start);
  }

  method MakeOnKunDrafts(chars: seq<string>, pool: seq<Slot<OnKunEntry>>, allLabels: seq<string>) returns (drafts: seq<Option<Question>>)
    requires InPool(pool, chars)
    ensures drafts == OnKunDrafts(chars, pool, allLabels)
  {
    drafts := [];
    var i := 0;
    while i < |chars|
      invariant i <= |chars| && InPool(pool, chars[..i])
      invariant drafts == OnKunDrafts(chars[..i], pool, allLabels)
    {
      var d := MakeOnKunDraft(chars[i], Get(pool, chars[i]).value, allLabels);
      OnKunDraftsSnoc(chars, i, pool, allLabels);
      drafts := drafts + [d];
      i := i + 1;
    }
    TakeAll(chars);
  }

  lemma OnKunDraftsSnoc(chars: seq<string>, i: nat, pool: seq<Slot<OnKunEntry>>, allLabels: seq<string>)
    requires InPool(pool, chars) && i < |chars|
    ensures InPool(pool, chars[..i]) && InPool(pool, chars[..i + 1])
    ensures OnKunDrafts(chars[..i + 1], pool, allLabels) ==
      OnKunDrafts(chars[..i], pool, allLabels) + [OnKunDraft(chars[i], Get(pool, chars[i]).value, allLabels)]
  {
    InPoolPrefix(pool, chars, i);
    InPoolPrefix(pool, chars, i + 1);
    assert chars[..i + 1][..i] == chars[..i];
  }

  /** The body of the loop for one kanji, up to its numbering. */
  method MakeOnKunDraft(ch: string, entry: OnKunEntry, allLabels: seq<string>) returns (r: Option<Question>)
    ensures r == OnKunDraft(ch, entry, allLabels)
  {
    var answer := FormatOnKunAnswer(entry);
    var distractors := PickDistractors(answer, allLabels, "ok:" + ch + ":" + answer, 3);
    if |distractors| < 3 {
      return None;
    }
    var labels := ShuffleWithKey([answer] + distractors, "ok-choice:" + ch);
    r := Some(Question("", OnKun, GeneratedOkPrefix, 2, if HasKun(entry) then 2 else 3,
      OnKunPrompt, ch, ch, answer, Some(ChoicesOf(labels)), None, Some(OnKunExplanation(ch, entry))));
  }

  /** A generated on/kun question: context and target are the kanji, the
      answer is its pool entry formatted, the four choices are distinct and
      hold the answer, the others are labels of the pool, and a kun reading
      makes it easier. */
  predicate GoodOnKun(q: Question, pool: seq<Slot<OnKunEntry>>, allLabels: seq<string>)
  {
    && q.tag == OnKun && q.source == GeneratedOkPrefix && q.points == 2 && q.context == q.target
    && Get(pool, q.context).Some?
    && q.answer == FormatOnKunAnswer(Get(pool, q.context).value)
    && q.difficulty == (if HasKun(Get(pool, q.context).value) then 2 else 3)
    && |ChoiceLabels(q)| == 4 && q.choices.Some?
    && q.answer in ChoiceLabels(q)
    && (forall l | l in ChoiceLabels(q) :: l in allLabels || l == q.answer)
    && (Distinct(allLabels) ==> Distinct(ChoiceLabels(q)))
  }

  /** The four labels of a question: the answer and its three distractors,
      shuffled. */
  lemma ShuffledChoices(answer: string, d: seq<string>, key: string)
    requires |d| == 3 && answer !in d
    ensures var labels := KeyedShuffle([answer] + d, key);
      && |labels| == 4 && answer in labels
      && (forall l | l in labels :: l == answer || l in d)
      && (Distinct(d) ==> Distinct(labels))
  {
    KeyedShuffleFacts([answer] + d, key);
    ReorderedChoices(answer, d, KeyedShuffle([answer] + d, key));
  }

  /** Any reordering of the answer and three distractors. */
  lemma ReorderedChoices(answer: string, d: seq<string>, labels: seq<string>)
    requires |d| == 3 && answer !in d
    requires |labels| == |[answer] + d| && (forall x :: x in labels <==> x in [answer] + d)
    requires Distinct([answer] + d) ==> Distinct(labels)
    ensures |labels| == 4 && answer in labels
    ensures forall l | l in labels :: l == answer || l in d
    ensures Distinct(d) ==> Distinct(labels)
  {
    assert answer in [answer] + d;
    if Distinct(d) {
      DistinctCons(answer, d);
    }
  }

  lemma OnKunDraftFacts(ch: string, pool: seq<Slot<OnKunEntry>>, allLabels: seq<string>)
    requires Get(pool, ch).Some?
    ensures var r := OnKunDraft(ch, Get(pool, ch).value, allLabels);
      r.Some? ==> r.value.context == ch && GoodOnKun(r.value, pool, allLabels)
  {
    var e := Get(pool, ch).value;
    var answer := FormatOnKunAnswer(e);
    var key := "ok:" + ch + ":" + answer;
    var d := Distractors(answer, allLabels, key, 3);
    DistractorsFacts(answer, allLabels, key, 3);
    if |d| >= 3 {
      var labels := KeyedShuffle([answer] + d, "ok-choice:" + ch);
      ShuffledChoices(answer, d, "ok-choice:" + ch);
      LabelsOfChoices(labels);
      var q := OnKunDraft(ch, e, allLabels).value;
      assert ChoiceLabels(q) == labels;
    }
  }

  /** One draft per kanji, and every draft that exists is a good question
      about its own kanji. */
  predicate GoodDrafts(ds: seq<Option<Question>>, chars: seq<string>, pool: seq<Slot<OnKunEntry>>, allLabels: seq<string>)
  {
    && |ds| == |chars|
    && forall j | 0 <= j < |chars| && ds[j].Some? :: ds[j].value.context == chars[j] && GoodOnKun(ds[j].value, pool, allLabels)
  }

  lemma OnKunDraftsGood(chars: seq<string>, pool: seq<Slot<OnKunEntry>>, allLabels: seq<string>)
    requires InPool(pool, chars)
    ensures GoodDrafts(OnKunDrafts(chars, pool, allLabels), chars, pool, allLabels)
  {
    var ds := OnKunDrafts(chars, pool, allLabels);
    forall j | 0 <= j < |chars| && ds[j].Some?
      ensures ds[j].value.context == chars[j] && GoodOnKun(ds[j].value, pool, allLabels)
    {
      OnKunDraftsAt(chars, pool, allLabels, j);
      OnKunDraftFacts(chars[j], pool, allLabels);
    }
  }

  /** Good questions about the given kanji with consecutive ids from
      `start`, one per kanji when the kanji are distinct. */
  predicate GoodNumbering(r: seq<Question>, chars: seq<string>, pool: seq<Slot<OnKunEntry>>, allLabels: seq<string>,
                          idOf: nat -> string, start: nat)
  {
    && (forall k | 0 <= k < |r| :: r[k].id == idOf(start + k) && GoodOnKun(r[k], pool, allLabels) && r[k].context in chars)
    && (Distinct(chars) ==> forall k, l | 0 <= k < l < |r| :: r[k].context != r[l].context)
  }

  /** Numbering drafts that are good questions about their own kanji gives
      good questions with consecutive ids, one per kanji when the kanji
      are distinct. */
  lemma NumberedOnKun(ds: seq<Option<Question>>, chars: seq<string>, pool: seq<Slot<OnKunEntry>>, allLabels: seq<string>,
                      idOf: nat -> string, start: nat)
    requires GoodDrafts(ds, chars, pool, allLabels)
    ensures GoodNumbering(Numbered(ds, 0, idOf, start), chars, pool, allLabels, idOf, start)
  {
    var js := NumberedSource(ds, 0, idOf, start);
    var r := Numbered(ds, 0, idOf, start);
    forall k | 0 <= k < |r|
      ensures r[k].id == idOf(start + k) && GoodOnKun(r[k], pool, allLabels) && r[k].context == chars[js[k]]
    {
      assert GoodOnKun(ds[js[k]].value, pool, allLabels);
    }
    if Distinct(chars) {
      forall k, l | 0 <= k < l < |r| ensures r[k].context != r[l].context {
        assert chars[js[k]] != chars[js[l]];
      }
    }
  }

  /** An on/kun question the generator adds as its `n`-th: numbered `ok`
      with `n`, a good question on the pool, with four distinct labels,
      about a kanji some writing record answers that the bank does not yet
      ask about, and with an id no on/kun question of the bank has. */
  predicate OnKunAddition(q: Question, n: nat, qs: seq<Question>, records: seq<WritingRecord>, pool: seq<Slot<OnKunEntry>>)
  {
    && q.id == FormatId("ok", n)
    && GoodOnKun(q, pool, AllLabels(pool))
    && Distinct(ChoiceLabels(q))
    && q.context !in ExistingTargets(qs)
    && q.context in RecordAnswers(records)
    && (forall j | 0 <= j < |qs| && qs[j].tag == OnKun :: qs[j].id != q.id)
  }

  /** Additions whose `i`-th question is numbered `start + i` and meets
      `OnKunAddition`, no two of them about the same kanji. */
  predicate OnKunAdditions(r: seq<Question>, start: nat, qs: seq<Question>, records: seq<WritingRecord>,
                           pool: seq<Slot<OnKunEntry>>)
  {
    && (forall i | 0 <= i < |r| :: OnKunAddition(r[i], start + i, qs, records, pool))
    && (forall i, j | 0 <= i < j < |r| :: r[i].context != r[j].context)
  }

  /** What the generator adds: its `i`-th question is numbered `ok` with
      one past the bank's largest plus `i` and meets `OnKunAddition`, and no
      two of them ask about the same kanji. */
  lemma GeneratedOnKunFacts(qs: seq<Question>, records: seq<WritingRecord>, manual: seq<Slot<OnKunEntry>>,
                            localeLe: (string, string) -> bool)
    ensures OnKunAdditions(GeneratedOnKun(qs, records, manual, localeLe), NextId(qs, OnKun, "ok"), qs, records,
                           OnKunPool(qs, manual))
  {
    OnKunFromPoolFacts(qs, records, OnKunPool(qs, manual), localeLe);
  }

  lemma OnKunFromPoolFacts(qs: seq<Question>, records: seq<WritingRecord>, pool: seq<Slot<OnKunEntry>>,
                           localeLe: (string, string) -> bool)
    ensures OnKunAdditions(OnKunFromPool(qs, records, pool, localeLe), NextId(qs, OnKun, "ok"), qs, records, pool)
  {
    var cs := CandidateChars(qs, records, pool, localeLe);
    CandidateCharsFacts(qs, records, pool, localeLe);
    var ds := OnKunDrafts(cs, pool, AllLabels(pool));
    OnKunDraftsGood(cs, pool, AllLabels(pool));
    NumberedDraftsFacts(qs, records, pool, cs, ds, NextId(qs, OnKun, "ok"));
    assert OnKunFromPool(qs, records, pool, localeLe) == Numbered(ds, 0, IdMaker("ok"), NextId(qs, OnKun, "ok"));
  }

  /** Numbering good drafts of candidate kanji from `NextId` gives the additions. */
  lemma NumberedDraftsFacts(qs: seq<Question>, records: seq<WritingRecord>, pool: seq<Slot<OnKunEntry>>,
                            cs: seq<string>, ds: seq<Option<Question>>, start: nat)
    requires start == NextId(qs, OnKun, "ok")
    requires Candidates(cs, qs, records, pool)
    requires GoodDrafts(ds, cs, pool, AllLabels(pool))
    ensures OnKunAdditions(Numbered(ds, 0, IdMaker("ok"), start), start, qs, records, pool)
  {
    NumberedOnKun(ds, cs, pool, AllLabels(pool), IdMaker("ok"), start);
    OnKunAdditionsFacts(qs, records, pool, cs, start, Numbered(ds, 0, IdMaker("ok"), start));
  }

  /** The facts of the numbered drafts, stated over abstract values. */
  lemma OnKunAdditionsFacts(qs: seq<Question>, records: seq<WritingRecord>, pool: seq<Slot<OnKunEntry>>,
                            cs: seq<string>, start: nat, r: seq<Question>)
    requires start == NextId(qs, OnKun, "ok")
    requires Candidates(cs, qs, records, pool)
    requires GoodNumbering(r, cs, pool, AllLabels(pool), IdMaker("ok"), start)
    ensures forall i | 0 <= i < |r| :: OnKunAddition(r[i], start + i, qs, records, pool)
    ensures forall i, j | 0 <= i < j < |r| :: r[i].context != r[j].context
  {
    assert Distinct(AllLabels(pool));
    NumberedIdsFresh(qs, OnKun, "ok", r, start);
  }
}
