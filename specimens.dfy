/** `buildKanjiSpecimens`: the specimen cabinet. Writing questions are grouped
    by their answer kanji in first-occurrence order (a JavaScript `Map` keeps
    insertion order), each group's question histories are summed into a
    gold, silver or gray status, and the specimens are sorted by status and
    then by kanji. `localeCompare(·, 'ja')` is the parameter `localeLe`,
    `localeLe(a, b)` meaning `a.localeCompare(b, 'ja') <= 0`. */
module KanjiSpecimens {
  import opened Types
  import opened Seqs

  datatype Status = Gold | Silver | Gray

  datatype Specimen = Specimen(kanji: string, questionIds: seq<string>, status: Status, correct: nat, miss: nat, example: string)

  /** A value of the grouping map: the ids so far and the example text. */
  datatype Entry = Entry(kanji: string, questionIds: seq<string>, example: string)

  function IsWritingQuestion(q: Question): bool
  {
    q.tag == Writing
  }

  function WritingQuestions(qs: seq<Question>): seq<Question>
  {
    Filter(qs, IsWritingQuestion)
  }

  /** `q.context || q.question` */
  function ExampleOf(q: Question): string
  {
    if q.context != "" then q.context else q.question
  }

  // ---------------------------------------------------------------------------
  // The grouping, as a function of the writing questions

  function Answers(ws: seq<Question>): (r: seq<string>)
    ensures |r| == |ws| && forall i | 0 <= i < |ws| :: r[i] == ws[i].answer
  {
    if ws == [] then [] else Answers(ws[..|ws| - 1]) + [ws[|ws| - 1].answer]
  }

  /** The distinct answers, in the order they first occur. */
  function Kanjis(ws: seq<Question>): seq<string>
  {
    Dedup(Answers(ws))
  }

  /** The ids of the questions answered by `k`, in catalog order. */
  function IdsOf(ws: seq<Question>, k: string): seq<string>
  {
    if ws == [] then []
    else IdsOf(ws[..|ws| - 1], k) + (if ws[|ws| - 1].answer == k then [ws[|ws| - 1].id] else [])
  }

  /** The example of the first question answered by `k` ("" when there is none). */
  function FirstExample(ws: seq<Question>, k: string): string
  {
    if ws == [] then ""
    else if k in Answers(ws[..|ws| - 1]) then FirstExample(ws[..|ws| - 1], k)
    else if ws[|ws| - 1].answer == k then ExampleOf(ws[|ws| - 1])
    else ""
  }

  /** The map after the first loop, in insertion order. */
  function Grouped(ws: seq<Question>): seq<Entry>
  {
    var ks := Kanjis(ws);
    seq(|ks|, j requires 0 <= j < |ks| => Entry(ks[j], IdsOf(ws, ks[j]), FirstExample(ws, ks[j])))
  }

  // ---------------------------------------------------------------------------
  // Tallies and the order

  function SumCorrectOf(ids: seq<string>, history: map<string, QuestionHistory>): nat
  {
    if ids == [] then 0
    else SumCorrectOf(ids[..|ids| - 1], history) + HistoryCorrect(history, ids[|ids| - 1])
  }

  function SumMissOf(ids: seq<string>, history: map<string, QuestionHistory>): nat
  {
    if ids == [] then 0
    else SumMissOf(ids[..|ids| - 1], history) + HistoryMiss(history, ids[|ids| - 1])
  }

  function HistoryCorrect(history: map<string, QuestionHistory>, id: string): nat
  {
    if id in history then history[id].correct else 0
  }

  function HistoryMiss(history: map<string, QuestionHistory>, id: string): nat
  {
    if id in history then history[id].miss else 0
  }

  predicate AnyAnswered(ids: seq<string>, history: map<string, QuestionHistory>)
  {
    exists id | id in ids :: id in history
  }

  function StatusOf(correct: nat, attempted: bool): Status
  {
    if correct > 0 then Gold else if attempted then Silver else Gray
  }

  function SpecimenOf(e: Entry, history: map<string, QuestionHistory>): Specimen
  {
    var c := SumCorrectOf(e.questionIds, history);
    Specimen(e.kanji, e.questionIds, StatusOf(c, AnyAnswered(e.questionIds, history)),
             c, SumMissOf(e.questionIds, history), e.example)
  }

  function Tallied(entries: seq<Entry>, history: map<string, QuestionHistory>): (r: seq<Specimen>)
    ensures |r| == |entries|
  {
    seq(|entries|, i requires 0 <= i < |entries| => SpecimenOf(entries[i], history))
  }

  /** `{ gold: 0, silver: 1, gray: 2 }` */
  function StatusRank(s: Status): nat
  {
    match s
    case Gold => 0
    case Silver => 1
    case Gray => 2
  }

  /** The comparator reads as "at or before": a lower status rank first, and
      within one rank the locale order of the kanji. */
  function SpecimenOrder(localeLe: (string, string) -> bool): (Specimen, Specimen) -> bool
  {
    (a: Specimen, b: Specimen) =>
      StatusRank(a.status) < StatusRank(b.status)
      || (StatusRank(a.status) == StatusRank(b.status) && localeLe(a.kanji, b.kanji))
  }

  /** What `buildKanjiSpecimens` returns. */
  function Specimens(questions: seq<Question>, history: map<string, QuestionHistory>,
                     localeLe: (string, string) -> bool): seq<Specimen>
  {
    SortBy(Tallied(Grouped(WritingQuestions(questions)), history), SpecimenOrder(localeLe))
  }

  // ---------------------------------------------------------------------------
  // The imperative build

  /** `kanjiMap.get(k)`: where the entry of `k` sits, if it has one. */
  function Find(entries: seq<Entry>, k: string): (r: Option<nat>)
    ensures r.Some? ==> r.value < |entries| && entries[r.value].kanji == k
    ensures r.None? ==> forall j | 0 <= j < |entries| :: entries[j].kanji != k
  {
    if entries == [] then None
    else if entries[|entries| - 1].kanji == k then Some(|entries| - 1)
    else Find(entries[..|entries| - 1], k)
  }

  /** One pass of the first loop: a pushed id for a known answer, a new
      entry otherwise. */
  function AddToGroups(entries: seq<Entry>, q: Question): seq<Entry>
  {
    match Find(entries, q.answer)
    case Some(j) => entries[j := entries[j].(questionIds := entries[j].questionIds + [q.id])]
    case None => entries + [Entry(q.answer, [q.id], ExampleOf(q))]
  }

  /** The map the first loop builds, one question at a time. */
  function GroupedInOrder(ws: seq<Question>): seq<Entry>
  {
    if ws == [] then [] else AddToGroups(GroupedInOrder(ws[..|ws| - 1]), ws[|ws| - 1])
  }

  /** The first loop builds the map entry by entry as `Grouped` describes it. */
  lemma {:induction false} GroupedInOrderIsGrouped(ws: seq<Question>)
    ensures GroupedInOrder(ws) == Grouped(ws)
  {
    if ws != [] {
      var init := ws[..|ws| - 1];
      GroupedInOrderIsGrouped(init);
      GroupedStep(init, ws[|ws| - 1]);
      assert init + [ws[|ws| - 1]] == ws;
    }
  }

  lemma GroupedInOrderSnoc(ws: seq<Question>, i: nat)
    requires i < |ws|
    ensures GroupedInOrder(ws[..i + 1]) == AddToGroups(GroupedInOrder(ws[..i]), ws[i])
  {
    assert ws[..i + 1][..i] == ws[..i];
  }

  method GroupByAnswer(ws: seq<Question>) returns (entries: seq<Entry>)
    ensures entries == Grouped(ws)
  {
    entries := [];
    var i := 0;
    while i < |ws|
      invariant 0 <= i <= |ws|
      invariant entries == GroupedInOrder(ws[..i])
    {
      var q := ws[i];
      GroupedInOrderSnoc(ws, i);
      var existing := Find(entries, q.answer);
      if existing.Some? {
        var j := existing.value;
        entries := entries[j := entries[j].(questionIds := entries[j].questionIds + [q.id])];
      } else {
        entries := entries + [Entry(q.answer, [q.id], ExampleOf(q))];
      }
      i := i + 1;
    }
    assert ws[..i] == ws;
    GroupedInOrderIsGrouped(ws);
  }

  lemma KanjisMembers(ws: seq<Question>, k: string)
    ensures k in Kanjis(ws) <==> k in Answers(ws)
  {
  }

  /** One more question changes the grouping at its answer's entry only:
      its id is appended to a known answer, and an unknown one gets a new
      entry at the end. */
  lemma GroupedStep(ws: seq<Question>, q: Question)
    ensures Grouped(ws + [q]) == AddToGroups(Grouped(ws), q)
  {
    match Find(Grouped(ws), q.answer)
    case Some(j) => GroupedStepKnown(ws, q, j);
    case None => GroupedStepNew(ws, q);
  }

  lemma GroupedStepKnown(ws: seq<Question>, q: Question, j: nat)
    requires Find(Grouped(ws), q.answer) == Some(j)
    ensures var g := Grouped(ws);
      Grouped(ws + [q]) == g[j := g[j].(questionIds := g[j].questionIds + [q.id])]
  {
    var s := ws + [q];
    var g := Grouped(ws);
    var ks := Kanjis(ws);
    KanjisMembers(ws, q.answer);
    assert q.answer in Answers(ws);
    KanjisKnown(ws, q);
    var u := g[j := g[j].(questionIds := g[j].questionIds + [q.id])];
    var h := Grouped(s);
    forall i | 0 <= i < |h|
      ensures h[i] == u[i]
    {
      KnownEntry(ws, q, i);
      assert ks[i] == q.answer <==> i == j;
    }
  }

  /** A question with a known answer adds no kanji. */
  lemma KanjisKnown(ws: seq<Question>, q: Question)
    requires q.answer in Answers(ws)
    ensures Kanjis(ws + [q]) == Kanjis(ws)
  {
    var s := ws + [q];
    assert s[..|s| - 1] == ws;
    assert Answers(s) == Answers(ws) + [q.answer];
    KanjisMembers(ws, q.answer);
  }

  /** With a known answer, the entry of that answer gains the id and every
      entry keeps its example. */
  lemma KnownEntry(ws: seq<Question>, q: Question, i: nat)
    requires q.answer in Answers(ws) && i < |Kanjis(ws)|
    ensures var k := Kanjis(ws)[i];
      && IdsOf(ws + [q], k) == IdsOf(ws, k) + (if k == q.answer then [q.id] else [])
      && FirstExample(ws + [q], k) == FirstExample(ws, k)
  {
    var s := ws + [q];
    assert s[..|s| - 1] == ws;
    var k := Kanjis(ws)[i];
    KanjisMembers(ws, k);
    if k != q.answer {
      assert IdsOf(ws, k) + [] == IdsOf(ws, k);
    }
  }

  lemma GroupedStepNew(ws: seq<Question>, q: Question)
    requires Find(Grouped(ws), q.answer) == None
    ensures Grouped(ws + [q]) == Grouped(ws) + [Entry(q.answer, [q.id], ExampleOf(q))]
  {
    var s := ws + [q];
    assert s[..|s| - 1] == ws;
    var g, h := Grouped(ws), Grouped(s);
    var ks := Kanjis(ws);
    assert Answers(s) == Answers(ws) + [q.answer];
    KanjisMembers(ws, q.answer);
    assert q.answer !in ks by {
      forall j | 0 <= j < |ks|
        ensures ks[j] != q.answer
      {
        assert g[j].kanji == ks[j];
      }
    }
    assert Kanjis(s) == ks + [q.answer];
    IdsOfAbsent(ws, q.answer);
    forall i | 0 <= i < |h|
      ensures h[i] == (g + [Entry(q.answer, [q.id], ExampleOf(q))])[i]
    {
      if i < |ks| {
        assert ks[i] in Answers(ws);
        assert ks[i] != q.answer;
        assert IdsOf(s, ks[i]) == IdsOf(ws, ks[i]);
        assert FirstExample(s, ks[i]) == FirstExample(ws, ks[i]);
      } else {
        assert IdsOf(s, q.answer) == [q.id];
        assert FirstExample(s, q.answer) == ExampleOf(q);
      }
    }
  }

  lemma {:induction false} IdsOfAbsent(ws: seq<Question>, k: string)
    requires k !in Answers(ws)
    ensures IdsOf(ws, k) == []
  {
    if ws != [] {
      assert Answers(ws) == Answers(ws[..|ws| - 1]) + [ws[|ws| - 1].answer];
      IdsOfAbsent(ws[..|ws| - 1], k);
    }
  }

  /** The second loop's inner loop over one entry's ids. */
  method Tally(ids: seq<string>, history: map<string, QuestionHistory>)
    returns (totalCorrect: nat, totalMiss: nat, attempted: bool)
    ensures totalCorrect == SumCorrectOf(ids, history)
    ensures totalMiss == SumMissOf(ids, history)
    ensures attempted <==> AnyAnswered(ids, history)
  {
    totalCorrect, totalMiss, attempted := 0, 0, false;
    var i := 0;
    while i < |ids|
      invariant 0 <= i <= |ids|
      invariant totalCorrect == SumCorrectOf(ids[..i], history)
      invariant totalMiss == SumMissOf(ids[..i], history)
      invariant attempted <==> AnyAnswered(ids[..i], history)
    {
      var qid := ids[i];
      assert ids[..i + 1][..i] == ids[..i];
      assert forall x :: x in ids[..i + 1] <==> x in ids[..i] || x == qid;
      if qid in history {
        var h := history[qid];
        totalCorrect := totalCorrect + h.correct;
        totalMiss := totalMiss + h.miss;
        attempted := true;
      }
      i := i + 1;
    }
    assert ids[..i] == ids;
  }

  lemma TalliedSnoc(entries: seq<Entry>, i: nat, history: map<string, QuestionHistory>)
    requires i < |entries|
    ensures Tallied(entries[..i + 1], history) == Tallied(entries[..i], history) + [SpecimenOf(entries[i], history)]
  {
  }

  /** `buildKanjiSpecimens(allQuestions, history)` */
  method BuildKanjiSpecimens(allQuestions: seq<Question>, history: map<string, QuestionHistory>,
                             localeLe: (string, string) -> bool)
    returns (r: seq<Specimen>)
    ensures r == Specimens(allQuestions, history, localeLe)
  {
    var writingQs := WritingQuestions(allQuestions);
    var kanjiMap := GroupByAnswer(writingQs);
    var specimens: seq<Specimen> := [];
    var i := 0;
    while i < |kanjiMap|
      invariant 0 <= i <= |kanjiMap|
      invariant specimens == Tallied(kanjiMap[..i], history)
    {
      var e := kanjiMap[i];
      var totalCorrect, totalMiss, attempted := Tally(e.questionIds, history);
      var status := if totalCorrect > 0 then Gold else if attempted then Silver else Gray;
      TalliedSnoc(kanjiMap, i, history);
      specimens := specimens + [Specimen(e.kanji, e.questionIds, status, totalCorrect, totalMiss, e.example)];
      i := i + 1;
    }
    assert kanjiMap[..i] == kanjiMap;
    r := SortSpecimens(specimens, localeLe);
  }

  /** `specimens.sort(...)`, on an array holding the specimens. */
  method SortSpecimens(specimens: seq<Specimen>, localeLe: (string, string) -> bool) returns (r: seq<Specimen>)
    ensures r == SortBy(specimens, SpecimenOrder(localeLe))
  {
    var a := new Specimen[|specimens|](j requires 0 <= j < |specimens| => specimens[j]);
    assert a[..] == specimens;
    SortInPlace(a, SpecimenOrder(localeLe));
    r := a[..];
  }

  // ---------------------------------------------------------------------------
  // What the cabinet shows

  lemma {:induction false} IdsOfMembers(ws: seq<Question>, k: string, id: string)
    ensures id in IdsOf(ws, k) <==> exists q | q in ws :: q.answer == k && q.id == id
  {
    if ws != [] {
      var init := ws[..|ws| - 1];
      IdsOfMembers(init, k, id);
      assert ws == init + [ws[|ws| - 1]];
      assert forall q :: q in ws <==> q in init || q == ws[|ws| - 1];
    }
  }

  /** The example is that of the first question with the answer. */
  lemma {:induction false} FirstExampleMeaning(ws: seq<Question>, k: string)
    requires k in Answers(ws)
    ensures exists i | 0 <= i < |ws| :: ws[i].answer == k && FirstExample(ws, k) == ExampleOf(ws[i])
                                       && forall j | 0 <= j < i :: ws[j].answer != k
  {
    var init := ws[..|ws| - 1];
    if k in Answers(init) {
      FirstExampleMeaning(init, k);
      var i :| 0 <= i < |init| && init[i].answer == k && FirstExample(init, k) == ExampleOf(init[i])
                && forall j | 0 <= j < i :: init[j].answer != k;
      assert ws[i] == init[i];
    } else {
      var i := |ws| - 1;
      forall j | 0 <= j < i
        ensures ws[j].answer != k
      {
        assert Answers(init)[j] == init[j].answer;
      }
    }
  }

  /** The first loop's map, entry by entry: one entry per distinct answer,
      in the order the answers first appear, holding the ids of its
      questions in order and the first question's example. */
  lemma GroupedFacts(ws: seq<Question>)
    ensures |Grouped(ws)| == |Kanjis(ws)|
    ensures forall i | 0 <= i < |Grouped(ws)| :: Grouped(ws)[i].kanji == Kanjis(ws)[i]
    ensures forall e | e in Grouped(ws) ::
      e.questionIds == IdsOf(ws, e.kanji) && e.example == FirstExample(ws, e.kanji) && e.kanji in Answers(ws)
    ensures forall k | k in Answers(ws) :: exists e | e in Grouped(ws) :: e.kanji == k
  {
    var g := Grouped(ws);
    forall k | k in Answers(ws)
      ensures exists e | e in g :: e.kanji == k
    {
      var j :| 0 <= j < |Kanjis(ws)| && Kanjis(ws)[j] == k;
      assert g[j] in g;
    }
  }

  /** No two specimens share a kanji, in any order of them. */
  lemma DistinctKanjiPermutation(a: seq<Specimen>, b: seq<Specimen>)
    requires multiset(a) == multiset(b)
    requires forall i, j | 0 <= i < j < |a| :: a[i].kanji != a[j].kanji
    ensures forall i, j | 0 <= i < j < |b| :: b[i].kanji != b[j].kanji
  {
    forall i, j | 0 <= i < j < |b|
      ensures b[i].kanji != b[j].kanji
    {
      if b[i] == b[j] {
        TwoOccurrences(b, i, j);
        SecondOccurrence(a, b[i]);
      } else {
        assert b[i] in multiset(a) && b[j] in multiset(a);
        var p :| 0 <= p < |a| && a[p] == b[i];
        var q :| 0 <= q < |a| && a[q] == b[j];
        if p < q {
          assert a[p].kanji != a[q].kanji;
        } else {
          assert a[q].kanji != a[p].kanji;
        }
      }
    }
  }

  predicate HasKanji(r: seq<Specimen>, k: string)
  {
    exists x | x in r :: x.kanji == k
  }

  predicate IsWritingAnswer(questions: seq<Question>, k: string)
  {
    exists q | q in questions :: q.tag == Writing && q.answer == k
  }

  /** The specimens are the tallied entries, reordered. */
  lemma SpecimensMembers(questions: seq<Question>, history: map<string, QuestionHistory>,
                         localeLe: (string, string) -> bool)
    ensures var u := Tallied(Grouped(WritingQuestions(questions)), history);
      forall x :: x in Specimens(questions, history, localeLe) <==> x in u
  {
    var u := Tallied(Grouped(WritingQuestions(questions)), history);
    SortByPermutation(u, SpecimenOrder(localeLe));
    var r := Specimens(questions, history, localeLe);
    assert forall x :: x in r <==> x in multiset(u);
  }

  /** No two specimens share a kanji. */
  lemma SpecimensDistinct(questions: seq<Question>, history: map<string, QuestionHistory>,
                          localeLe: (string, string) -> bool)
    ensures var r := Specimens(questions, history, localeLe);
      forall i, j | 0 <= i < j < |r| :: r[i].kanji != r[j].kanji
  {
    var ws := WritingQuestions(questions);
    var u := Tallied(Grouped(ws), history);
    GroupedFacts(ws);
    SortByPermutation(u, SpecimenOrder(localeLe));
    forall i, j | 0 <= i < j < |u|
      ensures u[i].kanji != u[j].kanji
    {
      assert u[i].kanji == Kanjis(ws)[i] && u[j].kanji == Kanjis(ws)[j];
    }
    DistinctKanjiPermutation(u, Specimens(questions, history, localeLe));
  }

  /** A kanji has a specimen exactly when it answers some writing question. */
  lemma SpecimensOnePerAnswer(questions: seq<Question>, history: map<string, QuestionHistory>,
                              localeLe: (string, string) -> bool, k: string)
    ensures HasKanji(Specimens(questions, history, localeLe), k) <==> IsWritingAnswer(questions, k)
  {
    var ws := WritingQuestions(questions);
    var u := Tallied(Grouped(ws), history);
    SpecimensMembers(questions, history, localeLe);
    assert HasKanji(Specimens(questions, history, localeLe), k) <==> HasKanji(u, k);
    TalliedKanji(ws, history, k);
    WritingAnswers(questions, k);
  }

  lemma TalliedKanjis(ws: seq<Question>, history: map<string, QuestionHistory>)
    ensures var u := Tallied(Grouped(ws), history);
      |u| == |Kanjis(ws)| && forall j | 0 <= j < |u| :: u[j].kanji == Kanjis(ws)[j]
  {
  }

  /** The tallied entries carry exactly the answers as kanji. */
  lemma TalliedKanji(ws: seq<Question>, history: map<string, QuestionHistory>, k: string)
    ensures HasKanji(Tallied(Grouped(ws), history), k) <==> k in Answers(ws)
  {
    TalliedKanjis(ws, history);
    SameKanjis(Tallied(Grouped(ws), history), Kanjis(ws), k);
    KanjisMembers(ws, k);
  }

  /** Specimens whose kanji are `ks`, position by position, hold `k` exactly
      when `ks` does. */
  lemma SameKanjis(u: seq<Specimen>, ks: seq<string>, k: string)
    requires |u| == |ks| && forall j | 0 <= j < |u| :: u[j].kanji == ks[j]
    ensures HasKanji(u, k) <==> k in ks
  {
    if k in ks {
      var j :| 0 <= j < |ks| && ks[j] == k;
      assert u[j] in u;
    }
    if HasKanji(u, k) {
      var x :| x in u && x.kanji == k;
      var j :| 0 <= j < |u| && u[j] == x;
      assert ks[j] in ks;
    }
  }

  lemma WritingAnswers(questions: seq<Question>, k: string)
    ensures k in Answers(WritingQuestions(questions)) <==> IsWritingAnswer(questions, k)
  {
    var ws := WritingQuestions(questions);
    if IsWritingAnswer(questions, k) {
      var q :| q in questions && q.tag == Writing && q.answer == k;
      assert q in ws;
      var i := IndexOfQ(ws, q);
      assert Answers(ws)[i] == k;
    }
    if k in Answers(ws) {
      var i :| 0 <= i < |ws| && Answers(ws)[i] == k;
      assert ws[i] in ws;
    }
  }

  /** Each specimen holds the ids of exactly the writing questions with its
      answer, in catalog order; its counts are the sums over their
      histories; it is gold iff some answer was correct, silver iff answered
      but never correctly, gray iff never answered; its example is the first
      such question's. */
  lemma SpecimenContents(questions: seq<Question>, history: map<string, QuestionHistory>,
                         localeLe: (string, string) -> bool, x: Specimen)
    requires x in Specimens(questions, history, localeLe)
    ensures var ws := WritingQuestions(questions);
      && (forall id :: id in x.questionIds <==> exists q | q in ws :: q.answer == x.kanji && q.id == id)
      && x.questionIds == IdsOf(ws, x.kanji)
      && x.correct == SumCorrectOf(x.questionIds, history)
      && x.miss == SumMissOf(x.questionIds, history)
      && (x.status == Gold <==> x.correct > 0)
      && (x.status == Silver <==> x.correct == 0 && AnyAnswered(x.questionIds, history))
      && (x.status == Gray <==> !AnyAnswered(x.questionIds, history))
      && x.example == FirstExample(ws, x.kanji)
  {
    var ws := WritingQuestions(questions);
    var g := Grouped(ws);
    var u := Tallied(g, history);
    GroupedFacts(ws);
    SpecimensMembers(questions, history, localeLe);
    var j :| 0 <= j < |u| && u[j] == x;
    assert g[j] in g;
    forall id
      ensures id in x.questionIds <==> exists q | q in ws :: q.answer == x.kanji && q.id == id
    {
      IdsOfMembers(ws, x.kanji, id);
    }
    if x.correct > 0 {
      CorrectMeansAnswered(x.questionIds, history);
    }
  }

  lemma IndexOfQ(s: seq<Question>, q: Question) returns (i: nat)
    requires q in s
    ensures i < |s| && s[i] == q
  {
    i :| 0 <= i < |s| && s[i] == q;
  }

  /** A positive sum needs some answered id. */
  lemma {:induction false} CorrectMeansAnswered(ids: seq<string>, history: map<string, QuestionHistory>)
    requires SumCorrectOf(ids, history) > 0
    ensures AnyAnswered(ids, history)
  {
    var init := ids[..|ids| - 1];
    if SumCorrectOf(init, history) > 0 {
      CorrectMeansAnswered(init, history);
      var id :| id in init && id in history;
      assert id in ids;
    } else {
      assert ids[|ids| - 1] in ids;
    }
  }

  /** With distinct question ids, a writing question's id is in exactly one
      specimen: the one of its answer. */
  lemma EachIdOnce(questions: seq<Question>, history: map<string, QuestionHistory>,
                   localeLe: (string, string) -> bool, q: Question, x: Specimen)
    requires UniqueIds(questions)
    requires q in questions && q.tag == Writing
    requires x in Specimens(questions, history, localeLe)
    ensures q.id in x.questionIds <==> x.kanji == q.answer
  {
    SpecimenContents(questions, history, localeLe, x);
    var ws := WritingQuestions(questions);
    assert q in ws;
    if q.id in x.questionIds {
      var q' :| q' in ws && q'.answer == x.kanji && q'.id == q.id;
      SameIdSameQuestion(questions, q, q');
    }
  }

  /** `SpecimenOrder` is a total preorder when the locale order is one. */
  lemma SpecimenOrderTotal(localeLe: (string, string) -> bool)
    requires TotalPreorder(localeLe)
    ensures TotalPreorder(SpecimenOrder(localeLe))
  {
    var le := SpecimenOrder(localeLe);
    forall a, b
      ensures le(a, b) || le(b, a)
    {
      assert localeLe(a.kanji, b.kanji) || localeLe(b.kanji, a.kanji);
    }
    forall a, b, c | le(a, b) && le(b, c)
      ensures le(a, c)
    {
      if StatusRank(a.status) == StatusRank(b.status) == StatusRank(c.status) {
        assert localeLe(a.kanji, b.kanji) && localeLe(b.kanji, c.kanji);
      }
    }
  }

  /** The cabinet is sorted gold, silver, gray and by kanji within a status,
      and holds every tallied entry once. */
  lemma SpecimensSorted(questions: seq<Question>, history: map<string, QuestionHistory>,
                        localeLe: (string, string) -> bool)
    requires TotalPreorder(localeLe)
    ensures var r := Specimens(questions, history, localeLe);
      && SortedBy(r, SpecimenOrder(localeLe))
      && (forall i, j | 0 <= i < j < |r| :: StatusRank(r[i].status) <= StatusRank(r[j].status))
      && multiset(r) == multiset(Tallied(Grouped(WritingQuestions(questions)), history))
  {
    var u := Tallied(Grouped(WritingQuestions(questions)), history);
    SpecimenOrderTotal(localeLe);
    SortBySorted(u, SpecimenOrder(localeLe));
    SortByPermutation(u, SpecimenOrder(localeLe));
    var r := Specimens(questions, history, localeLe);
    forall i, j | 0 <= i < j < |r|
      ensures StatusRank(r[i].status) <= StatusRank(r[j].status)
    {
      assert SpecimenOrder(localeLe)(r[i], r[j]);
    }
  }
}
