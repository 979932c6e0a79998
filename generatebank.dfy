/** `main` of the on/kun and homophone generator: optionally drop what an
    earlier run generated, derive the writing records, add the on/kun
    questions, then the homophone questions, and sort the bank. Reading and
    writing the JSON file, the command line and the console summary are
    outside the model; the bank comes in and goes out as a value. */
module OcrBankGeneration {
  import opened Types
  import opened Strs
  import opened Seqs
  import opened BankText
  import opened OrderedMaps
  import opened OnKunBank
  import opened HomophoneBank

  // ----- --reset-generated -----

  /** The filter of `--reset-generated`: a question survives unless it is an
      on/kun question whose source starts with the on/kun generator's
      prefix, or a homophone question whose source starts with the
      homophone generator's prefix. */
  predicate KeepAfterReset(q: Question)
  {
    !(q.tag == OnKun && StartsWith(q.source, GeneratedOkPrefix))
    && !(q.tag == Homophone && StartsWith(q.source, GeneratedHpPrefix))
  }

  function ResetGenerated(qs: seq<Question>): seq<Question>
  {
    Filter(qs, KeepAfterReset)
  }

  /** The reset keeps every question the filter keeps, in bank order, and
      nothing else. */
  lemma {:induction false} ResetKeepsOrder(qs: seq<Question>)
    ensures forall q :: q in ResetGenerated(qs) <==> q in qs && KeepAfterReset(q)
    ensures forall q | q in qs :: multiset(ResetGenerated(qs))[q] == if KeepAfterReset(q) then multiset(qs)[q] else 0
  {
    forall q | q in qs
      ensures multiset(ResetGenerated(qs))[q] == if KeepAfterReset(q) then multiset(qs)[q] else 0
    {
      FilterCount(qs, KeepAfterReset, q);
    }
  }

  /** A second reset removes nothing more. */
  lemma ResetIdempotent(qs: seq<Question>)
    ensures ResetGenerated(ResetGenerated(qs)) == ResetGenerated(qs)
  {
    FilterTwice(qs, KeepAfterReset);
  }

  /** Resetting a bank to which a run added its on/kun and homophone
      questions gives the reset of the bank before that run. */
  lemma ResetUndoesGeneration(base: seq<Question>, ok: seq<Question>, hp: seq<Question>,
                              records: seq<WritingRecord>, pool: seq<Slot<OnKunEntry>>, okStart: nat, hpStart: nat)
    requires OnKunAdditions(ok, okStart, base, records, pool)
    requires HpAdditions(hp, hpStart, base + ok, records)
    ensures ResetGenerated(base + ok + hp) == ResetGenerated(base)
  {
    forall i | 0 <= i < |ok| ensures !KeepAfterReset(ok[i]) {
      assert OnKunAddition(ok[i], okStart + i, base, records, pool);
    }
    forall i | 0 <= i < |hp| ensures !KeepAfterReset(hp[i]) {
      assert HpAddition(hp[i], hpStart + i, base + ok, records);
      HpSourcePrefix(hp[i], records);
    }
    FilterNone(ok, KeepAfterReset);
    FilterNone(hp, KeepAfterReset);
    FilterAppend(base + ok, hp, KeepAfterReset);
    FilterAppend(base, ok, KeepAfterReset);
  }

  lemma HpSourcePrefix(q: Question, records: seq<WritingRecord>)
    requires GoodHomophone(q, records)
    ensures q.tag == Homophone && StartsWith(q.source, GeneratedHpPrefix)
  {
    var r :| r in records && HpFromRecord(q, r, records) && HasHomophone(r, records);
    assert q.source[..|GeneratedHpPrefix|] == GeneratedHpPrefix;
  }

  // ----- the homophone pass does not see the on/kun additions -----

  predicate NoneTagged(extra: seq<Question>, t: Tag)
  {
    forall i | 0 <= i < |extra| :: extra[i].tag != t
  }

  lemma ExistingKeysIgnore(qs: seq<Question>, extra: seq<Question>)
    requires NoneTagged(extra, Homophone)
    ensures ExistingKeys(qs + extra) == ExistingKeys(qs)
  {
    assert forall q | q in extra :: q.tag != Homophone;
    forall k | k in ExistingKeys(qs + extra) ensures k in ExistingKeys(qs) {
      var q :| q in qs + extra && q.tag == Homophone && k == HomophoneKey(q.context, q.answer);
    }
    forall k | k in ExistingKeys(qs) ensures k in ExistingKeys(qs + extra) {
      var q :| q in qs && q.tag == Homophone && k == HomophoneKey(q.context, q.answer);
      assert q in qs + extra;
    }
  }

  lemma {:induction false} BankSetsIgnore(qs: seq<Question>, extra: seq<Question>)
    requires NoneTagged(extra, Homophone)
    ensures BankSets(qs + extra) == BankSets(qs)
  {
    if extra == [] {
      assert qs + extra == qs;
    } else {
      AppendInit(qs, extra);
      BankSetsIgnore(qs, extra[..|extra| - 1]);
    }
  }

  lemma {:induction false} IdValuesIgnore(qs: seq<Question>, extra: seq<Question>, t: Tag, prefix: string)
    requires NoneTagged(extra, t)
    ensures IdValues(qs + extra, t, prefix) == IdValues(qs, t, prefix)
  {
    if extra == [] {
      assert qs + extra == qs;
    } else {
      AppendInit(qs, extra);
      IdValuesIgnore(qs, extra[..|extra| - 1], t, prefix);
    }
  }

  /** Questions of other tags change neither the keys, nor the choice sets,
      nor the next `hp` number the homophone generator reads off the bank,
      so it adds the same questions with or without them. */
  lemma HomophoneIgnoresOthers(qs: seq<Question>, extra: seq<Question>, records: seq<WritingRecord>,
                               localeLe: (string, string) -> bool)
    requires NoneTagged(extra, Homophone)
    ensures GeneratedHomophone(qs + extra, records, localeLe) == GeneratedHomophone(qs, records, localeLe)
  {
    ExistingKeysIgnore(qs, extra);
    BankSetsIgnore(qs, extra);
    IdValuesIgnore(qs, extra, Homophone, "hp");
  }

  lemma OnKunAdditionsTagged(ok: seq<Question>, start: nat, qs: seq<Question>, records: seq<WritingRecord>,
                             pool: seq<Slot<OnKunEntry>>)
    requires OnKunAdditions(ok, start, qs, records, pool)
    ensures NoneTagged(ok, Homophone)
  {
    forall i | 0 <= i < |ok| ensures ok[i].tag != Homophone {
      assert OnKunAddition(ok[i], start + i, qs, records, pool);
    }
  }

  // ----- main -----

  /** The bank a run leaves behind, with the built-in on/kun table as
      `manual` and the `'ja'` collation as `localeLe`. */
  function RegeneratedBank(questions: seq<Question>, reset: bool, onlyOcr: bool, minReadingLength: int,
                           manual: seq<Slot<OnKunEntry>>, localeLe: (string, string) -> bool): seq<Question>
  {
    var qs := if reset then ResetGenerated(questions) else questions;
    var records := WritingRecords(qs, onlyOcr, minReadingLength);
    var ok := GeneratedOnKun(qs, records, manual, localeLe);
    var hp := GeneratedHomophone(qs + ok, records, localeLe);
    SortBy(qs + ok + hp, BankOrder(localeLe))
  }

  /** `main()`, from the parsed bank to the bank it would write. */
  method Regenerate(questions: seq<Question>, reset: bool, onlyOcr: bool, minReadingLength: int,
                    manual: seq<Slot<OnKunEntry>>, localeLe: (string, string) -> bool) returns (bank: seq<Question>)
    ensures bank == RegeneratedBank(questions, reset, onlyOcr, minReadingLength, manual, localeLe)
  {
    var qs := questions;
    if reset {
      qs := ResetGenerated(qs);
    }
    var records := BuildWritingRecords(qs, onlyOcr, minReadingLength);
    var ok := GenerateOnKunQuestions(qs, records, manual, localeLe);
    qs := qs + ok;
    var hp := GenerateHomophoneQuestions(qs, records, localeLe);
    qs := qs + hp;
    bank := SortQuestions(qs, localeLe);
  }

  /** What a run leaves: a permutation of the (reset) bank, its on/kun
      additions and its homophone additions, sorted by tag rank and id
      number; the homophone additions are those of the bank without the
      on/kun additions; and a later reset drops both kinds of additions
      again. */
  lemma RegeneratedBankFacts(questions: seq<Question>, reset: bool, onlyOcr: bool, minReadingLength: int,
                             manual: seq<Slot<OnKunEntry>>, localeLe: (string, string) -> bool)
    requires TotalPreorder(localeLe)
    ensures var qs := if reset then ResetGenerated(questions) else questions;
      var records := WritingRecords(qs, onlyOcr, minReadingLength);
      var ok := GeneratedOnKun(qs, records, manual, localeLe);
      var hp := GeneratedHomophone(qs, records, localeLe);
      var bank := RegeneratedBank(questions, reset, onlyOcr, minReadingLength, manual, localeLe);
      && multiset(bank) == multiset(qs + ok + hp)
      && OnKunAdditions(ok, NextId(qs, OnKun, "ok"), qs, records, OnKunPool(qs, manual))
      && HpAdditions(hp, NextId(qs, Homophone, "hp"), qs, records)
      && ResetGenerated(qs + ok + hp) == ResetGenerated(qs)
      && (forall i, j | 0 <= i < j < |bank| :: TagRank(bank[i].tag) <= TagRank(bank[j].tag))
  {
    var qs := if reset then ResetGenerated(questions) else questions;
    var records := WritingRecords(qs, onlyOcr, minReadingLength);
    var ok := GeneratedOnKun(qs, records, manual, localeLe);
    RunFacts(qs, records, ok, manual, localeLe);
  }

  lemma RunFacts(qs: seq<Question>, records: seq<WritingRecord>, ok: seq<Question>,
                 manual: seq<Slot<OnKunEntry>>, localeLe: (string, string) -> bool)
    requires TotalPreorder(localeLe)
    requires ok == GeneratedOnKun(qs, records, manual, localeLe)
    ensures var hp := GeneratedHomophone(qs, records, localeLe);
      var bank := SortBy(qs + ok + GeneratedHomophone(qs + ok, records, localeLe), BankOrder(localeLe));
      && GeneratedHomophone(qs + ok, records, localeLe) == hp
      && multiset(bank) == multiset(qs + ok + hp)
      && OnKunAdditions(ok, NextId(qs, OnKun, "ok"), qs, records, OnKunPool(qs, manual))
      && HpAdditions(hp, NextId(qs, Homophone, "hp"), qs, records)
      && ResetGenerated(qs + ok + hp) == ResetGenerated(qs)
      && (forall i, j | 0 <= i < j < |bank| :: TagRank(bank[i].tag) <= TagRank(bank[j].tag))
  {
    var hp := GeneratedHomophone(qs, records, localeLe);
    GeneratedOnKunFacts(qs, records, manual, localeLe);
    OnKunAdditionsTagged(ok, NextId(qs, OnKun, "ok"), qs, records, OnKunPool(qs, manual));
    HomophoneIgnoresOthers(qs, ok, records, localeLe);
    GeneratedHomophoneFacts(qs, records, localeLe);
    SortedBank(qs + ok + hp, localeLe);
    ExistingKeysIgnore(qs, ok);
    HpAdditionsShift(hp, NextId(qs, Homophone, "hp"), qs, ok, records);
    ResetUndoesGeneration(qs, ok, hp, records, OnKunPool(qs, manual), NextId(qs, OnKun, "ok"), NextId(qs, Homophone, "hp"));
  }

  /** Homophone additions that are new to a bank are new to it with
      questions of other tags appended. */
  lemma HpAdditionsShift(hp: seq<Question>, start: nat, qs: seq<Question>, extra: seq<Question>, records: seq<WritingRecord>)
    requires NoneTagged(extra, Homophone)
    requires HpAdditions(hp, start, qs, records)
    ensures HpAdditions(hp, start, qs + extra, records)
  {
    ExistingKeysIgnore(qs, extra);
    forall i | 0 <= i < |hp| ensures HpAddition(hp[i], start + i, qs + extra, records) {
      assert HpAddition(hp[i], start + i, qs, records);
      forall j | 0 <= j < |qs + extra| && (qs + extra)[j].tag == Homophone
        ensures (qs + extra)[j].id != hp[i].id
      {
        if j < |qs| {
          assert (qs + extra)[j] == qs[j];
        }
      }
    }
  }
}
