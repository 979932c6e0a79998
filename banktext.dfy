/** The helpers the three bank-generation scripts share: the katakana to
    hiragana shift, the FNV-1a string hash and the mulberry32 generator that
    seed every distractor draw, the key normalisation used to detect
    duplicates, id allocation and formatting, and the final sort of the bank. */
module BankText {
  import opened Types
  import opened Strs
  import opened Dates
  import opened Seqs
  import opened Shuffle

  // ----- katakanaToHiragana -----

  /** The first pass, `replace(/ヴ/g, 'ゔ')`. */
  function VuToHiragana(c: char): char
  {
    if c == 'ヴ' then 'ゔ' else c
  }

  /** The second pass: a character of ァ..ヶ moves 0x60 code points down. */
  function ShiftKatakana(c: char): char
  {
    if IsKatakana(c) then (c as int - 0x60) as char else c
  }

  function KatakanaToHiragana(s: string): string
  {
    var first := seq(|s|, i requires 0 <= i < |s| => VuToHiragana(s[i]));
    seq(|s|, i requires 0 <= i < |s| => ShiftKatakana(first[i]))
  }

  /** The conversion keeps the length, moves every character of ァ..ヶ 0x60
      code points down (ヴ lands on ゔ, so the first pass changes nothing the
      second would not) and leaves every other character alone. */
  lemma KatakanaToHiraganaChars(s: string)
    ensures |KatakanaToHiragana(s)| == |s|
    ensures forall i | 0 <= i < |s| ::
      KatakanaToHiragana(s)[i] == (if IsKatakana(s[i]) then (s[i] as int - 0x60) as char else s[i])
  {
  }

  /** No katakana survives the conversion, so converting twice is converting once. */
  lemma KatakanaToHiraganaIdempotent(s: string)
    ensures !HasKatakana(KatakanaToHiragana(s))
    ensures KatakanaToHiragana(KatakanaToHiragana(s)) == KatakanaToHiragana(s)
  {
    KatakanaToHiraganaChars(s);
    var r := KatakanaToHiragana(s);
    KatakanaToHiraganaChars(r);
  }

  /** A katakana word (with ー) becomes a text of reading characters. */
  lemma KatakanaWordToReading(s: string)
    requires forall i | 0 <= i < |s| :: IsKatakana(s[i]) || s[i] == 'ー'
    ensures forall i | 0 <= i < |s| :: IsReadingChar(KatakanaToHiragana(s)[i])
  {
    KatakanaToHiraganaChars(s);
  }

  // ----- hashString: FNV-1a over UTF-16 code units -----

  /** The UTF-16 code units of one character (`charCodeAt` sees a character
      outside the Basic Multilingual Plane as a surrogate pair). */
  function CodeUnits(c: char): (u: seq<bv16>)
    ensures |u| == (if c as int < 0x10000 then 1 else 2)
  {
    if c as int < 0x10000 then [c as int as bv16]
    else
      var v := c as int - 0x10000;
      [(0xD800 + v / 0x400) as bv16, (0xDC00 + v % 0x400) as bv16]
  }

  function Utf16(s: string): (u: seq<bv16>)
    ensures |u| >= |s|
  {
    if s == [] then [] else Utf16(s[..|s| - 1]) + CodeUnits(s[|s| - 1])
  }

  /** On text of the Basic Multilingual Plane the code units are the
      characters, one each. */
  lemma {:induction false} Utf16Bmp(s: string)
    requires forall i | 0 <= i < |s| :: s[i] as int < 0x10000
    ensures |Utf16(s)| == |s|
    ensures forall i | 0 <= i < |s| :: Utf16(s)[i] == s[i] as int as bv16
  {
    if s != [] {
      var init := s[..|s| - 1];
      var c := s[|s| - 1];
      Utf16Bmp(init);
      var unit := c as int as bv16;
      assert CodeUnits(c) == [unit];
      assert Utf16(s) == Utf16(init) + [unit];
      forall i | 0 <= i < |s|
        ensures Utf16(s)[i] == s[i] as int as bv16
      {
        if i < |init| {
          assert Utf16(s)[i] == Utf16(init)[i];
          assert s[i] == init[i];
        }
      }
    }
  }

  const FnvOffsetBasis: bv32 := 2166136261
  const FnvPrime: bv32 := 16777619

  /** `h ^= unit; h = Math.imul(h, 16777619)`; `>>> 0` reads the 32 bits unsigned. */
  function FnvStep(h: bv32, unit: bv16): bv32
  {
    (h ^ (unit as bv32)) * FnvPrime
  }

  /** Folds the steps over `units`, starting from `h`. */
  function FnvFrom(h: bv32, units: seq<bv16>): bv32
  {
    if units == [] then h else FnvStep(FnvFrom(h, units[..|units| - 1]), units[|units| - 1])
  }

  function Fnv1a(units: seq<bv16>): bv32
  {
    FnvFrom(FnvOffsetBasis, units)
  }

  /** The hash can be computed piece by piece: hashing `a + b` continues from
      the hash of `a`. */
  lemma {:induction false} FnvAppend(h: bv32, a: seq<bv16>, b: seq<bv16>)
    ensures FnvFrom(h, a + b) == FnvFrom(FnvFrom(h, a), b)
    decreases |b|
  {
    if b == [] {
      assert a + b == a;
    } else {
      var init := b[..|b| - 1];
      assert (a + b)[..|a + b| - 1] == a + init;
      assert (a + b)[|a + b| - 1] == b[|b| - 1];
      FnvAppend(h, a, init);
    }
  }

  /** The hash of a text extends character by character. */
  lemma HashStringSnoc(s: string, c: char)
    ensures Fnv1a(Utf16(s + [c])) == FnvFrom(Fnv1a(Utf16(s)), CodeUnits(c))
  {
    assert (s + [c])[..|s + [c]| - 1] == s;
    FnvAppend(FnvOffsetBasis, Utf16(s), CodeUnits(c));
  }

  /** `hashString(text)`: the loop over `charCodeAt` values. */
  method HashString(text: string) returns (h: bv32)
    ensures h == Fnv1a(Utf16(text))
  {
    var units := Utf16(text);
    h := FnvOffsetBasis;
    var i := 0;
    while i < |units|
      invariant 0 <= i <= |units|
      invariant h == FnvFrom(FnvOffsetBasis, units[..i])
    {
      assert units[..i + 1][..i] == units[..i];
      h := FnvStep(h, units[i]);
      i := i + 1;
    }
    assert units[..i] == units;
  }

  /** Published FNV-1a values: the empty text hashes to the offset basis and
      "a" to 0xe40c292c. */
  lemma HashVectors()
    ensures Fnv1a(Utf16("")) == 2166136261
    ensures Fnv1a(Utf16("a")) == 0xe40c292c
  {
    assert Utf16("a") == [0x61];
    assert FnvFrom(FnvOffsetBasis, [0x61]) == FnvStep(FnvOffsetBasis, 0x61);
  }

  // ----- mulberry32 -----

  const MulberryIncrement: bv32 := 0x6D2B79F5

  /** The output mixing of one call on the state `t`. */
  function MulberryMix(t: bv32): bv32
  {
    var r := (t ^ (t >> 15)) * (t | 1);
    var r2 := r ^ (r + (r ^ (r >> 7)) * (r | 61));
    r2 ^ (r2 >> 14)
  }

  /** `x / 4294967296`: a 32-bit value as a fraction of 2^32. */
  function Fraction(x: bv32): (u: UnitReal)
  {
    var n := x as int;
    assert 0 <= n < 0x1_0000_0000;
    n as real / 4294967296.0
  }

  /** The low 32 bits of the state after `n` calls on a generator seeded
      with `seed`. */
  function StateAfter(seed: bv32, n: nat): bv32
  {
    if n == 0 then seed else StateAfter(seed, n - 1) + MulberryIncrement
  }

  /** Draw `k` of `mulberry32(seed)`: the value of call `k + 1`. */
  function GeneratorDraw(seed: bv32, k: nat): UnitReal
  {
    Fraction(MulberryMix(StateAfter(seed, k + 1)))
  }

  /** The draws of `mulberry32(seed)` as a stream. */
  function MulberryDraws(seed: bv32): nat -> UnitReal
  {
    k => GeneratorDraw(seed, k)
  }

  /** The closure `mulberry32(seed)` returns, holding its captured state `t`.
      The script's `t += 0x6D2B79F5` is a number addition, but every use of
      `t` (`^`, `|`, `>>>`, `Math.imul`) reads only its low 32 bits, so the
      state is kept as those bits. */
  class Mulberry32 {
    var t: bv32

    /** `let t = seed >>> 0` */
    constructor (seed: bv32)
      ensures t == seed
    {
      t := seed;
    }

    /** One call: the state moves by the increment and the value is the
        mixed new state as a fraction of 2^32. */
    method Next() returns (u: UnitReal)
      modifies this
      ensures t == old(t) + MulberryIncrement
      ensures u == Fraction(MulberryMix(t))
    {
      t := t + MulberryIncrement;
      u := Fraction(MulberryMix(t));
    }
  }

  /** After `k` calls the generator is at `StateAfter(seed, k)`, and its next
      value is draw `k` of the stream. */
  lemma NextDraw(seed: bv32, k: nat, t: bv32)
    requires t == StateAfter(seed, k) + MulberryIncrement
    ensures t == StateAfter(seed, k + 1)
    ensures Fraction(MulberryMix(t)) == GeneratorDraw(seed, k)
  {
  }

  /** The first `n` draws of `rand` are the first `n` values of
      `mulberry32(seed)`. */
  ghost predicate FollowsGenerator(rand: nat -> UnitReal, seed: bv32, n: nat)
  {
    forall k: nat {:trigger GeneratorDraw(seed, k)} :: k < n ==> rand(k) == GeneratorDraw(seed, k)
  }

  /** `const rng = mulberry32(seed)` followed by the in-place Fisher–Yates
      loop of the scripts: the array ends as the shuffle of its contents with
      the generator's draws. */
  method SeededShuffle(a: array<string>, seed: bv32)
    modifies a
    ensures a[..] == Shuffled(old(a[..]), MulberryDraws(seed), 0)
  {
    var rng := new Mulberry32(seed);
    assert FollowsGenerator(MulberryDraws(seed), seed, a.Length) by {
      forall k: nat | k < a.Length
        ensures MulberryDraws(seed)(k) == GeneratorDraw(seed, k)
      {
      }
    }
    SeededLoop(a, rng, seed, MulberryDraws(seed));
  }

  /** The loop `for (let i = arr.length - 1; i > 0; i -= 1)` on a generator
      that has not been called yet, whose values are the stream `rand`. */
  method SeededLoop(a: array<string>, rng: Mulberry32, ghost seed: bv32, ghost rand: nat -> UnitReal)
    requires rng.t == seed && FollowsGenerator(rand, seed, a.Length)
    modifies a, rng
    ensures a[..] == Shuffled(old(a[..]), rand, 0)
  {
    if a.Length <= 1 {
      return;
    }
    ghost var target := Shuffled(a[..], rand, 0);
    var i := a.Length - 1;
    ghost var k: nat := 0;
    while i > 0
      invariant 0 <= i < a.Length && k == a.Length - 1 - i
      invariant rng.t == StateAfter(seed, k)
      invariant FisherYatesFrom(a[..], i, rand, k) == target
      decreases i
    {
      SeededSwap(a, rng, i, seed, rand, k);
      i := i - 1;
      k := k + 1;
    }
  }

  /** One pass of the loop body: `j = Math.floor(rng() * (i + 1))`, then the swap. */
  method SeededSwap(a: array<string>, rng: Mulberry32, i: nat, ghost seed: bv32, ghost rand: nat -> UnitReal, ghost k: nat)
    requires 0 < i < a.Length && k < a.Length
    requires rng.t == StateAfter(seed, k) && FollowsGenerator(rand, seed, a.Length)
    modifies a, rng
    ensures rng.t == StateAfter(seed, k + 1)
    ensures FisherYatesFrom(a[..], i - 1, rand, k + 1) == FisherYatesFrom(old(a[..]), i, rand, k)
  {
    var u := rng.Next();
    NextDraw(seed, k, rng.t);
    assert u == rand(k) by {
      assert rand(k) == GeneratorDraw(seed, k);
    }
    var j := Draw(u, i + 1);
    ghost var before := a[..];
    FisherYatesStep(before, i, rand, k, u);
    a[i], a[j] := a[j], a[i];
    assert a[..] == Swap(before, i, j);
  }

  /** The order the scripts give `s` with the generator seeded by the hash
      of `key`: `mulberry32(hashString(key))` and the Fisher–Yates loop. */
  function KeyedShuffle(s: seq<string>, key: string): seq<string>
  {
    Shuffled(s, MulberryDraws(Fnv1a(Utf16(key))), 0)
  }

  /** The keyed shuffle only reorders: distinct values stay distinct and
      the same values come out. */
  lemma KeyedShuffleFacts(s: seq<string>, key: string)
    ensures |KeyedShuffle(s, key)| == |s|
    ensures multiset(KeyedShuffle(s, key)) == multiset(s)
    ensures forall x :: x in KeyedShuffle(s, key) <==> x in s
    ensures Distinct(s) ==> Distinct(KeyedShuffle(s, key))
  {
    ShuffledPermutes(s, MulberryDraws(Fnv1a(Utf16(key))), 0);
    ShuffledMembers(s, MulberryDraws(Fnv1a(Utf16(key))), 0);
    if Distinct(s) {
      DistinctPermutation(s, KeyedShuffle(s, key));
    }
  }

  /** Hashes the key, seeds a generator and shuffles a copy of `s`. */
  method ShuffleWithKey(s: seq<string>, key: string) returns (r: seq<string>)
    ensures r == KeyedShuffle(s, key)
  {
    var seed := HashString(key);
    var a := new string[|s|](i requires 0 <= i < |s| => s[i]);
    assert a[..] == s;
    SeededShuffle(a, seed);
    r := a[..];
  }

  /** One swap of the loop, taken with the draw `u` the generator returned. */
  lemma FisherYatesStep(s: seq<string>, i: nat, rand: nat -> UnitReal, k: nat, u: UnitReal)
    requires 0 < i < |s| && u == rand(k)
    ensures FisherYatesFrom(s, i, rand, k) == FisherYatesFrom(Swap(s, i, Draw(u, i + 1)), i - 1, rand, k + 1)
  {
  }

  // ----- normalizeKey -----

  /** `[「」『』（）()【】\[\]]` */
  predicate IsBracket(c: char)
  {
    c in "「」『』（）()【】[]"
  }

  /** `normalizeKey(text)`: whitespace (which includes the ideographic space)
      and brackets removed, then trimmed. */
  function NormalizeKey(s: string): string
  {
    Trim(Strip(Strip(s, IsSpace), IsBracket))
  }

  /** The key keeps exactly the characters that are neither whitespace nor
      brackets, and normalising a key changes nothing. */
  lemma NormalizeKeyFacts(s: string, c: char)
    ensures c in NormalizeKey(s) <==> c in s && !IsSpace(c) && !IsBracket(c)
    ensures NormalizeKey(NormalizeKey(s)) == NormalizeKey(s)
  {
    var a := Strip(s, IsSpace);
    var b := Strip(a, IsBracket);
    StripMembers(s, IsSpace, c);
    StripMembers(a, IsBracket, c);
    forall i | 0 <= i < |b| ensures !IsSpace(b[i]) {
      StripMembers(a, IsBracket, b[i]);
      StripMembers(s, IsSpace, b[i]);
    }
    TrimNoSpace(b);
    assert NormalizeKey(s) == b;
    StripIdempotent(b, IsSpace) by {
      StripNothing(b, IsSpace);
    }
    StripNothing(b, IsSpace);
    StripNothing(b, IsBracket);
    TrimNoSpace(b);
  }

  /** Stripping characters a text does not have changes nothing. */
  lemma {:induction false} StripNothing(s: string, drop: char -> bool)
    requires forall i | 0 <= i < |s| :: !drop(s[i])
    ensures Strip(s, drop) == s
  {
    if s != [] {
      StripNothing(s[..|s| - 1], drop);
    }
  }

  // ----- ids -----

  /** The run of ASCII digits at the end of a text, `/(\d+)$/`. */
  function TrailingDigits(s: string): (r: string)
    ensures |r| <= |s| && r == s[|s| - |r|..]
    ensures forall i | 0 <= i < |r| :: IsDigit(r[i])
    ensures |r| < |s| ==> !IsDigit(s[|s| - |r| - 1])
  {
    if s != [] && IsDigit(s[|s| - 1]) then TrailingDigits(s[..|s| - 1]) + [s[|s| - 1]] else []
  }

  /** `Number(id.match(/(\d+)$/)?.[1] ?? 0)` */
  function IdNumber(id: string): nat
  {
    ParseDecimal(TrailingDigits(id))
  }

  predicate AllDigits(s: string)
  {
    forall i | 0 <= i < |s| :: IsDigit(s[i])
  }

  /** `Number(text)` on what is left of an id once its prefix is removed:
      a run of digits (the empty text reads as 0), or `None` for a text
      `Number` turns into NaN. */
  function NumberOf(s: string): Option<nat>
  {
    if AllDigits(s) then Some(ParseDecimal(s)) else None
  }

  /** `id.replace(new RegExp(`^${prefix}`), '')` for a prefix of letters. */
  function DropPrefix(s: string, prefix: string): string
  {
    if StartsWith(s, prefix) then s[|prefix|..] else s
  }

  /** `${prefix}${String(n).padStart(3, '0')}` */
  function FormatId(prefix: string, n: nat): string
  {
    prefix + PadStart(Decimal(n), 3, '0')
  }

  predicate IsLetterPrefix(prefix: string)
  {
    forall i | 0 <= i < |prefix| :: !IsDigit(prefix[i])
  }

  /** A formatted id reads back as its number, both through the numeric
      suffix the sort uses and through the prefix removal of the id
      allocators. Distinct numbers therefore give distinct ids. */
  lemma FormatIdRoundTrip(prefix: string, n: nat)
    requires IsLetterPrefix(prefix)
    ensures IdNumber(FormatId(prefix, n)) == n
    ensures NumberOf(DropPrefix(FormatId(prefix, n), prefix)) == Some(n)
  {
    var d := PadStart(Decimal(n), 3, '0');
    PaddedDecimal(n);
    assert FormatId(prefix, n)[|prefix|..] == d;
    DigitsSuffix(prefix, d);
  }

  /** The padded number is a digit run that reads back as the number. */
  lemma PaddedDecimal(n: nat)
    ensures AllDigits(PadStart(Decimal(n), 3, '0'))
    ensures ParseDecimal(PadStart(Decimal(n), 3, '0')) == n
  {
    var e := Decimal(n);
    var d := PadStart(e, 3, '0');
    ParseDecimalInverse(n);
    var k := |d| - |e|;
    PadStartShape(e, 3, '0');
    LeadingZeros(k, e);
  }

  /** The trailing digit run of a letter prefix followed by digits is the digits. */
  lemma {:induction false} DigitsSuffix(prefix: string, d: string)
    requires IsLetterPrefix(prefix) && AllDigits(d)
    ensures TrailingDigits(prefix + d) == d
    decreases |d|
  {
    if d == [] {
      assert prefix + d == prefix;
    } else {
      var init := d[..|d| - 1];
      assert (prefix + d)[..|prefix + d| - 1] == prefix + init;
      assert (prefix + d)[|prefix + d| - 1] == d[|d| - 1];
      DigitsSuffix(prefix, init);
      assert init + [d[|d| - 1]] == d;
    }
  }

  lemma FormatIdInjective(prefix: string, m: nat, n: nat)
    requires IsLetterPrefix(prefix)
    ensures FormatId(prefix, m) == FormatId(prefix, n) <==> m == n
  {
    FormatIdRoundTrip(prefix, m);
    FormatIdRoundTrip(prefix, n);
  }

  /** The finite id numbers of the questions of tag `t`, in bank order. */
  function IdValues(qs: seq<Question>, t: Tag, prefix: string): (vs: seq<nat>)
    ensures forall v :: v in vs <==>
      exists i | 0 <= i < |qs| :: qs[i].tag == t && NumberOf(DropPrefix(qs[i].id, prefix)) == Some(v)
  {
    if qs == [] then []
    else
      var init := IdValues(qs[..|qs| - 1], t, prefix);
      var q := qs[|qs| - 1];
      assert forall i | 0 <= i < |qs| - 1 :: qs[..|qs| - 1][i] == qs[i];
      match (if q.tag == t then NumberOf(DropPrefix(q.id, prefix)) else None)
      case None => init
      case Some(v) => init + [v]
  }

  /** `reduce((a, b) => Math.max(a, b), 0)` */
  function MaxOf(vs: seq<nat>): (m: nat)
    ensures forall v | v in vs :: v <= m
    ensures m == 0 || m in vs
  {
    if vs == [] then 0
    else
      var m := MaxOf(vs[..|vs| - 1]);
      assert forall v | v in vs :: v in vs[..|vs| - 1] || v == vs[|vs| - 1];
      if m >= vs[|vs| - 1] then m else vs[|vs| - 1]
  }

  /** `nextId(questions, tag, prefix)` (and `nextReadingId`, `nextWritingId`):
      one more than the largest number among the ids of that tag, at least 1. */
  function NextId(qs: seq<Question>, t: Tag, prefix: string): (n: nat)
    ensures n >= 1
    ensures forall i | 0 <= i < |qs| && qs[i].tag == t && NumberOf(DropPrefix(qs[i].id, prefix)).Some? ::
      NumberOf(DropPrefix(qs[i].id, prefix)).value < n
    ensures n == 1 || exists i | 0 <= i < |qs| :: qs[i].tag == t && NumberOf(DropPrefix(qs[i].id, prefix)) == Some(n - 1)
  {
    var vs := IdValues(qs, t, prefix);
    forall i | 0 <= i < |qs| && qs[i].tag == t && NumberOf(DropPrefix(qs[i].id, prefix)).Some?
      ensures NumberOf(DropPrefix(qs[i].id, prefix)).value in vs
    {
    }
    MaxOf(vs) + 1
  }

  /** An id formatted from a number at or past `NextId` is held by no
      question of that tag. */
  lemma FreshId(qs: seq<Question>, t: Tag, prefix: string, n: nat)
    requires IsLetterPrefix(prefix) && n >= NextId(qs, t, prefix)
    ensures forall j | 0 <= j < |qs| && qs[j].tag == t :: qs[j].id != FormatId(prefix, n)
  {
    FormatIdRoundTrip(prefix, n);
  }

  // ----- sortQuestions -----

  /** The position of a tag in the script's `tagOrder`. */
  function TagRank(t: Tag): nat
  {
    match t
    case Writing => 0
    case Reading => 1
    case OnKun => 2
    case AntonymSynonym => 3
    case CompoundStructure => 4
    case ThreeCharCompound => 5
    case Homophone => 6
    case JukugoMaking => 7
    case Okurigana => 8
    case StrokeCount => 9
    case Radical => 10
  }

  /** The comparator of `sortQuestions`, as "a may come before b": tag rank,
      then the numeric id suffix, then `localeLe` on the ids. */
  function BankOrder(localeLe: (string, string) -> bool): (Question, Question) -> bool
  {
    (a: Question, b: Question) =>
      var ra, rb := TagRank(a.tag), TagRank(b.tag);
      var na, nb := IdNumber(a.id), IdNumber(b.id);
      ra < rb || (ra == rb && (na < nb || (na == nb && localeLe(a.id, b.id))))
  }

  /** With a total order on ids the comparator is a total preorder. */
  lemma BankOrderTotal(localeLe: (string, string) -> bool)
    requires TotalPreorder(localeLe)
    ensures TotalPreorder(BankOrder(localeLe))
  {
    var le := BankOrder(localeLe);
    forall a: Question, b: Question
      ensures le(a, b) || le(b, a)
    {
      assert localeLe(a.id, b.id) || localeLe(b.id, a.id);
    }
    forall a: Question, b: Question, c: Question | le(a, b) && le(b, c)
      ensures le(a, c)
    {
      if TagRank(a.tag) == TagRank(c.tag) && IdNumber(a.id) == IdNumber(c.id) {
        assert localeLe(a.id, b.id) && localeLe(b.id, c.id);
      }
    }
  }

  /** `sortQuestions(questions)`: the bank copied into an array and sorted there. */
  method SortQuestions(qs: seq<Question>, localeLe: (string, string) -> bool) returns (r: seq<Question>)
    ensures r == SortBy(qs, BankOrder(localeLe))
  {
    var a := new Question[|qs|](i requires 0 <= i < |qs| => qs[i]);
    assert a[..] == qs;
    SortInPlace(a, BankOrder(localeLe));
    r := a[..];
  }

  /** The sorted bank is a permutation of the bank, ordered by tag rank,
      within one rank by numeric id suffix, and within one suffix by
      `localeLe` on the ids. */
  lemma SortedBank(qs: seq<Question>, localeLe: (string, string) -> bool)
    requires TotalPreorder(localeLe)
    ensures multiset(SortBy(qs, BankOrder(localeLe))) == multiset(qs)
    ensures var r := SortBy(qs, BankOrder(localeLe));
      forall i, j | 0 <= i < j < |r| ::
        && TagRank(r[i].tag) <= TagRank(r[j].tag)
        && (TagRank(r[i].tag) == TagRank(r[j].tag) ==> IdNumber(r[i].id) <= IdNumber(r[j].id))
        && (TagRank(r[i].tag) == TagRank(r[j].tag) && IdNumber(r[i].id) == IdNumber(r[j].id) ==>
              localeLe(r[i].id, r[j].id))
  {
    SortByPermutation(qs, BankOrder(localeLe));
    BankOrderTotal(localeLe);
    SortBySorted(qs, BankOrder(localeLe));
    var r := SortBy(qs, BankOrder(localeLe));
    forall i, j | 0 <= i < j < |r|
      ensures TagRank(r[i].tag) <= TagRank(r[j].tag)
      ensures TagRank(r[i].tag) == TagRank(r[j].tag) ==> IdNumber(r[i].id) <= IdNumber(r[j].id)
      ensures TagRank(r[i].tag) == TagRank(r[j].tag) && IdNumber(r[i].id) == IdNumber(r[j].id) ==>
        localeLe(r[i].id, r[j].id)
    {
      assert BankOrder(localeLe)(r[i], r[j]);
    }
  }

  // ----- numbering the additions -----

  /** `n => prefix + String(n).padStart(3, '0')` */
  function IdMaker(prefix: string): nat -> string
  {
    (n: nat) => FormatId(prefix, n)
  }

  /** The questions a generator pushes, from the drafts it prepared in
      order: each draft that exists gets the next id `idOf(n)`, starting
      from `n` at position `i`, and the counter moves on only when a
      question is pushed. */
  function Numbered(drafts: seq<Option<Question>>, i: nat, idOf: nat -> string, n: nat): seq<Question>
    requires i <= |drafts|
    decreases |drafts| - i
  {
    if i == |drafts| then []
    else match drafts[i]
      case None => Numbered(drafts, i + 1, idOf, n)
      case Some(q) => [q.(id := idOf(n))] + Numbered(drafts, i + 1, idOf, n + 1)
  }

  /** The numbered questions are the existing drafts from position `i` on,
      in order, carrying consecutive ids from `n`: `js` says which draft
      each one is. */
  lemma {:induction false} NumberedSource(drafts: seq<Option<Question>>, i: nat, idOf: nat -> string, n: nat) returns (js: seq<nat>)
    requires i <= |drafts|
    ensures var r := Numbered(drafts, i, idOf, n);
      && |js| == |r|
      && (forall k | 0 <= k < |r| :: i <= js[k] < |drafts| && drafts[js[k]].Some?
            && r[k] == drafts[js[k]].value.(id := idOf(n + k)))
      && (forall k, l | 0 <= k < l < |r| :: js[k] < js[l])
    decreases |drafts| - i
  {
    if i == |drafts| {
      js := [];
    } else if drafts[i].None? {
      js := NumberedSource(drafts, i + 1, idOf, n);
    } else {
      var rest := NumberedSource(drafts, i + 1, idOf, n + 1);
      js := [i] + rest;
      var r := Numbered(drafts, i, idOf, n);
      var tail := Numbered(drafts, i + 1, idOf, n + 1);
      assert r == [drafts[i].value.(id := idOf(n))] + tail;
      forall k | 0 < k < |r|
        ensures r[k] == drafts[js[k]].value.(id := idOf(n + k))
      {
        assert r[k] == tail[k - 1] && js[k] == rest[k - 1];
      }
    }
  }

  /** The pushing half of a generator's loop: each draft that exists is
      pushed with the id of the current counter, which then moves on. */
  method PushNumbered(drafts: seq<Option<Question>>, idOf: nat -> string, start: nat) returns (additions: seq<Question>)
    ensures additions == Numbered(drafts, 0, idOf, start)
  {
    additions := [];
    var next := start;
    var i := 0;
    while i < |drafts|
      invariant i <= |drafts|
      invariant additions + Numbered(drafts, i, idOf, next) == Numbered(drafts, 0, idOf, start)
    {
      if drafts[i].Some? {
        var q := drafts[i].value.(id := idOf(next));
        AppendAssoc(additions, [q], Numbered(drafts, i + 1, idOf, next + 1));
        additions := additions + [q];
        next := next + 1;
      }
      i := i + 1;
    }
    assert additions + [] == additions;
  }

  /** Ids numbered from `NextId` on are formatted ids that no question of
      the tag already has. */
  lemma NumberedIdsFresh(qs: seq<Question>, t: Tag, prefix: string, r: seq<Question>, start: nat)
    requires IsLetterPrefix(prefix) && start == NextId(qs, t, prefix)
    requires forall k | 0 <= k < |r| :: r[k].id == IdMaker(prefix)(start + k)
    ensures forall k | 0 <= k < |r| ::
      r[k].id == FormatId(prefix, start + k) && forall j | 0 <= j < |qs| && qs[j].tag == t :: qs[j].id != r[k].id
  {
    forall k | 0 <= k < |r|
      ensures r[k].id == FormatId(prefix, start + k)
      ensures forall j | 0 <= j < |qs| && qs[j].tag == t :: qs[j].id != r[k].id
    {
      assert r[k].id == IdMaker(prefix)(start + k);
      FreshId(qs, t, prefix, start + k);
    }
  }

  // ----- numbering with keys -----

  /** What a generator's loop body decides for one candidate: the key that
      makes its question a duplicate, and the question itself before
      numbering (its id left empty), or `None` when it cannot be made.
      Whether the key is new is decided when numbering. */
  datatype KeyedDraft = KeyedDraft(key: string, draft: Option<Question>)

  /** The questions pushed from the items in order: an item whose key is
      already seen, or which has no question, is skipped; otherwise its
      question gets the id `idOf(n)`, its key becomes seen and the counter
      moves on. */
  function KeyedNumbered(items: seq<KeyedDraft>, i: nat, seen: set<string>, idOf: nat -> string, n: nat): seq<Question>
    requires i <= |items|
    decreases |items| - i
  {
    if i == |items| then []
    else if items[i].key in seen || items[i].draft.None? then KeyedNumbered(items, i + 1, seen, idOf, n)
    else [items[i].draft.value.(id := idOf(n))] + KeyedNumbered(items, i + 1, seen + {items[i].key}, idOf, n + 1)
  }

  /** The pushed questions are items from position `i` on, in order, with
      consecutive ids from `n`, each of a key not seen before and no two of
      the same key: `js` says which item each one is. */
  lemma {:induction false} KeyedNumberedSource(items: seq<KeyedDraft>, i: nat, seen: set<string>, idOf: nat -> string, n: nat)
    returns (js: seq<nat>)
    requires i <= |items|
    ensures var r := KeyedNumbered(items, i, seen, idOf, n);
      && |js| == |r|
      && (forall k | 0 <= k < |r| :: i <= js[k] < |items| && items[js[k]].draft.Some?
            && r[k] == items[js[k]].draft.value.(id := idOf(n + k)) && items[js[k]].key !in seen)
      && (forall k, l | 0 <= k < l < |r| :: js[k] < js[l] && items[js[k]].key != items[js[l]].key)
    decreases |items| - i
  {
    if i == |items| {
      js := [];
    } else if items[i].key in seen || items[i].draft.None? {
      js := KeyedNumberedSource(items, i + 1, seen, idOf, n);
    } else {
      var rest := KeyedNumberedSource(items, i + 1, seen + {items[i].key}, idOf, n + 1);
      js := [i] + rest;
      var r := KeyedNumbered(items, i, seen, idOf, n);
      var tail := KeyedNumbered(items, i + 1, seen + {items[i].key}, idOf, n + 1);
      assert r == [items[i].draft.value.(id := idOf(n))] + tail;
      forall k | 0 < k < |r|
        ensures r[k] == items[js[k]].draft.value.(id := idOf(n + k)) && items[js[k]].key !in seen
        ensures items[js[k]].key != items[i].key
      {
        assert r[k] == tail[k - 1] && js[k] == rest[k - 1];
      }
    }
  }

  /** The pushing half of the loop, with `existingKeys` growing on each push. */
  method PushKeyed(items: seq<KeyedDraft>, seen: set<string>, idOf: nat -> string, start: nat) returns (additions: seq<Question>)
    ensures additions == KeyedNumbered(items, 0, seen, idOf, start)
  {
    additions := [];
    var existingKeys := seen;
    var next := start;
    var i := 0;
    while i < |items|
      invariant i <= |items|
      invariant additions + KeyedNumbered(items, i, existingKeys, idOf, next) == KeyedNumbered(items, 0, seen, idOf, start)
    {
      if items[i].key !in existingKeys && items[i].draft.Some? {
        var q := items[i].draft.value.(id := idOf(next));
        AppendAssoc(additions, [q], KeyedNumbered(items, i + 1, existingKeys + {items[i].key}, idOf, next + 1));
        additions := additions + [q];
        existingKeys := existingKeys + {items[i].key};
        next := next + 1;
      }
      i := i + 1;
    }
    assert additions + [] == additions;
  }
}
