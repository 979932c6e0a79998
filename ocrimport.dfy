/** The importer that turns an OCR transcript of a kanji workbook into new
    handwriting questions (`scripts/import_ocr_writing.mjs`): the transcript
    is cut into pages, every line of a page in range is cut into question
    fragments, and each fragment either becomes a `writing` question, is
    queued for manual review with a reason, or is skipped. The lookups it
    uses (target to answer, context key to target and answer, the kanji of
    the allowed grades) are built from the existing bank. */
module OcrImport {
  import opened Types
  import opened Strs
  import opened Dates
  import opened Seqs
  import opened BankText
  import opened OrderedMaps

  // ----- pages -----

  /** One `## Page n` section of the transcript with its trimmed lines. */
  datatype Page = Page(page: nat, lines: seq<string>)

  const PageMarker: string := "## Page "

  /** The run of ASCII digits a text starts with. */
  function LeadingDigits(s: string): string
  {
    if s != [] && IsDigit(s[0]) then [s[0]] + LeadingDigits(s[1..]) else []
  }

  /** `line.match(/^## Page (\d+)/)`: the number a page header announces. */
  function PageHeader(line: string): Option<nat>
  {
    if !StartsWith(line, PageMarker) then None
    else
      var d := LeadingDigits(line[|PageMarker|..]);
      if d == [] then None else Some(ParseDecimal(d))
  }

  /** Digits followed by a text that does not start with a digit: the
      digits are exactly the leading run. */
  lemma {:induction false} LeadingDigitsAppend(d: string, rest: string)
    requires AllDigits(d) && (rest == [] || !IsDigit(rest[0]))
    ensures LeadingDigits(d + rest) == d
  {
    if d != [] {
      assert (d + rest)[0] == d[0];
      assert (d + rest)[1..] == d[1..] + rest;
      LeadingDigitsAppend(d[1..], rest);
    } else {
      assert d + rest == rest;
    }
  }

  /** A header written for page `n` reads back as page `n`, whatever
      follows the number. */
  lemma PageHeaderRoundTrip(n: nat, rest: string)
    requires rest == [] || !IsDigit(rest[0])
    ensures PageHeader(PageMarker + Decimal(n) + rest) == Some(n)
  {
    var line := PageMarker + Decimal(n) + rest;
    assert line[|PageMarker|..] == Decimal(n) + rest;
    assert line[..|PageMarker|] == PageMarker;
    LeadingDigitsAppend(Decimal(n), rest);
    ParseDecimalInverse(n);
  }

  predicate NoHeader(lines: seq<string>, headerOf: string -> Option<nat>)
  {
    forall i | 0 <= i < |lines| :: headerOf(lines[i]).None?
  }

  /** `line.trim()` for every line. */
  function TrimAll(lines: seq<string>): seq<string>
  {
    if lines == [] then [] else TrimAll(lines[..|lines| - 1]) + [Trim(lines[|lines| - 1])]
  }

  /** The pages the lines make, for a recogniser of header lines (the
      script's is `PageHeader`): a header opens a page, any other line is
      trimmed onto the latest page, and lines before the first header are
      dropped. */
  function PagesOf(lines: seq<string>, headerOf: string -> Option<nat>): seq<Page>
  {
    if lines == [] then [] else PageStep(PagesOf(lines[..|lines| - 1], headerOf), lines[|lines| - 1], headerOf)
  }

  /** What one line does to the pages read so far. */
  function PageStep(pages: seq<Page>, line: string, headerOf: string -> Option<nat>): seq<Page>
  {
    match headerOf(line)
    case Some(n) => pages + [Page(n, [])]
    case None =>
      if pages == [] then []
      else pages[..|pages| - 1] + [AddLine(pages[|pages| - 1], Trim(line))]
  }

  function AddLine(p: Page, line: string): Page
  {
    p.(lines := p.lines + [line])
  }

  /** `parsePages(markdown)`. The page being filled is the last one of the
      list, which the loop updates in place of the shared object. */
  method ParsePages(markdown: string) returns (pages: seq<Page>)
    ensures pages == PagesOf(Split(markdown, '\n'), PageHeader)
  {
    var lines := Split(markdown, '\n');
    pages := [];
    var current: Option<Page> := None;
    var i := 0;
    while i < |lines|
      invariant 0 <= i <= |lines|
      invariant pages == PagesOf(lines[..i], PageHeader)
      invariant current.None? <==> pages == []
      invariant current.Some? ==> current.value == pages[|pages| - 1]
    {
      var line := lines[i];
      assert lines[..i + 1][..i] == lines[..i];
      match PageHeader(line) {
        case Some(n) =>
          current := Some(Page(n, []));
          pages := pages + [current.value];
        case None =>
          if current.Some? {
            current := Some(AddLine(current.value, Trim(line)));
            pages := pages[..|pages| - 1] + [current.value];
          }
      }
      i := i + 1;
    }
    assert lines[..i] == lines;
  }

  /** Lines before the first header make no page. */
  lemma {:induction false} PagesBeforeHeader(lines: seq<string>, headerOf: string -> Option<nat>)
    requires NoHeader(lines, headerOf)
    ensures PagesOf(lines, headerOf) == []
  {
    if lines != [] {
      PagesBeforeHeader(lines[..|lines| - 1], headerOf);
    }
  }

  /** A header followed by lines without a header adds one page: the
      header's number with those lines trimmed. */
  lemma {:induction false} PagesAfterHeader(before: seq<string>, header: string, n: nat, body: seq<string>,
                                             headerOf: string -> Option<nat>)
    requires headerOf(header) == Some(n) && NoHeader(body, headerOf)
    ensures PagesOf(before + [header] + body, headerOf) == PagesOf(before, headerOf) + [Page(n, TrimAll(body))]
  {
    if body == [] {
      HeaderOpensPage(before, header, n, headerOf);
    } else {
      var init := body[..|body| - 1];
      var x := body[|body| - 1];
      assert NoHeader(init, headerOf) by {
        forall i | 0 <= i < |init| ensures headerOf(init[i]).None? {
          assert init[i] == body[i];
        }
      }
      PagesAfterHeader(before, header, n, init, headerOf);
      InitLast(body);
      AppendAssoc(before + [header], init, [x]);
      PagesOfSnoc(before + [header] + init, x, headerOf);
      LineOntoPage(PagesOf(before, headerOf), Page(n, TrimAll(init)), x, headerOf);
      assert TrimAll(body) == TrimAll(init) + [Trim(x)];
    }
  }

  lemma PagesOfSnoc(lines: seq<string>, line: string, headerOf: string -> Option<nat>)
    ensures PagesOf(lines + [line], headerOf) == PageStep(PagesOf(lines, headerOf), line, headerOf)
  {
    assert (lines + [line])[..|lines|] == lines;
  }

  /** A header opens an empty page. */
  lemma HeaderOpensPage(before: seq<string>, header: string, n: nat, headerOf: string -> Option<nat>)
    requires headerOf(header) == Some(n)
    ensures PagesOf(before + [header] + [], headerOf) == PagesOf(before, headerOf) + [Page(n, [])]
  {
    assert before + [header] + [] == before + [header];
    assert (before + [header])[..|before|] == before;
  }

  /** A line that is not a header goes onto the last page. */
  lemma LineOntoPage(pages: seq<Page>, last: Page, line: string, headerOf: string -> Option<nat>)
    requires headerOf(line).None?
    ensures PageStep(pages + [last], line, headerOf) == pages + [AddLine(last, Trim(line))]
  {
    var p := pages + [last];
    assert p[..|p| - 1] == pages;
  }

  // ----- context keys -----

  /** `[①-⑳◎@©®]`: question-number markers. */
  predicate IsQuestionMarker(c: char)
  {
    c in "①②③④⑤⑥⑦⑧⑨⑩⑪⑫⑬⑭⑮⑯⑰⑱⑲⑳◎@©®"
  }

  /** `[0-9０-９]` */
  predicate IsAnyDigit(c: char)
  {
    ('0' <= c <= '9') || ('０' <= c <= '９')
  }

  /** `[()（）「」『』【】[\]{}]` */
  predicate IsKeyBracket(c: char)
  {
    c in "()（）「」『』【】[]{}"
  }

  /** `[・…:：;；、,]` */
  predicate IsKeyPunct(c: char)
  {
    c in "・…:：;；、,"
  }

  /** What the first two, three and four replacements of
      `normalizeContextKey` remove. */
  predicate DroppedFirstTwo(c: char)
  {
    IsQuestionMarker(c) || IsAnyDigit(c)
  }

  predicate DroppedFirstThree(c: char)
  {
    DroppedFirstTwo(c) || IsKeyBracket(c)
  }

  predicate DroppedFirstFour(c: char)
  {
    DroppedFirstThree(c) || IsKeyPunct(c)
  }

  /** A character `normalizeContextKey` removes. */
  predicate DroppedFromKey(c: char)
  {
    DroppedFirstFour(c) || IsSpace(c)
  }

  /** `normalizeContextKey(text)`: markers, digits, brackets, punctuation
      and whitespace removed, then trimmed. */
  function NormalizeContextKey(text: string): string
  {
    Trim(Strip(Strip(Strip(Strip(Strip(text, IsQuestionMarker), IsAnyDigit), IsKeyBracket), IsKeyPunct), IsSpace))
  }

  /** Stripping two classes one after the other strips their union. */
  lemma {:induction false} StripUnion(s: string, p: char -> bool, q: char -> bool, both: char -> bool)
    requires forall c :: both(c) == (p(c) || q(c))
    ensures Strip(Strip(s, p), q) == Strip(s, both)
  {
    if s != [] {
      var init := s[..|s| - 1];
      var c := s[|s| - 1];
      StripUnion(init, p, q, both);
      var a := Strip(init, p);
      if p(c) {
        assert Strip(s, p) == a;
      } else {
        assert Strip(s, p) == a + [c];
        assert (a + [c])[..|a|] == a;
      }
    }
  }

  /** The key is the text with every removed character left out, in order. */
  lemma ContextKeyIsStrip(text: string)
    ensures NormalizeContextKey(text) == Strip(text, DroppedFromKey)
  {
    StripUnion(text, IsQuestionMarker, IsAnyDigit, DroppedFirstTwo);
    StripUnion(text, DroppedFirstTwo, IsKeyBracket, DroppedFirstThree);
    StripUnion(text, DroppedFirstThree, IsKeyPunct, DroppedFirstFour);
    StripUnion(text, DroppedFirstFour, IsSpace, DroppedFromKey);
    TrimNoSpace(Strip(text, DroppedFromKey));
  }

  /** Normalising a key changes nothing. */
  lemma ContextKeyIdempotent(text: string)
    ensures NormalizeContextKey(NormalizeContextKey(text)) == NormalizeContextKey(text)
  {
    var k := NormalizeContextKey(text);
    ContextKeyIsStrip(text);
    ContextKeyIsStrip(k);
    StripNothing(k, DroppedFromKey);
  }

  // ----- target extraction -----

  const TokenCap: nat := 8

  /** The length of the katakana run a text starts with, at most `cap`. */
  function KanaRun(s: string, cap: nat): (r: nat)
    ensures r <= cap && r <= |s|
    ensures forall i | 0 <= i < r :: IsKatakana(s[i])
    ensures r < cap && r < |s| ==> !IsKatakana(s[r])
  {
    if cap == 0 || s == [] || !IsKatakana(s[0]) then 0 else 1 + KanaRun(s[1..], cap - 1)
  }

  /** `context.match(/[ァ-ヶ]{1,8}/g) ?? []`: left to right, each match is
      the longest katakana run of at most eight characters. */
  function Tokens(s: string): (ts: seq<string>)
    ensures forall i | 0 <= i < |ts| :: 1 <= |ts[i]| <= TokenCap && forall k | 0 <= k < |ts[i]| :: IsKatakana(ts[i][k])
    decreases |s|
  {
    if s == [] then []
    else if !IsKatakana(s[0]) then Tokens(s[1..])
    else
      var n := KanaRun(s, TokenCap);
      [s[..n]] + Tokens(s[n..])
  }

  /** A text has a token exactly when it has a katakana character. */
  lemma {:induction false} TokensEmpty(s: string)
    ensures Tokens(s) == [] <==> !HasKatakana(s)
    decreases |s|
  {
    if s != [] {
      if !IsKatakana(s[0]) {
        TokensEmpty(s[1..]);
        if HasKatakana(s) {
          var i :| 0 <= i < |s| && IsKatakana(s[i]);
          assert s[1..][i - 1] == s[i];
        }
        if HasKatakana(s[1..]) {
          var i :| 0 <= i < |s[1..]| && IsKatakana(s[1..][i]);
          assert s[i + 1] == s[1..][i];
        }
      } else {
        assert IsKatakana(s[0]);
      }
    }
  }

  /** Every piece of a token goes in at least `minLen` characters long:
      two for tokens of three or more characters, one otherwise. */
  function MinLen(t: string): nat
  {
    if |t| >= 3 then 2 else 1
  }

  /** `t.slice(i, j)` for `i < j <= end`, in order of `j`, keeping those of
      at least `minLen` characters. */
  function Row(t: string, i: nat, end: nat, minLen: nat): seq<string>
    requires i <= end <= |t|
  {
    if end <= i then []
    else Row(t, i, end - 1, minLen) + (if end - i >= minLen then [t[i..end]] else [])
  }

  /** The rows of the first `n` start positions. */
  function Grid(t: string, n: nat, minLen: nat): seq<string>
    requires n <= |t|
  {
    if n == 0 then [] else Grid(t, n - 1, minLen) + Row(t, n - 1, |t|, minLen)
  }

  /** What one token adds to the candidates: itself, then its pieces. */
  function TokenPieces(t: string): seq<string>
  {
    [t] + Grid(t, |t|, MinLen(t))
  }

  /** What the tokens add, in the order the loops add it. */
  function AllPieces(ts: seq<string>): seq<string>
  {
    if ts == [] then [] else AllPieces(ts[..|ts| - 1]) + TokenPieces(ts[|ts| - 1])
  }

  /** A piece of a row is a slice of the token of at least `minLen`
      characters. */
  lemma {:induction false} RowSlice(t: string, i: nat, end: nat, minLen: nat, p: nat) returns (j: nat)
    requires i <= end <= |t| && p < |Row(t, i, end, minLen)|
    ensures i < j <= end && j - i >= minLen && Row(t, i, end, minLen)[p] == t[i..j]
  {
    var before := Row(t, i, end - 1, minLen);
    if p < |before| {
      j := RowSlice(t, i, end - 1, minLen, p);
      assert Row(t, i, end, minLen)[p] == before[p];
    } else {
      j := end;
    }
  }

  /** A piece of the grid is a slice starting before `n` of at least
      `minLen` characters. */
  lemma {:induction false} GridSlice(t: string, n: nat, minLen: nat, p: nat) returns (i: nat, j: nat)
    requires n <= |t| && p < |Grid(t, n, minLen)|
    ensures i < n && i < j <= |t| && j - i >= minLen && Grid(t, n, minLen)[p] == t[i..j]
  {
    var before := Grid(t, n - 1, minLen);
    if p < |before| {
      i, j := GridSlice(t, n - 1, minLen, p);
      assert Grid(t, n, minLen)[p] == before[p];
    } else {
      i := n - 1;
      j := RowSlice(t, i, |t|, minLen, p - |before|);
    }
  }

  /** Every candidate is a non-empty katakana slice of a token. */
  lemma {:induction false} AllPiecesKatakana(ts: seq<string>, x: string)
    requires forall i | 0 <= i < |ts| :: 1 <= |ts[i]| && forall k | 0 <= k < |ts[i]| :: IsKatakana(ts[i][k])
    requires x in AllPieces(ts)
    ensures 1 <= |x| && forall k | 0 <= k < |x| :: IsKatakana(x[k])
  {
    var init := ts[..|ts| - 1];
    var t := ts[|ts| - 1];
    if x in AllPieces(init) {
      AllPiecesKatakana(init, x);
    } else {
      assert x in TokenPieces(t);
      if x != t {
        assert x in Grid(t, |t|, MinLen(t));
        var p :| 0 <= p < |Grid(t, |t|, MinLen(t))| && Grid(t, |t|, MinLen(t))[p] == x;
        var i, j := GridSlice(t, |t|, MinLen(t), p);
        assert forall k | 0 <= k < |x| :: x[k] == t[i + k];
      }
    }
  }

  /** Every token is a candidate. */
  lemma {:induction false} TokensArePieces(ts: seq<string>, i: nat)
    requires i < |ts|
    ensures ts[i] in AllPieces(ts)
  {
    var init := ts[..|ts| - 1];
    if i < |init| {
      TokensArePieces(init, i);
    } else {
      assert TokenPieces(ts[i])[0] == ts[i];
    }
  }

  /** `(a, b) => b.length - a.length`, as the order the stable sort keeps:
      longer first, ties in their old order. */
  function LongerFirst(a: string, b: string): bool
  {
    |a| >= |b|
  }

  lemma LongerFirstTotal()
    ensures TotalPreorder(LongerFirst)
  {
  }

  /** The first text of `xs` the map knows. */
  function FirstKnown(xs: seq<string>, m: seq<Slot<string>>): (r: Option<string>)
    ensures r.Some? ==> r.value in xs && Get(m, r.value).Some?
    ensures r.None? <==> forall i | 0 <= i < |xs| :: Get(m, xs[i]).None?
  {
    if xs == [] then None
    else if Get(m, xs[0]).Some? then Some(xs[0])
    else
      var r := FirstKnown(xs[1..], m);
      assert forall i | 1 <= i < |xs| :: xs[1..][i - 1] == xs[i];
      r
  }

  /** The first known text comes before every other known text. */
  lemma {:induction false} FirstKnownFirst(xs: seq<string>, m: seq<Slot<string>>) returns (i: nat)
    requires FirstKnown(xs, m).Some?
    ensures i < |xs| && xs[i] == FirstKnown(xs, m).value
    ensures forall k | 0 <= k < i :: Get(m, xs[k]).None?
  {
    if Get(m, xs[0]).Some? {
      i := 0;
    } else {
      assert FirstKnown(xs, m) == FirstKnown(xs[1..], m);
      var j := FirstKnownFirst(xs[1..], m);
      i := j + 1;
      forall k | 1 <= k < i ensures Get(m, xs[k]).None? {
        assert xs[k] == xs[1..][k - 1];
      }
    }
  }

  /** In a list sorted longest first, the first known text is a longest
      known one. */
  lemma FirstKnownLongest(xs: seq<string>, m: seq<Slot<string>>)
    requires SortedBy(xs, LongerFirst) && FirstKnown(xs, m).Some?
    ensures forall x | x in xs && Get(m, x).Some? :: |x| <= |FirstKnown(xs, m).value|
  {
    var i := FirstKnownFirst(xs, m);
    forall x | x in xs && Get(m, x).Some?
      ensures |x| <= |xs[i]|
    {
      var j :| 0 <= j < |xs| && xs[j] == x;
      if j > i {
        assert LongerFirst(xs[i], xs[j]);
      }
    }
  }

  /** A list sorted longest first starts with a longest element. */
  lemma SortedHeadLongest(xs: seq<string>)
    requires SortedBy(xs, LongerFirst) && xs != []
    ensures forall x | x in xs :: |x| <= |xs[0]|
  {
    forall x | x in xs
      ensures |x| <= |xs[0]|
    {
      var j :| 0 <= j < |xs| && xs[j] == x;
      if j > 0 {
        assert LongerFirst(xs[0], xs[j]);
      }
    }
  }

  /** Sorting keeps the length. */
  lemma SortByLength<T>(xs: seq<T>, le: (T, T) -> bool)
    ensures |SortBy(xs, le)| == |xs|
  {
    SortByPermutation(xs, le);
    assert |multiset(SortBy(xs, le))| == |multiset(xs)|;
  }

  /** What `extractTarget` returns. */
  datatype Extracted = Extracted(target: Option<string>, exactToken: bool)

  /** The candidates of the partial-match step, longest first. */
  function SortedCandidates(ts: seq<string>): seq<string>
  {
    SortBy(Dedup(AllPieces(ts)), LongerFirst)
  }

  /** `extractTarget(context, targetAnswerMap)`. */
  function Extract(context: string, targets: seq<Slot<string>>): Extracted
  {
    var ts := Tokens(context);
    if ts == [] then Extracted(None, false)
    else match FirstKnown(ts, targets)
      case Some(t) => Extracted(Some(t), true)
      case None =>
        match FirstKnown(SortedCandidates(ts), targets)
        case Some(c) => Extracted(Some(c), false)
        case None => Extracted(Some(SortBy(ts, LongerFirst)[0]), false)
  }

  /** What the extraction promises: no target without katakana; an exact
      match is the first token the map knows; otherwise a longest known
      slice of a token; and when no slice is known, a longest token. The
      target is always non-empty katakana. */
  lemma ExtractFacts(context: string, targets: seq<Slot<string>>)
    ensures var r := Extract(context, targets);
      && (r.target.None? <==> !HasKatakana(context))
      && (r.exactToken <==> exists i | 0 <= i < |Tokens(context)| :: Get(targets, Tokens(context)[i]).Some?)
      && (r.exactToken ==> r.target == FirstKnown(Tokens(context), targets))
      && (r.target.Some? ==> 1 <= |r.target.value| && forall k | 0 <= k < |r.target.value| :: IsKatakana(r.target.value[k]))
  {
    var ts := Tokens(context);
    TokensEmpty(context);
    var r := Extract(context, targets);
    if ts != [] && FirstKnown(ts, targets).None? {
      var cs := SortedCandidates(ts);
      SortByMembers(Dedup(AllPieces(ts)), LongerFirst);
      match FirstKnown(cs, targets)
      case Some(c) =>
        AllPiecesKatakana(ts, c);
      case None =>
        SortByMembers(ts, LongerFirst);
        SortByLength(ts, LongerFirst);
        assert SortBy(ts, LongerFirst)[0] in ts;
    }
  }

  /** When no token is known exactly but a candidate is, the target is a
      longest known candidate. */
  lemma ExtractLongestCandidate(context: string, targets: seq<Slot<string>>)
    requires Tokens(context) != [] && FirstKnown(Tokens(context), targets).None?
    requires FirstKnown(SortedCandidates(Tokens(context)), targets).Some?
    ensures var t := Extract(context, targets).target.value;
      && t in AllPieces(Tokens(context)) && Get(targets, t).Some?
      && forall x | x in AllPieces(Tokens(context)) && Get(targets, x).Some? :: |x| <= |t|
  {
    var d := Dedup(AllPieces(Tokens(context)));
    LongerFirstTotal();
    SortBySorted(d, LongerFirst);
    SortByMembers(d, LongerFirst);
    FirstKnownLongest(SortBy(d, LongerFirst), targets);
  }

  /** When no candidate is known, the target is a longest token. */
  lemma ExtractLongestToken(context: string, targets: seq<Slot<string>>)
    requires Tokens(context) != [] && FirstKnown(Tokens(context), targets).None?
    requires FirstKnown(SortedCandidates(Tokens(context)), targets).None?
    ensures var t := Extract(context, targets).target.value;
      && t in Tokens(context) && Get(targets, t).None?
      && forall i | 0 <= i < |Tokens(context)| :: |Tokens(context)[i]| <= |t|
  {
    var ts := Tokens(context);
    var s := SortBy(ts, LongerFirst);
    LongerFirstTotal();
    SortByMembers(ts, LongerFirst);
    SortBySorted(ts, LongerFirst);
    SortByLength(ts, LongerFirst);
    SortedHeadLongest(s);
    assert s[0] in ts;
    forall i | 0 <= i < |ts| ensures |ts[i]| <= |s[0]| {
      assert ts[i] in s;
    }
  }

  /** `candidates.add(x)` on the order-keeping set. */
  function AddNew(cs: seq<string>, x: string): seq<string>
  {
    if x in cs then cs else cs + [x]
  }

  lemma DedupSnoc(s: seq<string>, x: string)
    ensures Dedup(s + [x]) == AddNew(Dedup(s), x)
  {
    assert (s + [x])[..|s|] == s;
  }

  /** `extractTarget(context, targetAnswerMap)` with its loops. */
  method ExtractTarget(context: string, targets: seq<Slot<string>>) returns (r: Extracted)
    ensures r == Extract(context, targets)
  {
    var tokens := Tokens(context);
    if |tokens| == 0 {
      return Extracted(None, false);
    }
    var hit := FindKnown(tokens, targets);
    if hit.Some? {
      return Extracted(hit, true);
    }
    var candidates := CollectCandidates(tokens);
    var sorted := SortBy(candidates, LongerFirst);
    hit := FindKnown(sorted, targets);
    if hit.Some? {
      return Extracted(hit, false);
    }
    var longest := SortBy(tokens, LongerFirst);
    SortByPermutation(tokens, LongerFirst);
    assert |longest| == |tokens| by {
      assert |multiset(longest)| == |multiset(tokens)|;
    }
    return Extracted(Some(longest[0]), false);
  }

  /** `for (const t of xs) if (targetAnswerMap.has(t)) return t`: the
      first element the map knows. */
  method FindKnown(xs: seq<string>, targets: seq<Slot<string>>) returns (r: Option<string>)
    ensures r == FirstKnown(xs, targets)
  {
    var k := 0;
    while k < |xs|
      invariant 0 <= k <= |xs|
      invariant FirstKnown(xs, targets) == FirstKnown(xs[k..], targets)
    {
      if Get(targets, xs[k]).Some? {
        return Some(xs[k]);
      }
      assert xs[k..][1..] == xs[k + 1..];
      k := k + 1;
    }
    return None;
  }

  /** The candidate loops of `extractTarget`: each token, then each of its
      slices that is long enough, into an order-keeping set. */
  method CollectCandidates(tokens: seq<string>) returns (candidates: seq<string>)
    ensures candidates == Dedup(AllPieces(tokens))
  {
    candidates := [];
    var k := 0;
    while k < |tokens|
      invariant 0 <= k <= |tokens|
      invariant candidates == Dedup(AllPieces(tokens[..k]))
    {
      assert tokens[..k + 1][..k] == tokens[..k];
      candidates := AddTokenPieces(candidates, AllPieces(tokens[..k]), tokens[k]);
      k := k + 1;
    }
    assert tokens[..k] == tokens;
  }

  /** One round of the outer candidate loop: the token, then its slices. */
  method AddTokenPieces(candidates: seq<string>, ghost added: seq<string>, t: string) returns (r: seq<string>)
    requires candidates == Dedup(added)
    ensures r == Dedup(added + TokenPieces(t))
  {
    var minLen := MinLen(t);
    DedupSnoc(added, t);
    r := AddNew(candidates, t);
    ghost var before := added + [t];
    assert before + Grid(t, 0, minLen) == before;
    var i := 0;
    while i < |t|
      invariant 0 <= i <= |t|
      invariant r == Dedup(before + Grid(t, i, minLen))
    {
      r := AddRow(r, before + Grid(t, i, minLen), t, i, minLen);
      AppendAssoc(before, Grid(t, i, minLen), Row(t, i, |t|, minLen));
      i := i + 1;
    }
    AppendAssoc(added, [t], Grid(t, |t|, minLen));
  }

  /** The innermost candidate loop: the slices starting at `i`. */
  method AddRow(candidates: seq<string>, ghost added: seq<string>, t: string, i: nat, minLen: nat) returns (r: seq<string>)
    requires i < |t| && candidates == Dedup(added)
    ensures r == Dedup(added + Row(t, i, |t|, minLen))
  {
    r := candidates;
    var j := i + 1;
    assert added + Row(t, i, i, minLen) == added;
    while j <= |t|
      invariant i + 1 <= j <= |t| + 1
      invariant r == Dedup(added + Row(t, i, j - 1, minLen))
    {
      var piece := t[i..j];
      if |piece| >= minLen {
        DedupSnoc(added + Row(t, i, j - 1, minLen), piece);
        r := AddNew(r, piece);
        assert Row(t, i, j, minLen) == Row(t, i, j - 1, minLen) + [piece];
        AppendAssoc(added, Row(t, i, j - 1, minLen), [piece]);
      } else {
        assert Row(t, i, j, minLen) == Row(t, i, j - 1, minLen);
      }
      j := j + 1;
    }
  }

  // ----- target to answer -----

  /** A question `buildTargetAnswerMap` reads. */
  predicate UsableForTarget(q: Question)
  {
    q.tag == Writing && q.target != "" && q.answer != ""
  }

  /** The answers the usable questions give for target `k`. */
  function AnswersFor(qs: seq<Question>, k: string): set<string>
  {
    if qs == [] then {}
    else
      var q := qs[|qs| - 1];
      AnswersFor(qs[..|qs| - 1], k) + (if UsableForTarget(q) && q.target == k then {q.answer} else {})
  }

  lemma {:induction false} AnswersForMembers(qs: seq<Question>, k: string, a: string)
    ensures a in AnswersFor(qs, k) <==>
      exists i | 0 <= i < |qs| :: UsableForTarget(qs[i]) && qs[i].target == k && qs[i].answer == a
  {
    if qs != [] {
      var init := qs[..|qs| - 1];
      AnswersForMembers(init, k, a);
      assert forall i | 0 <= i < |init| :: init[i] == qs[i];
    }
  }

  /** The map and the ambiguous targets while the first loop runs. */
  datatype TargetScan = TargetScan(answers: seq<Slot<string>>, ambiguous: set<string>)

  function ScanStep(s: TargetScan, q: Question): TargetScan
  {
    if !UsableForTarget(q) then s
    else
      var prev := Get(s.answers, q.target);
      if prev.Some? && prev.value != q.answer then s.(ambiguous := s.ambiguous + {q.target})
      else s.(answers := Put(s.answers, q.target, q.answer))
  }

  function ScanTargets(qs: seq<Question>): TargetScan
  {
    if qs == [] then TargetScan([], {}) else ScanStep(ScanTargets(qs[..|qs| - 1]), qs[|qs| - 1])
  }

  /** `buildTargetAnswerMap(questions)`. */
  function TargetAnswerMap(qs: seq<Question>): seq<Slot<string>>
  {
    var s := ScanTargets(qs);
    RemoveKeys(s.answers, s.ambiguous)
  }

  /** While scanning: a target reads nothing until an answer is seen for it,
      it then reads one of its answers, and it is ambiguous exactly when it
      has an answer besides the one it reads. */
  predicate ScanKeeps(s: TargetScan, k: string, a: set<string>)
  {
    var g := Get(s.answers, k);
    && (g.None? <==> a == {})
    && (g.Some? ==> g.value in a)
    && (k in s.ambiguous <==> g.Some? && a != {g.value})
  }

  lemma ScanStepKeeps(s: TargetScan, q: Question, k: string, a: set<string>)
    requires ScanKeeps(s, k, a)
    ensures ScanKeeps(ScanStep(s, q), k, a + (if UsableForTarget(q) && q.target == k then {q.answer} else {}))
  {
    if UsableForTarget(q) {
      PutGet(s.answers, q.target, q.answer, k);
    }
  }

  lemma {:induction false} ScanInvariant(qs: seq<Question>, k: string)
    ensures ScanKeeps(ScanTargets(qs), k, AnswersFor(qs, k))
  {
    if qs != [] {
      ScanInvariant(qs[..|qs| - 1], k);
      ScanStepKeeps(ScanTargets(qs[..|qs| - 1]), qs[|qs| - 1], k, AnswersFor(qs[..|qs| - 1], k));
    }
  }

  /** A target reads `a` exactly when `a` is the one answer the usable
      questions give for it; a target with two answers reads nothing. */
  lemma TargetAnswerMapFacts(qs: seq<Question>, k: string, a: string)
    ensures Get(TargetAnswerMap(qs), k) == Some(a) <==> AnswersFor(qs, k) == {a}
  {
    var s := ScanTargets(qs);
    ScanInvariant(qs, k);
    GetRemoveKeys(s.answers, s.ambiguous, k);
  }

  /** `buildTargetAnswerMap(questions)` with its loops. The ambiguous keys
      may be deleted in any order. */
  method BuildTargetAnswerMap(questions: seq<Question>) returns (m: seq<Slot<string>>)
    ensures m == TargetAnswerMap(questions)
  {
    m := [];
    var ambiguous: set<string> := {};
    var i := 0;
    while i < |questions|
      invariant 0 <= i <= |questions|
      invariant TargetScan(m, ambiguous) == ScanTargets(questions[..i])
    {
      var q := questions[i];
      assert questions[..i + 1][..i] == questions[..i];
      if q.tag == Writing && q.target != "" && q.answer != "" {
        var prev := Get(m, q.target);
        if prev.Some? && prev.value != q.answer {
          ambiguous := ambiguous + {q.target};
        } else {
          m := Put(m, q.target, q.answer);
        }
      }
      i := i + 1;
    }
    assert questions[..i] == questions;
    ghost var scanned := m;
    var rest := ambiguous;
    RemoveKeysTwice(m, {}, ambiguous);
    RemoveNoKeys(m);
    while rest != {}
      invariant RemoveKeys(m, rest) == RemoveKeys(scanned, ambiguous)
      decreases |rest|
    {
      var key :| key in rest;
      RemoveKeysTwice(m, {key}, rest - {key});
      assert {key} + (rest - {key}) == rest;
      m := RemoveKeys(m, {key});
      rest := rest - {key};
    }
    RemoveNoKeys(m);
  }

  // ----- context to target and answer -----

  /** `{ target, answer }` */
  datatype TargetAnswer = TargetAnswer(target: string, answer: string)

  /** A question `buildContextAnswerMap` reads. */
  predicate UsableForContext(q: Question)
  {
    q.tag == Writing && q.context != "" && q.target != "" && q.answer != ""
  }

  /** The question files its target and answer under `key`, for a key
      function (the script's is `NormalizeContextKey`). */
  predicate FiledUnder(q: Question, key: string, keyOf: string -> string)
  {
    UsableForContext(q) && key != "" && keyOf(q.context) == key
  }

  function ContextStep(m: seq<Slot<TargetAnswer>>, q: Question, keyOf: string -> string): seq<Slot<TargetAnswer>>
  {
    if !UsableForContext(q) then m
    else
      var key := keyOf(q.context);
      if key == "" then m else Put(m, key, TargetAnswer(q.target, q.answer))
  }

  /** `buildContextAnswerMap(questions)`, with `keyOf` for
      `normalizeContextKey`. */
  function ContextAnswerMap(qs: seq<Question>, keyOf: string -> string): seq<Slot<TargetAnswer>>
  {
    if qs == [] then [] else ContextStep(ContextAnswerMap(qs[..|qs| - 1], keyOf), qs[|qs| - 1], keyOf)
  }

  /** `qs[i]` is the last question filed under `key`. */
  predicate LastFiled(qs: seq<Question>, key: string, keyOf: string -> string, i: int)
  {
    0 <= i < |qs| && FiledUnder(qs[i], key, keyOf) && forall j | i < j < |qs| :: !FiledUnder(qs[j], key, keyOf)
  }

  /** A key reads nothing when no question is filed under it, and otherwise
      the target and answer of the last question filed under it. */
  lemma {:induction false} ContextAnswerLast(qs: seq<Question>, key: string, keyOf: string -> string)
    ensures var g := Get(ContextAnswerMap(qs, keyOf), key);
      && (g.None? <==> forall i | 0 <= i < |qs| :: !FiledUnder(qs[i], key, keyOf))
      && (g.Some? ==> exists i :: LastFiled(qs, key, keyOf, i) && g.value == TargetAnswer(qs[i].target, qs[i].answer))
  {
    if qs != [] {
      var init := qs[..|qs| - 1];
      var q := qs[|qs| - 1];
      var m := ContextAnswerMap(init, keyOf);
      assert qs == init + [q];
      ContextAnswerLast(init, key, keyOf);
      ContextStepGet(m, q, key, keyOf);
      if FiledUnder(q, key, keyOf) {
        assert LastFiled(qs, key, keyOf, |qs| - 1);
      } else if Get(m, key).Some? {
        var i :| LastFiled(init, key, keyOf, i) && Get(m, key).value == TargetAnswer(init[i].target, init[i].answer);
        LastFiledSnoc(init, q, key, keyOf, i);
      } else {
        NoneFiledSnoc(init, q, key, keyOf);
      }
    }
  }

  lemma LastFiledSnoc(qs: seq<Question>, q: Question, key: string, keyOf: string -> string, i: int)
    requires LastFiled(qs, key, keyOf, i) && !FiledUnder(q, key, keyOf)
    ensures LastFiled(qs + [q], key, keyOf, i) && (qs + [q])[i] == qs[i]
  {
    var r := qs + [q];
    forall j | i < j < |r|
      ensures !FiledUnder(r[j], key, keyOf)
    {
      if j < |qs| {
        assert r[j] == qs[j];
      }
    }
  }

  lemma NoneFiledSnoc(qs: seq<Question>, q: Question, key: string, keyOf: string -> string)
    requires (forall i | 0 <= i < |qs| :: !FiledUnder(qs[i], key, keyOf)) && !FiledUnder(q, key, keyOf)
    ensures forall i | 0 <= i < |qs + [q]| :: !FiledUnder((qs + [q])[i], key, keyOf)
  {
    var r := qs + [q];
    forall i | 0 <= i < |r|
      ensures !FiledUnder(r[i], key, keyOf)
    {
      if i < |qs| {
        assert r[i] == qs[i];
      }
    }
  }

  /** One question changes at most the key it is filed under. */
  lemma ContextStepGet(m: seq<Slot<TargetAnswer>>, q: Question, key: string, keyOf: string -> string)
    ensures Get(ContextStep(m, q, keyOf), key) ==
      if FiledUnder(q, key, keyOf) then Some(TargetAnswer(q.target, q.answer)) else Get(m, key)
  {
    if UsableForContext(q) && keyOf(q.context) != "" {
      PutGet(m, keyOf(q.context), TargetAnswer(q.target, q.answer), key);
    }
  }

  /** `buildContextAnswerMap(questions)` with its loop. */
  method BuildContextAnswerMap(questions: seq<Question>) returns (m: seq<Slot<TargetAnswer>>)
    ensures m == ContextAnswerMap(questions, NormalizeContextKey)
  {
    m := [];
    var i := 0;
    while i < |questions|
      invariant 0 <= i <= |questions|
      invariant m == ContextAnswerMap(questions[..i], NormalizeContextKey)
    {
      var q := questions[i];
      assert questions[..i + 1][..i] == questions[..i];
      if q.tag == Writing && q.context != "" && q.target != "" && q.answer != "" {
        var key := NormalizeContextKey(q.context);
        if key != "" {
          m := Put(m, key, TargetAnswer(q.target, q.answer));
        }
      }
      i := i + 1;
    }
    assert questions[..i] == questions;
  }

  // ----- allowed kanji -----

  /** A row of the grade table: its grade as a number (`None` when
      `Number(row.grade)` is not finite) and its kanji. */
  datatype GradeRow = GradeRow(grade: Option<real>, kanji: seq<string>)

  predicate RowAllowed(row: GradeRow, maxGrade: real)
  {
    row.grade.Some? && row.grade.value <= maxGrade
  }

  /** `buildAllowedKanjiSet(gradeData, maxGrade)` */
  function AllowedKanji(rows: seq<GradeRow>, maxGrade: real): set<string>
  {
    if rows == [] then {}
    else
      var row := rows[|rows| - 1];
      AllowedKanji(rows[..|rows| - 1], maxGrade) + (if RowAllowed(row, maxGrade) then (set x | x in row.kanji) else {})
  }

  /** The allowed kanji are those of the rows with a finite grade no higher
      than the maximum. */
  lemma {:induction false} AllowedKanjiMembers(rows: seq<GradeRow>, maxGrade: real, ch: string)
    ensures ch in AllowedKanji(rows, maxGrade) <==>
      exists i | 0 <= i < |rows| :: RowAllowed(rows[i], maxGrade) && ch in rows[i].kanji
  {
    if rows != [] {
      var init := rows[..|rows| - 1];
      AllowedKanjiMembers(init, maxGrade, ch);
      assert forall i | 0 <= i < |init| :: init[i] == rows[i];
    }
  }

  /** `buildAllowedKanjiSet(gradeData, maxGrade)` with its loops. */
  method BuildAllowedKanjiSet(rows: seq<GradeRow>, maxGrade: real) returns (out: set<string>)
    ensures out == AllowedKanji(rows, maxGrade)
  {
    out := {};
    var i := 0;
    while i < |rows|
      invariant 0 <= i <= |rows|
      invariant out == AllowedKanji(rows[..i], maxGrade)
    {
      var row := rows[i];
      assert rows[..i + 1][..i] == rows[..i];
      if row.grade.Some? && row.grade.value <= maxGrade {
        ghost var before := out;
        var k := 0;
        while k < |row.kanji|
          invariant 0 <= k <= |row.kanji|
          invariant out == before + set x | x in row.kanji[..k]
        {
          assert forall x :: x in row.kanji[..k + 1] <==> x in row.kanji[..k] || x == row.kanji[k];
          out := out + {row.kanji[k]};
          k := k + 1;
        }
        assert row.kanji[..k] == row.kanji;
      }
      i := i + 1;
    }
    assert rows[..i] == rows;
  }

  // ----- grade scope -----

  /** `answerIsWithinGrade(answer, allowedKanjiSet)` */
  function AnswerIsWithinGrade(answer: string, allowed: set<string>): bool
  {
    if |allowed| == 0 then true
    else
      var kanji := Filter(answer, IsKanjiChar);
      if |kanji| == 0 then true else forall i | 0 <= i < |kanji| :: [kanji[i]] in allowed
  }

  /** An answer is within the grade exactly when no kanji are allowed at
      all or every kanji character in it is allowed. */
  lemma WithinGradeIff(answer: string, allowed: set<string>)
    ensures AnswerIsWithinGrade(answer, allowed) <==>
      allowed == {} || forall i | 0 <= i < |answer| && IsKanjiChar(answer[i]) :: [answer[i]] in allowed
  {
    var kanji := Filter(answer, IsKanjiChar);
    if allowed != {} {
      assert |allowed| != 0;
      if forall i | 0 <= i < |kanji| :: [kanji[i]] in allowed {
        forall i | 0 <= i < |answer| && IsKanjiChar(answer[i])
          ensures [answer[i]] in allowed
        {
          assert answer[i] in answer;
          var j :| 0 <= j < |kanji| && kanji[j] == answer[i];
        }
      }
      if forall i | 0 <= i < |answer| && IsKanjiChar(answer[i]) :: [answer[i]] in allowed {
        forall i | 0 <= i < |kanji|
          ensures [kanji[i]] in allowed
        {
          assert kanji[i] in kanji;
          var j :| 0 <= j < |answer| && answer[j] == kanji[i];
        }
      }
    }
  }

  // ----- fragments -----

  /** The regular-expression clean-up of the script, taken as given:
      `likelyNoise`, `splitQuestionFragments` and `normalizeContext`. */
  datatype Cleanup = Cleanup(noise: string -> bool, split: string -> seq<string>, normalize: string -> string)

  /** A fragment after `normalizeContext`, with the page it is on. */
  datatype Fragment = Fragment(page: nat, context: string)

  function FragmentsOf(page: nat, parts: seq<string>, normalize: string -> string): seq<Fragment>
  {
    if parts == [] then []
    else FragmentsOf(page, parts[..|parts| - 1], normalize) + [Fragment(page, normalize(parts[|parts| - 1]))]
  }

  /** The fragments of a page's lines: a noisy line gives none, any other
      line the normalised pieces it splits into. */
  function LineFragments(page: nat, lines: seq<string>, clean: Cleanup): seq<Fragment>
  {
    if lines == [] then []
    else
      var line := lines[|lines| - 1];
      LineFragments(page, lines[..|lines| - 1], clean)
        + (if clean.noise(line) then [] else FragmentsOf(page, clean.split(line), clean.normalize))
  }

  /** The fragments the ladder sees, in order: those of every page from
      `pageStart` to `pageEnd`. */
  function Fragments(pages: seq<Page>, pageStart: int, pageEnd: int, clean: Cleanup): seq<Fragment>
  {
    if pages == [] then []
    else
      var p := pages[|pages| - 1];
      Fragments(pages[..|pages| - 1], pageStart, pageEnd, clean)
        + (if p.page < pageStart || p.page > pageEnd then [] else LineFragments(p.page, p.lines, clean))
  }

  /** The two outer loops of `main`, collecting what the innermost loop
      gets to see. */
  method CollectFragments(pages: seq<Page>, pageStart: int, pageEnd: int, clean: Cleanup) returns (fs: seq<Fragment>)
    ensures fs == Fragments(pages, pageStart, pageEnd, clean)
  {
    fs := [];
    var i := 0;
    while i < |pages|
      invariant 0 <= i <= |pages|
      invariant fs == Fragments(pages[..i], pageStart, pageEnd, clean)
    {
      var p := pages[i];
      assert pages[..i + 1][..i] == pages[..i];
      if !(p.page < pageStart || p.page > pageEnd) {
        var more := PageFragments(p.page, p.lines, clean);
        fs := fs + more;
      }
      i := i + 1;
    }
    assert pages[..i] == pages;
  }

  /** The fragments of one page's lines. */
  method PageFragments(page: nat, lines: seq<string>, clean: Cleanup) returns (fs: seq<Fragment>)
    ensures fs == LineFragments(page, lines, clean)
  {
    fs := [];
    var j := 0;
    while j < |lines|
      invariant 0 <= j <= |lines|
      invariant fs == LineFragments(page, lines[..j], clean)
    {
      var line := lines[j];
      assert lines[..j + 1][..j] == lines[..j];
      if !clean.noise(line) {
        fs := AddFragments(fs, page, clean.split(line), clean.normalize);
      } else {
        assert fs == fs + [];
      }
      j := j + 1;
    }
    assert lines[..j] == lines;
  }

  /** The loop over the pieces of one line. */
  method AddFragments(fs0: seq<Fragment>, page: nat, parts: seq<string>, normalize: string -> string) returns (fs: seq<Fragment>)
    ensures fs == fs0 + FragmentsOf(page, parts, normalize)
  {
    fs := fs0;
    var k := 0;
    while k < |parts|
      invariant 0 <= k <= |parts|
      invariant fs == fs0 + FragmentsOf(page, parts[..k], normalize)
    {
      assert parts[..k + 1][..k] == parts[..k];
      AppendAssoc(fs0, FragmentsOf(page, parts[..k], normalize), [Fragment(page, normalize(parts[k]))]);
      fs := fs + [Fragment(page, normalize(parts[k]))];
      k := k + 1;
    }
    assert parts[..k] == parts;
  }

  // ----- the accept/review ladder -----

  /** Why a fragment goes to manual review. */
  datatype ReviewReason = MultiTargetLine | AnswerNotFound | AnswerOutsideGradeScope | ShortTargetAmbiguous | PartialTokenAmbiguous

  /** An entry of the review file. */
  datatype ReviewEntry = ReviewEntry(page: nat, context: string, guessedTarget: Option<string>, reason: ReviewReason)

  /** What the ladder does with one fragment. */
  datatype Verdict = Skip | Review(reason: ReviewReason, guessed: Option<string>) | Accept(target: string, answer: string)

  /** What the ladder looks things up in: the target map (with the manual
      entries set into it), the manual target table itself, the context
      map, the allowed kanji, the manual context overrides, and the noise
      test. */
  datatype Lookups = Lookups(
    targets: seq<Slot<string>>,
    manual: seq<Slot<string>>,
    contexts: seq<Slot<TargetAnswer>>,
    allowed: set<string>,
    overrides: map<string, TargetAnswer>,
    noise: string -> bool,
    keyOf: string -> string)

  const InstructionText: string := "カタカナを漢字になおし"
  const OcrQuestionText: string := "カタカナを漢字になおしなさい。"
  const OcrSourcePrefix: string := "ocr-auto-p"

  /** A token counts as known when the target map has it or the manual
      table gives it a non-empty answer. */
  predicate KnownToken(t: string, lk: Lookups)
  {
    Get(lk.targets, t).Some? || (Get(lk.manual, t).Some? && Get(lk.manual, t).value != "")
  }

  /** How many of the tokens are known. */
  function CountKnown(ts: seq<string>, lk: Lookups): nat
  {
    if ts == [] then 0 else CountKnown(ts[..|ts| - 1], lk) + (if KnownToken(ts[|ts| - 1], lk) then 1 else 0)
  }

  /** `knownTokenCount` */
  function KnownTokenCount(context: string, lk: Lookups): nat
  {
    CountKnown(Tokens(context), lk)
  }

  /** `MANUAL_CONTEXT_OVERRIDE[context]` */
  function OverrideOf(context: string, lk: Lookups): Option<TargetAnswer>
  {
    if context in lk.overrides then Some(lk.overrides[context]) else None
  }

  /** `contextAnswerMap.get(normalizeContextKey(context))` */
  function KnownOf(context: string, lk: Lookups): Option<TargetAnswer>
  {
    Get(lk.contexts, lk.keyOf(context))
  }

  /** The skip tests that come before any review. */
  predicate PassesSkips(context: string, existing: set<string>, lk: Lookups)
  {
    !lk.noise(context) && context !in existing && !Contains(context, InstructionText)
  }

  /** What the ladder looks up about one fragment before it decides. */
  datatype Probe = Probe(passes: bool, knownCount: nat, override: Option<TargetAnswer>, known: Option<TargetAnswer>, extracted: Extracted)

  function ProbeOf(context: string, existing: set<string>, lk: Lookups): Probe
  {
    Probe(PassesSkips(context, existing, lk), KnownTokenCount(context, lk), OverrideOf(context, lk), KnownOf(context, lk),
          Extract(context, lk.targets))
  }

  /** `override?.target ?? known?.target ?? extracted.target` */
  function TargetOf(p: Probe): Option<string>
  {
    if p.override.Some? then Some(p.override.value.target)
    else if p.known.Some? then Some(p.known.value.target)
    else p.extracted.target
  }

  /** `override?.answer ?? known?.answer ?? targetAnswerMap.get(target)` */
  function AnswerOf(p: Probe, target: string, lk: Lookups): Option<string>
  {
    if p.override.Some? then Some(p.override.value.answer)
    else if p.known.Some? then Some(p.known.value.answer)
    else Get(lk.targets, target)
  }

  /** The target is trusted without an exact token: it comes from an
      override or from a known context. */
  predicate Vouched(p: Probe)
  {
    p.override.Some? || p.known.Some?
  }

  /** The innermost loop body of `main` once the fragment is looked up. */
  function Decide(p: Probe, lk: Lookups): Verdict
  {
    if !p.passes then Skip
    else if p.knownCount >= 2 then Review(MultiTargetLine, None)
    else
      var target := TargetOf(p);
      if target.None? || target.value == "" then Skip
      else
        var t := target.value;
        var answer := AnswerOf(p, t, lk);
        if answer.None? || answer.value == "" then Review(AnswerNotFound, Some(t))
        else if !AnswerIsWithinGrade(answer.value, lk.allowed) then Review(AnswerOutsideGradeScope, Some(t))
        else if |t| < 2 && !Vouched(p) then Review(ShortTargetAmbiguous, Some(t))
        else if !Vouched(p) && !p.extracted.exactToken then Review(PartialTokenAmbiguous, Some(t))
        else Accept(t, answer.value)
  }

  /** A fragment is accepted exactly when it passes the skip tests, has at
      most one known token, a target and an answer, the answer is within
      the grade, and the target is vouched for or an exact token of at
      least two characters; it is accepted with that target and answer. */
  lemma DecideAccepts(p: Probe, lk: Lookups)
    ensures Decide(p, lk).Accept? <==>
      && p.passes && p.knownCount < 2
      && TargetOf(p).Some? && TargetOf(p).value != ""
      && AnswerOf(p, TargetOf(p).value, lk).Some?
      && AnswerOf(p, TargetOf(p).value, lk).value != ""
      && AnswerIsWithinGrade(AnswerOf(p, TargetOf(p).value, lk).value, lk.allowed)
      && (Vouched(p) || (p.extracted.exactToken && |TargetOf(p).value| >= 2))
    ensures Decide(p, lk).Accept? ==>
      Decide(p, lk) == Accept(TargetOf(p).value, AnswerOf(p, TargetOf(p).value, lk).value)
  {
  }

  /** A fragment that passes the skip tests, has at most one known token and
      has a target goes to review for the first check it fails: no answer,
      an answer outside the grade, a short target nobody vouches for, or a
      target that is only part of a token. Every review but the multi-target
      one names the target. */
  lemma DecideReviews(p: Probe, lk: Lookups)
    requires p.passes && p.knownCount < 2
    requires TargetOf(p).Some? && TargetOf(p).value != ""
    ensures var t := TargetOf(p).value;
      var a := AnswerOf(p, t, lk);
      var v := Decide(p, lk);
      && (v == Review(AnswerNotFound, Some(t)) <==> a.None? || a.value == "")
      && (v == Review(AnswerOutsideGradeScope, Some(t)) <==>
            a.Some? && a.value != "" && !AnswerIsWithinGrade(a.value, lk.allowed))
      && (v == Review(ShortTargetAmbiguous, Some(t)) <==>
            a.Some? && a.value != "" && AnswerIsWithinGrade(a.value, lk.allowed) && |t| < 2 && !Vouched(p))
      && (v == Review(PartialTokenAmbiguous, Some(t)) <==>
            a.Some? && a.value != "" && AnswerIsWithinGrade(a.value, lk.allowed) && |t| >= 2 && !Vouched(p)
            && !p.extracted.exactToken)
      && (v.Review? ==> v.guessed == Some(t))
  {
  }

  /** A fragment failing a skip test or without a target is skipped, and
      two known tokens send it to review without a guess. */
  lemma DecideEarly(p: Probe, lk: Lookups)
    ensures Decide(p, lk) == Skip <==>
      !p.passes || (p.knownCount < 2 && (TargetOf(p).None? || TargetOf(p).value == ""))
    ensures Decide(p, lk) == Review(MultiTargetLine, None) <==> p.passes && p.knownCount >= 2
  {
  }

  /** An accepted fragment nobody vouches for has as target the first known
      token of its line, of at least two characters, and as answer what the
      target map gives that token. */
  lemma AcceptedUnvouched(context: string, existing: set<string>, lk: Lookups)
    requires var p := ProbeOf(context, existing, lk); Decide(p, lk).Accept? && !Vouched(p)
    ensures var v := Decide(ProbeOf(context, existing, lk), lk);
      && FirstKnown(Tokens(context), lk.targets) == Some(v.target) && |v.target| >= 2
      && Get(lk.targets, v.target) == Some(v.answer)
  {
    var p := ProbeOf(context, existing, lk);
    DecideAccepts(p, lk);
    ExtractFacts(context, lk.targets);
  }

  /** Once the manual table is set into the target map, the manual test of
      `knownTokenCount` adds nothing. */
  lemma ManualTestRedundant(t: string, lk: Lookups, scanned: seq<Slot<string>>)
    requires DistinctKeys(lk.manual) && lk.targets == PutAll(scanned, lk.manual)
    ensures KnownToken(t, lk) <==> Get(lk.targets, t).Some?
  {
    PutAllGet(scanned, lk.manual, t);
  }

  /** The difficulty of an imported question. */
  function OcrDifficulty(answer: string): int
  {
    if |answer| >= 2 then 2 else 1
  }

  function OcrExplanation(target: string, answer: string): string
  {
    "OCR抽出問題。" + target + "→" + answer + " を確認して覚えよう。"
  }

  /** The question an accepted fragment becomes. */
  function OcrQuestion(n: nat, page: nat, context: string, target: string, answer: string): Question
  {
    Question(FormatId("w", n), Writing, FormatId(OcrSourcePrefix, page), 2, OcrDifficulty(answer),
             OcrQuestionText, context, target, answer, None, None, Some(OcrExplanation(target, answer)))
  }

  /** What the ladder carries from fragment to fragment. */
  datatype LadderState = LadderState(existing: set<string>, nextId: nat, additions: seq<Question>, review: seq<ReviewEntry>)

  /** What a verdict does to the ladder's state. */
  function Apply(s: LadderState, f: Fragment, v: Verdict): LadderState
  {
    match v
    case Skip => s
    case Review(r, g) => s.(review := s.review + [ReviewEntry(f.page, f.context, g, r)])
    case Accept(t, a) =>
      LadderState(s.existing + {f.context}, s.nextId + 1, s.additions + [OcrQuestion(s.nextId, f.page, f.context, t, a)], s.review)
  }

  function LadderStep(s: LadderState, f: Fragment, lk: Lookups): LadderState
  {
    Apply(s, f, Decide(ProbeOf(f.context, s.existing, lk), lk))
  }

  /** The ladder over the fragments in order. */
  function Ladder(s: LadderState, fs: seq<Fragment>, lk: Lookups): LadderState
  {
    if fs == [] then s else LadderStep(Ladder(s, fs[..|fs| - 1], lk), fs[|fs| - 1], lk)
  }

  lemma LadderSnoc(s0: LadderState, fs: seq<Fragment>, i: nat, lk: Lookups)
    requires i < |fs|
    ensures Ladder(s0, fs[..i + 1], lk) == LadderStep(Ladder(s0, fs[..i], lk), fs[i], lk)
  {
    assert fs[..i + 1][..i] == fs[..i];
  }

  /** The lookups of the loop body for one fragment. */
  method ProbeFragment(context: string, existing: set<string>, lk: Lookups) returns (p: Probe)
    ensures p == ProbeOf(context, existing, lk)
  {
    var passes := !(lk.noise(context) || context in existing || Contains(context, InstructionText));
    var known := 0;
    var tokens := Tokens(context);
    var k := 0;
    while k < |tokens|
      invariant 0 <= k <= |tokens|
      invariant known == CountKnown(tokens[..k], lk)
    {
      assert tokens[..k + 1][..k] == tokens[..k];
      if Get(lk.targets, tokens[k]).Some? || (Get(lk.manual, tokens[k]).Some? && Get(lk.manual, tokens[k]).value != "") {
        known := known + 1;
      }
      k := k + 1;
    }
    assert tokens[..k] == tokens;
    var knownPair := Get(lk.contexts, lk.keyOf(context));
    var override := if context in lk.overrides then Some(lk.overrides[context]) else None;
    var extracted := ExtractTarget(context, lk.targets);
    p := Probe(passes, known, override, knownPair, extracted);
  }

  /** The ladder of the loop body, from its first skip to the push. */
  method DecideFragment(p: Probe, lk: Lookups) returns (v: Verdict)
    ensures v == Decide(p, lk)
  {
    if !p.passes {
      return Skip;
    }
    if p.knownCount >= 2 {
      return Review(MultiTargetLine, None);
    }
    var target := if p.override.Some? then Some(p.override.value.target)
                  else if p.known.Some? then Some(p.known.value.target)
                  else p.extracted.target;
    if target.None? || target.value == "" {
      return Skip;
    }
    var t := target.value;
    var answer := if p.override.Some? then Some(p.override.value.answer)
                  else if p.known.Some? then Some(p.known.value.answer)
                  else Get(lk.targets, t);
    if answer.None? || answer.value == "" {
      return Review(AnswerNotFound, Some(t));
    }
    if !AnswerIsWithinGrade(answer.value, lk.allowed) {
      return Review(AnswerOutsideGradeScope, Some(t));
    }
    if |t| < 2 && p.override.None? && p.known.None? {
      return Review(ShortTargetAmbiguous, Some(t));
    }
    if p.override.None? && p.known.None? && !p.extracted.exactToken {
      return Review(PartialTokenAmbiguous, Some(t));
    }
    return Accept(t, answer.value);
  }

  /** The innermost loop of `main` over the collected fragments. */
  method RunLadder(s0: LadderState, fs: seq<Fragment>, lk: Lookups) returns (s: LadderState)
    ensures s == Ladder(s0, fs, lk)
  {
    var existing, nextId, additions, review := s0.existing, s0.nextId, s0.additions, s0.review;
    var i := 0;
    while i < |fs|
      invariant 0 <= i <= |fs|
      invariant LadderState(existing, nextId, additions, review) == Ladder(s0, fs[..i], lk)
    {
      var f := fs[i];
      LadderSnoc(s0, fs, i, lk);
      var probe := ProbeFragment(f.context, existing, lk);
      var v := DecideFragment(probe, lk);
      match v {
        case Skip =>
        case Review(r, g) =>
          review := review + [ReviewEntry(f.page, f.context, g, r)];
        case Accept(t, a) =>
          additions := additions + [OcrQuestion(nextId, f.page, f.context, t, a)];
          existing := existing + {f.context};
          nextId := nextId + 1;
      }
      i := i + 1;
    }
    assert fs[..i] == fs;
    s := LadderState(existing, nextId, additions, review);
  }

  // ----- what the ladder promises -----

  /** The contexts of the questions, in a set. */
  function ContextsOf(qs: seq<Question>): set<string>
  {
    if qs == [] then {} else ContextsOf(qs[..|qs| - 1]) + {qs[|qs| - 1].context}
  }

  lemma {:induction false} ContextsOfMembers(qs: seq<Question>, k: nat)
    requires k < |qs|
    ensures qs[k].context in ContextsOf(qs)
  {
    if k < |qs| - 1 {
      assert qs[..|qs| - 1][k] == qs[k];
      ContextsOfMembers(qs[..|qs| - 1], k);
    }
  }

  /** What an imported question numbered `n` satisfies: a two-point
      writing question with the fixed prompt, a context not among
      `existing`, a non-empty target and an answer within the grade. */
  predicate OcrAddition(q: Question, n: nat, existing: set<string>, lk: Lookups)
  {
    && q.id == FormatId("w", n) && q.tag == Writing && q.points == 2
    && q.question == OcrQuestionText && q.context !in existing
    && q.target != "" && q.answer != "" && AnswerIsWithinGrade(q.answer, lk.allowed)
  }

  /** The imports are numbered on from `start`, each satisfies
      `OcrAddition`, and none shares its context with an earlier one. */
  predicate OcrAdditions(adds: seq<Question>, start: nat, existing: set<string>, lk: Lookups)
  {
    adds == [] ||
      var init, q := adds[..|adds| - 1], adds[|adds| - 1];
      OcrAdditions(init, start, existing, lk) && OcrAddition(q, start + |init|, existing, lk) && q.context !in ContextsOf(init)
  }

  /** Every import satisfies `OcrAddition` with its own number. */
  lemma {:induction false} OcrAdditionAt(adds: seq<Question>, start: nat, existing: set<string>, lk: Lookups, k: nat)
    requires OcrAdditions(adds, start, existing, lk) && k < |adds|
    ensures OcrAddition(adds[k], start + k, existing, lk)
  {
    if k < |adds| - 1 {
      var init := adds[..|adds| - 1];
      OcrAdditionAt(init, start, existing, lk, k);
      assert init[k] == adds[k];
    }
  }

  /** No two imports share a context. */
  lemma {:induction false} OcrAdditionsDistinct(adds: seq<Question>, start: nat, existing: set<string>, lk: Lookups, k: nat, l: nat)
    requires OcrAdditions(adds, start, existing, lk) && k < l < |adds|
    ensures adds[k].context != adds[l].context
  {
    var init := adds[..|adds| - 1];
    assert adds[k] == init[k];
    if l == |init| {
      ContextsOfMembers(init, k);
    } else {
      assert adds[l] == init[l];
      OcrAdditionsDistinct(init, start, existing, lk, k, l);
    }
  }

  /** What the ladder keeps true from its start state `s0` on. */
  predicate LadderInv(s0: LadderState, s: LadderState, lk: Lookups)
  {
    && s.nextId == s0.nextId + |s.additions|
    && OcrAdditions(s.additions, s0.nextId, s0.existing, lk)
    && s.existing == s0.existing + ContextsOf(s.additions)
    && |s0.review| <= |s.review| && s.review[..|s0.review|] == s0.review
  }

  /** An accepting verdict is for a context not yet known, with a non-empty
      target and a non-empty answer within the grade. */
  predicate SoundVerdict(v: Verdict, context: string, existing: set<string>, lk: Lookups)
  {
    v.Accept? ==> context !in existing && v.target != "" && v.answer != "" && AnswerIsWithinGrade(v.answer, lk.allowed)
  }

  lemma DecideSound(context: string, existing: set<string>, lk: Lookups)
    ensures SoundVerdict(Decide(ProbeOf(context, existing, lk), lk), context, existing, lk)
  {
    DecideAccepts(ProbeOf(context, existing, lk), lk);
  }

  /** A sound verdict keeps the invariant, and each fragment adds at most
      one import or one review entry. */
  lemma ApplyKeeps(s0: LadderState, s: LadderState, f: Fragment, v: Verdict, lk: Lookups)
    requires s0.additions == [] && LadderInv(s0, s, lk) && SoundVerdict(v, f.context, s.existing, lk)
    ensures LadderInv(s0, Apply(s, f, v), lk)
    ensures |Apply(s, f, v).additions| + |Apply(s, f, v).review| <= |s.additions| + |s.review| + 1
  {
    match v
    case Skip =>
    case Review(r, g) =>
      ReviewKeeps(s0, s, ReviewEntry(f.page, f.context, g, r), lk);
    case Accept(t, a) =>
      var q := OcrQuestion(s.nextId, f.page, f.context, t, a);
      OcrQuestionIsAddition(s.nextId, f.page, f.context, t, a, s.existing, lk);
      AcceptKeeps(s0, s, q, lk);
  }

  lemma ReviewKeeps(s0: LadderState, s: LadderState, e: ReviewEntry, lk: Lookups)
    requires LadderInv(s0, s, lk)
    ensures LadderInv(s0, s.(review := s.review + [e]), lk)
  {
    var r := s.review + [e];
    assert r[..|s.review|] == s.review;
    assert s.review[..|s0.review|] == s0.review;
    assert r[..|s0.review|] == s0.review;
  }

  lemma AcceptKeeps(s0: LadderState, s: LadderState, q: Question, lk: Lookups)
    requires s0.additions == [] && LadderInv(s0, s, lk) && OcrAddition(q, s.nextId, s.existing, lk)
    ensures LadderInv(s0, LadderState(s.existing + {q.context}, s.nextId + 1, s.additions + [q], s.review), lk)
  {
    var adds := s.additions + [q];
    AppendAddition(s.additions, q, s0.nextId, s0.existing, lk);
    assert adds[..|adds| - 1] == s.additions;
    assert ContextsOf(adds) == ContextsOf(s.additions) + {q.context};
  }

  lemma OcrQuestionIsAddition(n: nat, page: nat, context: string, t: string, a: string, existing: set<string>, lk: Lookups)
    requires context !in existing && t != "" && a != "" && AnswerIsWithinGrade(a, lk.allowed)
    ensures OcrQuestion(n, page, context, t, a).context == context
    ensures OcrAddition(OcrQuestion(n, page, context, t, a), n, existing, lk)
  {
  }

  lemma AppendAddition(adds: seq<Question>, q: Question, start: nat, existing: set<string>, lk: Lookups)
    requires OcrAdditions(adds, start, existing, lk)
    requires OcrAddition(q, start + |adds|, existing, lk) && q.context !in ContextsOf(adds)
    ensures OcrAdditions(adds + [q], start, existing, lk)
  {
    var r := adds + [q];
    assert r[..|r| - 1] == adds;
  }

  /** The ladder numbers its imports consecutively from the start id, adds
      each import's context to the known ones and nothing else, keeps the
      review entries it had, and gives each fragment at most one outcome. */
  lemma {:induction false} LadderFacts(s0: LadderState, fs: seq<Fragment>, lk: Lookups)
    requires s0.additions == []
    ensures LadderInv(s0, Ladder(s0, fs, lk), lk)
    ensures |Ladder(s0, fs, lk).additions| + |Ladder(s0, fs, lk).review| <= |s0.review| + |fs|
  {
    if fs != [] {
      var prev := Ladder(s0, fs[..|fs| - 1], lk);
      LadderFacts(s0, fs[..|fs| - 1], lk);
      var f := fs[|fs| - 1];
      DecideSound(f.context, prev.existing, lk);
      ApplyKeeps(s0, prev, f, Decide(ProbeOf(f.context, prev.existing, lk), lk), lk);
    }
  }

  // ----- the script -----

  /** The contexts of the bank's writing questions after `normalizeContext`. */
  function ExistingContexts(qs: seq<Question>, normalize: string -> string): set<string>
  {
    if qs == [] then {}
    else
      var q := qs[|qs| - 1];
      ExistingContexts(qs[..|qs| - 1], normalize) + (if q.tag == Writing then {normalize(q.context)} else {})
  }

  /** A context is known exactly when some writing question normalises to it. */
  lemma {:induction false} ExistingContextsMembers(qs: seq<Question>, normalize: string -> string, c: string)
    ensures c in ExistingContexts(qs, normalize) <==>
      exists i | 0 <= i < |qs| :: qs[i].tag == Writing && normalize(qs[i].context) == c
  {
    if qs != [] {
      var init := qs[..|qs| - 1];
      ExistingContextsMembers(init, normalize, c);
      if c in ExistingContexts(init, normalize) {
        var i :| 0 <= i < |init| && init[i].tag == Writing && normalize(init[i].context) == c;
        assert qs[i] == init[i];
      }
      if exists i | 0 <= i < |qs| :: qs[i].tag == Writing && normalize(qs[i].context) == c {
        var i :| 0 <= i < |qs| && qs[i].tag == Writing && normalize(qs[i].context) == c;
        if i < |init| {
          assert init[i] == qs[i];
        }
      }
    }
  }

  method BuildExistingContexts(qs: seq<Question>, normalize: string -> string) returns (out: set<string>)
    ensures out == ExistingContexts(qs, normalize)
  {
    out := {};
    var i := 0;
    while i < |qs|
      invariant 0 <= i <= |qs|
      invariant out == ExistingContexts(qs[..i], normalize)
    {
      assert qs[..i + 1][..i] == qs[..i];
      if qs[i].tag == Writing {
        out := out + {normalize(qs[i].context)};
      }
      i := i + 1;
    }
    assert qs[..i] == qs;
  }

  /** The lookups of `main`: the target map with the manual table set into
      it, the context map filed under `normalizeContextKey`, and the
      allowed kanji of the grades up to `maxGrade`. */
  function OcrLookups(qs: seq<Question>, rows: seq<GradeRow>, maxGrade: real, manual: seq<Slot<string>>,
                      overrides: map<string, TargetAnswer>, noise: string -> bool): Lookups
  {
    Lookups(PutAll(TargetAnswerMap(qs), manual), manual, ContextAnswerMap(qs, NormalizeContextKey),
            AllowedKanji(rows, maxGrade), overrides, noise, NormalizeContextKey)
  }

  /** What the script writes: the sorted bank and the review list. */
  datatype ImportResult = ImportResult(bank: seq<Question>, review: seq<ReviewEntry>)

  /** The state the ladder starts from. */
  function StartState(qs: seq<Question>, normalize: string -> string): LadderState
  {
    LadderState(ExistingContexts(qs, normalize), NextId(qs, Writing, "w"), [], [])
  }

  /** `main` on the OCR markdown, the bank and the grade table. */
  function ImportedBank(ocr: string, qs: seq<Question>, rows: seq<GradeRow>, maxGrade: real, pageStart: int, pageEnd: int,
                        clean: Cleanup, manual: seq<Slot<string>>, overrides: map<string, TargetAnswer>,
                        localeLe: (string, string) -> bool): ImportResult
  {
    var lk := OcrLookups(qs, rows, maxGrade, manual, overrides, clean.noise);
    var fs := Fragments(PagesOf(Split(ocr, '\n'), PageHeader), pageStart, pageEnd, clean);
    var s := Ladder(StartState(qs, clean.normalize), fs, lk);
    ImportResult(SortBy(qs + s.additions, BankOrder(localeLe)), s.review)
  }

  method ImportOcrWriting(ocr: string, qs: seq<Question>, rows: seq<GradeRow>, maxGrade: real, pageStart: int, pageEnd: int,
                          clean: Cleanup, manual: seq<Slot<string>>, overrides: map<string, TargetAnswer>,
                          localeLe: (string, string) -> bool) returns (r: ImportResult)
    ensures r == ImportedBank(ocr, qs, rows, maxGrade, pageStart, pageEnd, clean, manual, overrides, localeLe)
  {
    var allowed := BuildAllowedKanjiSet(rows, maxGrade);
    var targets := BuildTargetAnswerMap(qs);
    var contexts := BuildContextAnswerMap(qs);
    ghost var scanned := targets;
    var i := 0;
    while i < |manual|
      invariant 0 <= i <= |manual|
      invariant targets == PutAll(scanned, manual[..i])
    {
      assert manual[..i + 1][..i] == manual[..i];
      targets := Put(targets, manual[i].key, manual[i].value);
      i := i + 1;
    }
    assert manual[..i] == manual;
    var lk := Lookups(targets, manual, contexts, allowed, overrides, clean.noise, NormalizeContextKey);
    var existing := BuildExistingContexts(qs, clean.normalize);
    var pages := ParsePages(ocr);
    var fs := CollectFragments(pages, pageStart, pageEnd, clean);
    var s := RunLadder(LadderState(existing, NextId(qs, Writing, "w"), [], []), fs, lk);
    var bank := SortQuestions(qs + s.additions, localeLe);
    r := ImportResult(bank, s.review);
  }

  /** Sorting the bank with imports numbered on from the next free writing
      id keeps every question, orders them by tag, and gives no import the
      id of an old writing question. */
  lemma ImportedBankOrder(qs: seq<Question>, adds: seq<Question>, existing: set<string>, lk: Lookups,
                          localeLe: (string, string) -> bool)
    requires TotalPreorder(localeLe) && OcrAdditions(adds, NextId(qs, Writing, "w"), existing, lk)
    ensures var bank := SortBy(qs + adds, BankOrder(localeLe));
      && multiset(bank) == multiset(qs + adds)
      && (forall i, j | 0 <= i < j < |bank| :: TagRank(bank[i].tag) <= TagRank(bank[j].tag))
      && (forall k, j | 0 <= k < |adds| && 0 <= j < |qs| && qs[j].tag == Writing :: qs[j].id != adds[k].id)
  {
    var start := NextId(qs, Writing, "w");
    SortedBank(qs + adds, localeLe);
    forall k | 0 <= k < |adds|
      ensures adds[k].id == IdMaker("w")(start + k)
    {
      OcrAdditionAt(adds, start, existing, lk, k);
    }
    NumberedIdsFresh(qs, Writing, "w", adds, start);
  }

  /** The bank after the import holds the old questions and the imports,
      ordered by tag; the imports are numbered from the next free writing
      id, so no id collides with an old writing question, none repeats the
      context of an old writing question or of another import, and each
      fragment gives at most one import or one review entry. */
  lemma ImportFacts(ocr: string, qs: seq<Question>, rows: seq<GradeRow>, maxGrade: real, pageStart: int, pageEnd: int,
                    clean: Cleanup, manual: seq<Slot<string>>, overrides: map<string, TargetAnswer>,
                    localeLe: (string, string) -> bool)
    requires TotalPreorder(localeLe)
    ensures var lk := OcrLookups(qs, rows, maxGrade, manual, overrides, clean.noise);
      var fs := Fragments(PagesOf(Split(ocr, '\n'), PageHeader), pageStart, pageEnd, clean);
      var adds := Ladder(StartState(qs, clean.normalize), fs, lk).additions;
      var r := ImportedBank(ocr, qs, rows, maxGrade, pageStart, pageEnd, clean, manual, overrides, localeLe);
      && multiset(r.bank) == multiset(qs + adds)
      && (forall i, j | 0 <= i < j < |r.bank| :: TagRank(r.bank[i].tag) <= TagRank(r.bank[j].tag))
      && OcrAdditions(adds, NextId(qs, Writing, "w"), ExistingContexts(qs, clean.normalize), lk)
      && (forall k, j | 0 <= k < |adds| && 0 <= j < |qs| && qs[j].tag == Writing :: qs[j].id != adds[k].id)
      && |adds| + |r.review| <= |fs|
  {
    var lk := OcrLookups(qs, rows, maxGrade, manual, overrides, clean.noise);
    var fs := Fragments(PagesOf(Split(ocr, '\n'), PageHeader), pageStart, pageEnd, clean);
    var s0 := StartState(qs, clean.normalize);
    LadderFacts(s0, fs, lk);
    ImportedBankOrder(qs, Ladder(s0, fs, lk).additions, s0.existing, lk, localeLe);
  }
}
