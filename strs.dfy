/** The JavaScript string operations the bank scripts use, on `seq<char>`:
    whitespace trimming, `startsWith`, `indexOf`/`includes`, `replace` with a
    plain-text pattern, `split`/`join` on one separator character,
    `padStart`, and the character classes the scripts test with regular
    expressions. Every script works on text in the Basic Multilingual Plane,
    where a JavaScript string index and a character index agree. */
module Strs {
  import opened Types

  /** A character `\s` matches and `trim` removes. */
  predicate IsSpace(c: char)
  {
    || c == ' ' || c == '\t' || c == '\n' || c == '\r' || c == '\U{000B}' || c == '\U{000C}'
    || c == '\U{00A0}' || c == '\U{1680}' || ('\U{2000}' <= c <= '\U{200A}')
    || c == '\U{2028}' || c == '\U{2029}' || c == '\U{202F}' || c == '\U{205F}'
    || c == '\U{3000}' || c == '\U{FEFF}'
  }

  /** A character that ends a line for `.` in a regular expression. */
  predicate IsLineTerminator(c: char)
  {
    c == '\n' || c == '\r' || c == '\U{2028}' || c == '\U{2029}'
  }

  /** `[ァ-ヶ]` */
  predicate IsKatakana(c: char)
  {
    'ァ' <= c <= 'ヶ'
  }

  /** `[ぁ-ゖー]` */
  predicate IsReadingChar(c: char)
  {
    ('ぁ' <= c <= 'ゖ') || c == 'ー'
  }

  /** `[一-龯々〆ヶ]` */
  predicate IsKanjiChar(c: char)
  {
    ('一' <= c <= '龯') || c == '々' || c == '〆' || c == 'ヶ'
  }

  /** `\d` */
  predicate IsDigit(c: char)
  {
    '0' <= c <= '9'
  }

  predicate HasKatakana(s: string)
  {
    exists i | 0 <= i < |s| :: IsKatakana(s[i])
  }

  /** `/^[ぁ-ゖー]{1,12}$/.test(s)` */
  predicate IsReading(s: string)
  {
    1 <= |s| <= 12 && forall i | 0 <= i < |s| :: IsReadingChar(s[i])
  }

  /** `s.trimStart()`: drops the longest run of leading whitespace. */
  function TrimStart(s: string): (r: string)
    ensures |r| <= |s| && r == s[|s| - |r|..]
    ensures r == [] || !IsSpace(r[0])
    ensures forall k | 0 <= k < |s| - |r| :: IsSpace(s[k])
  {
    if s == [] || !IsSpace(s[0]) then s else TrimStart(s[1..])
  }

  /** `s.trimEnd()`: drops the longest run of trailing whitespace. */
  function TrimEnd(s: string): (r: string)
    ensures |r| <= |s| && r == s[..|r|]
    ensures r == [] || !IsSpace(r[|r| - 1])
    ensures forall k | |r| <= k < |s| :: IsSpace(s[k])
  {
    if s == [] || !IsSpace(s[|s| - 1]) then s else TrimEnd(s[..|s| - 1])
  }

  /** `s.trim()` */
  function Trim(s: string): string
  {
    TrimEnd(TrimStart(s))
  }

  /** Trimming twice trims no more than trimming once, and a trimmed text
      starts and ends with a non-space character. */
  lemma TrimIdempotent(s: string)
    ensures Trim(Trim(s)) == Trim(s)
    ensures Trim(s) == [] || (!IsSpace(Trim(s)[0]) && !IsSpace(Trim(s)[|Trim(s)| - 1]))
  {
    var t := TrimStart(s);
    var r := TrimEnd(t);
    assert r == [] || r[0] == t[0];
    assert TrimStart(r) == r;
  }

  /** A text with no whitespace is its own trim. */
  lemma {:induction false} TrimNoSpace(s: string)
    requires forall i | 0 <= i < |s| :: !IsSpace(s[i])
    ensures Trim(s) == s
  {
  }

  predicate StartsWith(s: string, p: string)
  {
    |p| <= |s| && s[..|p|] == p
  }

  predicate OccursAt(s: string, p: string, i: int)
  {
    0 <= i && i + |p| <= |s| && s[i..i + |p|] == p
  }

  /** `s.indexOf(p, from)` as an option: the first place at or after `from`
      where `p` occurs. */
  function FindFrom(s: string, p: string, from: nat): (r: Option<nat>)
    ensures r.Some? ==> from <= r.value && OccursAt(s, p, r.value)
    ensures r.Some? ==> forall k | from <= k < r.value :: !OccursAt(s, p, k)
    ensures r.None? ==> forall k | from <= k :: !OccursAt(s, p, k)
    decreases |s| - from
  {
    if from + |p| > |s| then None
    else if s[from..from + |p|] == p then Some(from)
    else FindFrom(s, p, from + 1)
  }

  /** `s.indexOf(p)`, with `None` for -1. */
  function FindFirst(s: string, p: string): (r: Option<nat>)
    ensures r.Some? ==> OccursAt(s, p, r.value) && forall k | 0 <= k < r.value :: !OccursAt(s, p, k)
    ensures r.None? <==> forall k :: !OccursAt(s, p, k)
  {
    FindFrom(s, p, 0)
  }

  /** `s.includes(p)` */
  predicate Contains(s: string, p: string)
  {
    FindFirst(s, p).Some?
  }

  /** `s.replace(p, rep)` with a plain-text pattern: only the first
      occurrence is replaced. */
  function ReplaceFirst(s: string, p: string, rep: string): string
  {
    match FindFirst(s, p)
    case None => s
    case Some(i) => s[..i] + rep + s[i + |p|..]
  }

  /** Replacing the first occurrence of `p` keeps the text before it and the
      text after it; without an occurrence nothing changes. */
  lemma ReplaceFirstParts(s: string, p: string, rep: string)
    ensures !Contains(s, p) ==> ReplaceFirst(s, p, rep) == s
    ensures Contains(s, p) ==>
      var i := FindFirst(s, p).value;
      && ReplaceFirst(s, p, rep)[..i] == s[..i]
      && ReplaceFirst(s, p, rep)[i..i + |rep|] == rep
      && ReplaceFirst(s, p, rep)[i + |rep|..] == s[i + |p|..]
      && |ReplaceFirst(s, p, rep)| == |s| - |p| + |rep|
  {
  }

  /** `s.replace(/p/g, '')` for a non-empty literal `p`: removes the
      occurrences found left to right. */
  function RemoveAll(s: string, p: string): (r: string)
    requires |p| > 0
    ensures |r| <= |s|
    decreases |s|
  {
    match FindFirst(s, p)
    case None => s
    case Some(i) => s[..i] + RemoveAll(s[i + |p|..], p)
  }

  /** A text without the first character of `p`, followed by `p`, loses
      exactly that final `p`. */
  lemma RemoveTrailingMarker(x: string, p: string)
    requires |p| > 0 && forall k | 0 <= k < |x| :: x[k] != p[0]
    ensures RemoveAll(x + p, p) == x
  {
    var s := x + p;
    MarkerFirstAt(x, p);
    var rest := s[|x| + |p|..];
    assert rest == [];
    assert FindFirst(rest, p) == None;
    assert RemoveAll(s, p) == s[..|x|] + RemoveAll(rest, p);
    assert s[..|x|] == x;
  }

  /** In such a text followed by `p`, the first `p` is the final one. */
  lemma MarkerFirstAt(x: string, p: string)
    requires |p| > 0 && forall k | 0 <= k < |x| :: x[k] != p[0]
    ensures FindFirst(x + p, p) == Some(|x|)
  {
    var s := x + p;
    assert s[|x|..|x| + |p|] == p;
    assert OccursAt(s, p, |x|);
    forall k | 0 <= k < |x|
      ensures !OccursAt(s, p, k)
    {
      if k + |p| <= |s| {
        assert s[k..k + |p|][0] == s[k] == x[k];
      }
    }
  }

  /** A text without the first character of `p` does not contain `p`. */
  lemma NotContains(x: string, p: string)
    requires |p| > 0 && forall k | 0 <= k < |x| :: x[k] != p[0]
    ensures !Contains(x, p)
  {
    forall k
      ensures !OccursAt(x, p, k)
    {
      if 0 <= k && k + |p| <= |x| {
        assert x[k..k + |p|][0] == x[k];
      }
    }
  }

  /** `s.split(sep)` for a one-character separator: the pieces between the
      separators, always at least one. */
  function Split(s: string, sep: char): (r: seq<string>)
    ensures |r| >= 1
  {
    if s == [] then [""]
    else
      var parts := Split(s[..|s| - 1], sep);
      if s[|s| - 1] == sep then parts + [""]
      else parts[..|parts| - 1] + [parts[|parts| - 1] + [s[|s| - 1]]]
  }

  /** `parts.join(sep)` */
  function Join(parts: seq<string>, sep: char): string
  {
    if parts == [] then ""
    else if |parts| == 1 then parts[0]
    else Join(parts[..|parts| - 1], sep) + [sep] + parts[|parts| - 1]
  }

  predicate NoChar(s: string, c: char)
  {
    forall k | 0 <= k < |s| :: s[k] != c
  }

  predicate EachNoChar(parts: seq<string>, c: char)
  {
    forall i | 0 <= i < |parts| :: NoChar(parts[i], c)
  }

  /** Appending text without the separator extends the last piece. */
  lemma {:induction false} SplitAppend(x: string, p: string, sep: char)
    requires NoChar(p, sep)
    ensures var a := Split(x, sep);
      Split(x + p, sep) == a[..|a| - 1] + [a[|a| - 1] + p]
    decreases |p|
  {
    var a := Split(x, sep);
    if p == [] {
      assert x + p == x;
      assert a[|a| - 1] + p == a[|a| - 1];
      assert a[..|a| - 1] + [a[|a| - 1]] == a;
    } else {
      var q := p[..|p| - 1];
      var c := p[|p| - 1];
      assert q + [c] == p;
      assert x + q + [c] == x + p;
      SplitAppend(x, q, sep);
      SplitStep(x + q, c, sep);
      ExtendLast(a, q, c);
    }
  }

  /** A character other than the separator extends the last piece. */
  lemma SplitStep(y: string, c: char, sep: char)
    requires c != sep
    ensures var parts := Split(y, sep);
      Split(y + [c], sep) == parts[..|parts| - 1] + [parts[|parts| - 1] + [c]]
  {
    assert (y + [c])[..|y|] == y;
  }

  lemma ExtendLast(a: seq<string>, q: string, c: char)
    requires |a| >= 1
    ensures var parts := a[..|a| - 1] + [a[|a| - 1] + q];
      parts[..|parts| - 1] + [parts[|parts| - 1] + [c]] == a[..|a| - 1] + [a[|a| - 1] + (q + [c])]
  {
    var parts := a[..|a| - 1] + [a[|a| - 1] + q];
    assert parts[..|parts| - 1] == a[..|a| - 1];
    assert a[|a| - 1] + q + [c] == a[|a| - 1] + (q + [c]);
  }

  /** Replacing `rep` back by `p` in what the first replacement of `p` at
      `i` left gives the text back, when the text before `i` does not hold
      the first character of `rep`. */
  lemma ReplaceBack(s: string, p: string, rep: string, c: string, i: nat)
    requires OccursAt(s, p, i) && 0 < |rep| && forall k | 0 <= k < i :: s[k] != rep[0]
    requires |c| == |s| - |p| + |rep| && c[..i] == s[..i] && c[i..i + |rep|] == rep && c[i + |rep|..] == s[i + |p|..]
    ensures FindFirst(c, rep) == Some(i) && ReplaceFirst(c, rep, p) == s
  {
    assert OccursAt(c, rep, i);
    forall k | 0 <= k < i ensures !OccursAt(c, rep, k) {
      assert c[k] == c[..i][k] == s[..i][k] == s[k];
      if k + |rep| <= |c| {
        assert c[k..k + |rep|][0] == c[k];
      }
    }
    assert c[..i] + p + c[i + |rep|..] == s by {
      assert s == s[..i] + s[i..i + |p|] + s[i + |p|..];
    }
  }

  /** Splitting a join gives the pieces back when none holds the separator. */
  lemma {:induction false} SplitJoin(parts: seq<string>, sep: char)
    requires |parts| >= 1 && EachNoChar(parts, sep)
    ensures Split(Join(parts, sep), sep) == parts
  {
    if |parts| == 1 {
      SplitAppend("", parts[0], sep);
      assert "" + parts[0] == parts[0];
    } else {
      var init := parts[..|parts| - 1];
      var last := parts[|parts| - 1];
      assert init + [last] == parts;
      assert EachNoChar(init, sep) by {
        forall i | 0 <= i < |init| ensures NoChar(init[i], sep) {
          assert init[i] == parts[i];
        }
      }
      SplitJoin(init, sep);
      SplitJoinStep(init, last, sep);
    }
  }

  /** One more piece after a separator becomes one more part. */
  lemma SplitJoinStep(init: seq<string>, last: string, sep: char)
    requires Split(Join(init, sep), sep) == init && NoChar(last, sep)
    ensures Split(Join(init, sep) + [sep] + last, sep) == init + [last]
  {
    var y := Join(init, sep);
    var x := y + [sep];
    assert x[..|y|] == y;
    assert Split(x, sep) == init + [""];
    SplitAppend(x, last, sep);
    assert (init + [""])[..|init|] == init;
    assert "" + last == last;
  }

  /** Joining pieces without `c` gives a text without `c`, when `c` is not
      the separator. */
  lemma {:induction false} JoinNoChar(parts: seq<string>, sep: char, c: char)
    requires EachNoChar(parts, c) && sep != c
    ensures NoChar(Join(parts, sep), c)
  {
    if |parts| > 1 {
      var init := parts[..|parts| - 1];
      assert EachNoChar(init, c) by {
        forall i | 0 <= i < |init| ensures NoChar(init[i], c) {
          assert init[i] == parts[i];
        }
      }
      JoinNoChar(init, sep, c);
      assert NoChar(parts[|parts| - 1], c);
    }
  }

  predicate IsNonEmpty(s: string)
  {
    |s| > 0
  }

  /** `s.split(sep).filter(Boolean)`: the non-empty pieces. */
  function Pieces(s: string, sep: char): (r: seq<string>)
    ensures forall i | 0 <= i < |r| :: |r[i]| > 0
  {
    NonEmpty(Split(s, sep))
  }

  function NonEmpty(parts: seq<string>): (r: seq<string>)
    ensures forall i | 0 <= i < |r| :: |r[i]| > 0
    ensures |r| <= |parts|
  {
    if parts == [] then []
    else if parts[0] == "" then NonEmpty(parts[1..])
    else [parts[0]] + NonEmpty(parts[1..])
  }

  /** Dropping empty pieces keeps a list whose pieces are all non-empty. */
  lemma {:induction false} NonEmptyKeeps(parts: seq<string>)
    requires forall i | 0 <= i < |parts| :: |parts[i]| > 0
    ensures NonEmpty(parts) == parts
  {
    if parts != [] {
      NonEmptyKeeps(parts[1..]);
    }
  }

  /** `s.padStart(n, c)` */
  function PadStart(s: string, n: nat, c: char): (r: string)
    ensures |r| == if |s| >= n then |s| else n
    ensures r[|r| - |s|..] == s
    ensures forall k | 0 <= k < |r| - |s| :: r[k] == c
  {
    if |s| >= n then s else seq(n - |s|, _ => c) + s
  }

  lemma PadStartShape(s: string, n: nat, c: char)
    ensures PadStart(s, n, c) == seq(|PadStart(s, n, c)| - |s|, _ => c) + s
  {
    var r := PadStart(s, n, c);
    assert r == r[..|r| - |s|] + r[|r| - |s|..];
  }

  /** `[...s].filter(ch => !drop(ch)).join('')`: the characters that
      `drop` does not match, in order. */
  function Strip(s: string, drop: char -> bool): (r: string)
    ensures |r| <= |s|
    ensures forall k | 0 <= k < |r| :: !drop(r[k])
  {
    if s == [] then []
    else Strip(s[..|s| - 1], drop) + (if drop(s[|s| - 1]) then [] else [s[|s| - 1]])
  }

  /** Stripping keeps every character `drop` does not match, and stripping a
      stripped text changes nothing. */
  lemma {:induction false} StripIdempotent(s: string, drop: char -> bool)
    ensures Strip(Strip(s, drop), drop) == Strip(s, drop)
  {
    if s != [] {
      var init := Strip(s[..|s| - 1], drop);
      StripIdempotent(s[..|s| - 1], drop);
      if drop(s[|s| - 1]) {
        assert Strip(s, drop) == init + [];
        assert init + [] == init;
      } else {
        var r := init + [s[|s| - 1]];
        assert r[..|r| - 1] == init;
      }
    }
  }

  /** Stripping a concatenation strips each part. */
  lemma {:induction false} StripAppend(a: string, b: string, drop: char -> bool)
    ensures Strip(a + b, drop) == Strip(a, drop) + Strip(b, drop)
  {
    if b == [] {
      assert a + b == a;
    } else {
      var init := b[..|b| - 1];
      assert (a + b)[..|a + b| - 1] == a + init;
      assert (a + b)[|a + b| - 1] == b[|b| - 1];
      StripAppend(a, init, drop);
    }
  }

  /** A character the strip keeps stays; one it drops is gone. */
  lemma {:induction false} StripMembers(s: string, drop: char -> bool, c: char)
    ensures c in Strip(s, drop) <==> c in s && !drop(c)
  {
    if s != [] {
      StripMembers(s[..|s| - 1], drop, c);
      assert s == s[..|s| - 1] + [s[|s| - 1]];
    }
  }
}
