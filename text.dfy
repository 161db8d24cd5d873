/** The string operations the stages apply to model output and drafts:
    Python's `strip`, `lower`, `in`, `split`, `count`, `startswith`, the
    word-token regex, and the code-fence extraction idiom that five stages
    repeat before calling `json.loads`. */
module Text {
  import opened Wrappers

  /** `str.isspace()` for one character (Python's Unicode whitespace set). */
  predicate IsSpace(c: char) {
    || c == ' '
    || ('\U{9}' <= c <= '\U{D}')
    || ('\U{1C}' <= c <= '\U{1F}')
    || c == '\U{85}' || c == '\U{A0}' || c == '\U{1680}'
    || ('\U{2000}' <= c <= '\U{200A}')
    || c == '\U{2028}' || c == '\U{2029}' || c == '\U{202F}' || c == '\U{205F}' || c == '\U{3000}'
  }

  /** A regex word character `\w`, restricted to ASCII. */
  predicate IsWordChar(c: char) {
    ('a' <= c <= 'z') || ('A' <= c <= 'Z') || ('0' <= c <= '9') || c == '_'
  }

  function LowerChar(c: char): char {
    if 'A' <= c <= 'Z' then (c as int + 32) as char else c
  }

  /** `str.lower()`, restricted to ASCII letters. */
  function Lower(s: string): (r: string)
    ensures |r| == |s|
    ensures forall i :: 0 <= i < |s| ==> r[i] == LowerChar(s[i])
  {
    seq(|s|, i requires 0 <= i < |s| => LowerChar(s[i]))
  }

  // ---------------------------------------------------------------- strip

  function TrimLeft(s: string): (r: string)
    ensures |r| <= |s| && r == s[|s| - |r|..]
    ensures forall k :: 0 <= k < |s| - |r| ==> IsSpace(s[k])
    ensures r == [] || !IsSpace(r[0])
  {
    if s != [] && IsSpace(s[0]) then TrimLeft(s[1..]) else s
  }

  function TrimRight(s: string): (r: string)
    ensures |r| <= |s| && r == s[..|r|]
    ensures forall k :: |r| <= k < |s| ==> IsSpace(s[k])
    ensures r == [] || !IsSpace(r[|r| - 1])
  {
    if s != [] && IsSpace(s[|s| - 1]) then TrimRight(s[..|s| - 1]) else s
  }

  /** `str.strip()`: the text between the leading and the trailing run of
      whitespace. */
  function Strip(s: string): (r: string)
    ensures r == [] || (!IsSpace(r[0]) && !IsSpace(r[|r| - 1]))
  {
    TrimRight(TrimLeft(s))
  }

  /** A text with no whitespace at either end is left as it is. */
  lemma {:induction false} StripKeepsTrimmed(s: string)
    requires s == [] || (!IsSpace(s[0]) && !IsSpace(s[|s| - 1]))
    ensures Strip(s) == s
  {
  }

  // ------------------------------------------------------- find and split

  /** `sub` occurs in `s` at position `i`. */
  predicate OccursAt(s: string, sub: string, i: int) {
    0 <= i && i + |sub| <= |s| && s[i..i + |sub|] == sub
  }

  /** The first position at or after `from` where `sub` occurs
      (`str.find(sub, from)`, with None for -1). */
  function Find(s: string, sub: string, from: nat): (r: Option<nat>)
    ensures r.Some? ==> from <= r.value && OccursAt(s, sub, r.value)
    ensures r.Some? ==> forall j :: from <= j < r.value ==> !OccursAt(s, sub, j)
    ensures r.None? ==> forall j :: from <= j ==> !OccursAt(s, sub, j)
    decreases |s| - from
  {
    if from + |sub| > |s| then None
    else if s[from..from + |sub|] == sub then Some(from)
    else Find(s, sub, from + 1)
  }

  /** Python's `sub in s`. */
  predicate Contains(s: string, sub: string) {
    Find(s, sub, 0).Some?
  }

  lemma ContainsIff(s: string, sub: string)
    ensures Contains(s, sub) <==> exists i :: OccursAt(s, sub, i)
  {
    if exists i :: OccursAt(s, sub, i) {
      var i :| OccursAt(s, sub, i);
      assert 0 <= i;
    }
  }

  /** Nothing before the first occurrence of `sub` contains `sub`. */
  lemma NoneBeforeFirst(s: string, sub: string, i: nat)
    requires sub != [] && Find(s, sub, 0) == Some(i)
    ensures i <= |s| && !Contains(s[..i], sub)
  {
    assert OccursAt(s, sub, i);
    forall j | 0 <= j ensures !OccursAt(s[..i], sub, j) {
      if j + |sub| <= i {
        assert !OccursAt(s, sub, j);
        assert s[..i][j..j + |sub|] == s[j..j + |sub|];
      }
    }
    ContainsIff(s[..i], sub);
  }

  /** `s.split(sep)[0]`: everything before the first `sep`. */
  function Before(s: string, sep: string): (r: string)
    requires sep != []
    ensures r <= s
    ensures !Contains(r, sep)
  {
    match Find(s, sep, 0)
    case Some(i) =>
      NoneBeforeFirst(s, sep, i);
      s[..i]
    case None =>
      s
  }

  /** `s.split(sep)[1]` when `sep in s`: the text between the first `sep`
      and the next one (or the end). */
  function SecondPiece(s: string, sep: string): (r: string)
    requires sep != [] && Contains(s, sep)
    ensures !Contains(r, sep)
  {
    var i := Find(s, sep, 0).value;
    Before(s[i + |sep|..], sep)
  }

  // ------------------------------------------------- code-fence extraction

  const Fence: string := "```"
  const JsonFence: string := "```json"

  /** The payload a stage hands to `json.loads`: the text inside the first
      "```json" fence, else inside the first bare fence, else the whole
      reply; then stripped. Written as the source writes it, with
      `split(...)[1].split("```")[0]`. */
  function ExtractPayload(text: string): string {
    Strip(FencedText(text))
  }

  /** The text `ExtractPayload` strips: the fenced part, or the whole reply. */
  function FencedText(text: string): string {
    if Contains(text, JsonFence) then Before(SecondPiece(text, JsonFence), Fence)
    else if Contains(text, Fence) then Before(SecondPiece(text, Fence), Fence)
    else text
  }

  predicate NoBacktick(s: string) {
    forall k :: 0 <= k < |s| ==> s[k] != '`'
  }

  lemma JsonFenceHasFence(s: string, i: int)
    requires OccursAt(s, JsonFence, i)
    ensures OccursAt(s, Fence, i)
  {
    assert s[i..i + 3] == s[i..i + 7][..3];
  }

  lemma NoBacktickNoFence(s: string, sub: string)
    requires NoBacktick(s) && sub != [] && sub[0] == '`'
    ensures !Contains(s, sub)
  {
    forall i | 0 <= i ensures !OccursAt(s, sub, i) {
      if i + |sub| <= |s| {
        assert s[i..i + |sub|][0] == s[i];
      }
    }
    ContainsIff(s, sub);
  }

  /** A reply without any fence is parsed whole, stripped. */
  lemma UnfencedPayload(text: string)
    requires !Contains(text, Fence)
    ensures ExtractPayload(text) == Strip(text)
  {
    if Contains(text, JsonFence) {
      JsonFenceHasFence(text, Find(text, JsonFence, 0).value);
      ContainsIff(text, Fence);
    }
  }

  /** In `inner + "```" + post`, when `inner` has no backtick and `post` does
      not start with one, no "```json" starts before position |inner|, so
      cutting at the first "```json" keeps all of `inner`. */
  lemma CutKeepsInner(inner: string, post: string)
    requires NoBacktick(inner) && (post == [] || post[0] != '`')
    ensures var x := inner + Fence + post;
            Find(x, Fence, 0) == Some(|inner|) &&
            Before(Before(x, JsonFence), Fence) == inner
  {
    var x := inner + Fence + post;
    BareFenceFirstAt(inner, post);
    NoJsonFenceInside(inner, post);
    var y := Before(x, JsonFence);
    match Find(x, JsonFence, 0)
    case None =>
      assert y == x;
    case Some(m) =>
      assert y == x[..m];
      if m < |inner| {
        JsonFenceHasFence(x, m);
        assert false;
      } else if m == |inner| {
        assert y == inner;
        NoBacktickNoFence(inner, Fence);
      } else if m <= |inner| + 2 {
        assert false;
      } else {
        FirstSurvivesCut(x, Fence, 0, |inner|, m);
      }
  }

  /** "```json" does not start one or two characters into the fence that
      follows `inner` when `post` does not start with a backtick. */
  lemma NoJsonFenceInside(inner: string, post: string)
    requires post == [] || post[0] != '`'
    ensures forall m :: |inner| < m <= |inner| + 2 ==> !OccursAt(inner + Fence + post, JsonFence, m)
  {
    var x := inner + Fence + post;
    forall m | |inner| < m <= |inner| + 2 ensures !OccursAt(x, JsonFence, m) {
      if m + 7 <= |x| {
        assert x[m..m + 7][|inner| + 3 - m] == x[|inner| + 3] == post[0];
      }
    }
  }

  /** Cutting a text after the first occurrence of `sub` keeps it first. */
  lemma {:induction false} FirstSurvivesCut(x: string, sub: string, from: nat, i: nat, m: nat)
    requires Find(x, sub, from) == Some(i) && i + |sub| <= m <= |x|
    ensures Find(x[..m], sub, from) == Some(i)
    decreases i - from
  {
    SliceOfPrefix(x, m, from, from + |sub|);
    if from < i {
      FirstSurvivesCut(x, sub, from + 1, i, m);
    }
  }

  lemma SliceOfPrefix(x: string, m: nat, a: nat, b: nat)
    requires a <= b <= m <= |x|
    ensures x[..m][a..b] == x[a..b]
  {
  }

  /** "```json" cannot start inside `pre` and run into the fence that
      follows it, because "```json" does not overlap itself. */
  lemma JsonFenceFirstAt(pre: string, rest: string)
    requires !Contains(pre, JsonFence)
    ensures Find(pre + JsonFence + rest, JsonFence, 0) == Some(|pre|)
  {
    var s := pre + JsonFence + rest;
    assert OccursAt(s, JsonFence, |pre|);
    assert Find(pre, JsonFence, 0).None?;
    forall j | 0 <= j < |pre| ensures !OccursAt(s, JsonFence, j) {
      if j + 7 <= |pre| {
        assert pre[j..j + 7] == s[j..j + 7];
        assert !OccursAt(pre, JsonFence, j);
      } else {
        var k := |pre| - j;
        if k <= 2 {
          assert s[j + 3] == s[|pre| + (3 - k)] == '`';
          assert s[j..j + 7][3] != JsonFence[3];
        } else {
          assert s[j + k] == '`';
          assert s[j..j + 7][k] != JsonFence[k];
        }
      }
    }
  }

  /** A payload wrapped in a "```json" fence comes back out, stripped, even
      when bare fences come before it: the json fence is preferred. */
  lemma JsonFencedPayload(pre: string, inner: string, post: string)
    requires !Contains(pre, JsonFence)
    requires NoBacktick(inner) && (post == [] || post[0] != '`')
    ensures ExtractPayload(pre + JsonFence + inner + Fence + post) == Strip(inner)
  {
    var text := pre + JsonFence + inner + Fence + post;
    assert text == pre + JsonFence + (inner + Fence + post);
    JsonFenceFirstAt(pre, inner + Fence + post);
    assert text[|pre| + 7..] == inner + Fence + post;
    CutKeepsInner(inner, post);
  }

  /** A bare fence after backtick-free text is the first fence. */
  lemma BareFenceFirstAt(pre: string, rest: string)
    requires NoBacktick(pre)
    ensures Find(pre + Fence + rest, Fence, 0) == Some(|pre|)
  {
    var text := pre + Fence + rest;
    assert OccursAt(text, Fence, |pre|);
    forall j | 0 <= j < |pre| ensures !OccursAt(text, Fence, j) {
      assert text[j] == pre[j];
      assert text[j] == text[j..j + 3][0];
    }
  }

  /** A payload in a bare fence comes back out, stripped, when the reply has
      no "```json" anywhere. */
  lemma BareFencedPayload(pre: string, inner: string, post: string)
    requires NoBacktick(pre) && NoBacktick(inner) && (post == [] || post[0] != '`')
    requires !Contains(pre + Fence + inner + Fence + post, JsonFence)
    ensures ExtractPayload(pre + Fence + inner + Fence + post) == Strip(inner)
  {
    var text := pre + Fence + inner + Fence + post;
    var x := inner + Fence + post;
    assert text == pre + Fence + x;
    BareFenceFirstAt(pre, x);
    assert text[|pre| + 3..] == x;
    CutKeepsInner(inner, post);
    assert SecondPiece(text, Fence) == inner;
    assert FencedText(text) == inner;
  }

  // ------------------------------------------------------------ chat prefix

  /** `s.split("\n", 1)[-1]`: everything after the first line break, or the
      whole text when it is a single line. */
  function AfterFirstLine(s: string): (r: string)
    ensures |r| <= |s| && r == s[|s| - |r|..]
    ensures !Contains(s, "\n") ==> r == s
    ensures Contains(s, "\n") ==>
              |r| < |s| && s[|s| - |r| - 1] == '\n' && !Contains(s[..|s| - |r| - 1], "\n")
  {
    match Find(s, "\n", 0)
    case Some(i) =>
      NoneBeforeFirst(s, "\n", i);
      assert s[..i] == s[..|s| - |s[i + 1..]| - 1];
      assert s[i..i + 1] == "\n";
      s[i + 1..]
    case None =>
      s
  }

  /** The "here is ..." preamble rule shared by the writer and the refiner:
      when the reply, stripped and lowercased, starts with "here is", its
      first line is dropped; a single-line reply is kept whole. */
  function StripChatPrefix(s: string): (r: string)
    ensures |r| <= |s| && r == s[|s| - |r|..]
    ensures !("here is" <= Lower(Strip(s))) ==> r == s
    ensures "here is" <= Lower(Strip(s)) ==> r == AfterFirstLine(s)
  {
    if "here is" <= Lower(Strip(s)) then AfterFirstLine(s) else s
  }

  /** The first `n` elements (`xs[:n]`), the whole sequence when shorter. */
  function Prefix<T>(xs: seq<T>, n: nat): (r: seq<T>)
    ensures |r| == if |xs| < n then |xs| else n
    ensures r <= xs
  {
    if |xs| <= n then xs else xs[..n]
  }

  /** The last `n` characters (`s[-n:]`), the whole text when shorter. */
  function Tail(s: string, n: nat): (r: string)
    ensures |r| == if |s| < n then |s| else n
    ensures r == s[|s| - |r|..]
  {
    if |s| <= n then s else s[|s| - n..]
  }

  // --------------------------------------------------------------- counting

  /** Start of a maximal run of word characters at position i. */
  predicate WordStart(s: string, i: int)
    requires 0 <= i < |s|
  {
    IsWordChar(s[i]) && (i == 0 || !IsWordChar(s[i - 1]))
  }

  /** Number of matches of `\b\w+\b`: the maximal runs of word
      characters. */
  function WordCount(s: string): nat {
    if s == [] then 0
    else WordCount(s[..|s| - 1]) + if WordStart(s, |s| - 1) then 1 else 0
  }

  /** A text has no word token exactly when it has no word character. */
  lemma {:induction false} WordCountZeroIff(s: string)
    ensures WordCount(s) == 0 <==> forall k :: 0 <= k < |s| ==> !IsWordChar(s[k])
  {
    if s != [] {
      var p := s[..|s| - 1];
      WordCountZeroIff(p);
      assert forall k :: 0 <= k < |p| ==> p[k] == s[k];
    }
  }

  /** Number of whitespace-separated fields: `len(s.split())`. */
  function FieldCount(s: string): nat {
    if s == [] then 0
    else FieldCount(s[..|s| - 1])
         + if !IsSpace(s[|s| - 1]) && (|s| == 1 || IsSpace(s[|s| - 2])) then 1 else 0
  }

  function CountFrom(s: string, sub: string, from: nat): (r: nat)
    requires sub != []
    decreases |s| - from
  {
    match Find(s, sub, from)
    case None => 0
    case Some(i) => 1 + CountFrom(s, sub, i + |sub|)
  }

  /** `s.count(sub)`: non-overlapping occurrences, scanned left to right; the
      empty string occurs |s| + 1 times. */
  function Count(s: string, sub: string): (r: nat)
    ensures r == 0 <==> !Contains(s, sub)
  {
    if sub == [] then |s| + 1 else CountFrom(s, sub, 0)
  }

  /** `sep.join(parts)`. */
  function Join(sep: string, parts: seq<string>): (r: string)
    ensures parts == [] ==> r == ""
    ensures |parts| > 0 ==> parts[0] <= r
    decreases |parts|
  {
    if parts == [] then ""
    else if |parts| == 1 then parts[0]
    else parts[0] + sep + Join(sep, parts[1..])
  }

  /** Every part appears in the joined text, in order, separated by `sep`. */
  lemma {:induction false} JoinContainsEach(sep: string, parts: seq<string>, k: nat)
    requires k < |parts|
    ensures exists i :: OccursAt(Join(sep, parts), parts[k], i)
    decreases |parts|
  {
    var r := Join(sep, parts);
    if k == 0 {
      assert OccursAt(r, parts[0], 0);
    } else {
      JoinContainsEach(sep, parts[1..], k - 1);
      var rest := Join(sep, parts[1..]);
      var i :| OccursAt(rest, parts[k], i);
      var off := |parts[0]| + |sep|;
      assert r == parts[0] + sep + rest;
      assert r[off + i..off + i + |parts[k]|] == rest[i..i + |parts[k]|];
      assert OccursAt(r, parts[k], off + i);
    }
  }

  /** `s.split("\n")`: the lines of a text. */
  function Lines(s: string): (r: seq<string>)
    ensures |r| >= 1
    ensures forall k :: 0 <= k < |r| ==> !Contains(r[k], "\n")
    decreases |s|
  {
    match Find(s, "\n", 0)
    case None => [s]
    case Some(i) =>
      NoneBeforeFirst(s, "\n", i);
      [s[..i]] + Lines(s[i + 1..])
  }

  // ----------------------------------------------------- fields and lists

  /** The leading run of non-whitespace characters. */
  function LeadingRun(t: string): (r: string)
    ensures r <= t
    ensures forall k :: 0 <= k < |r| ==> !IsSpace(r[k])
    ensures |r| == |t| || IsSpace(t[|r|])
  {
    if t == [] || IsSpace(t[0]) then [] else [t[0]] + LeadingRun(t[1..])
  }

  /** `s.split()[0]`: the first whitespace-separated field, or None where
      Python raises IndexError because the text is all whitespace. */
  function FirstField(s: string): (r: Option<string>)
    ensures r.None? <==> forall k :: 0 <= k < |s| ==> IsSpace(s[k])
    ensures r.Some? ==> r.value != [] && r.value <= TrimLeft(s)
                        && (forall k :: 0 <= k < |r.value| ==> !IsSpace(r.value[k]))
                        && (|r.value| == |TrimLeft(s)| || IsSpace(TrimLeft(s)[|r.value|]))
  {
    var t := TrimLeft(s);
    if t == [] then None
    else
      assert t[0] == s[|s| - |t|];
      Some(LeadingRun(t))
  }

  /** The elements of `xs` that satisfy `p`, in order (a filtering loop or
      comprehension). */
  function Filter<T>(xs: seq<T>, p: T -> bool): (r: seq<T>)
    ensures |r| <= |xs|
    ensures forall k :: 0 <= k < |r| ==> p(r[k]) && r[k] in xs
    decreases |xs|
  {
    if xs == [] then []
    else Filter(xs[..|xs| - 1], p) + (if p(xs[|xs| - 1]) then [xs[|xs| - 1]] else [])
  }

  /** Every element of `xs` that satisfies `p` is kept. */
  lemma {:induction false} FilterKeeps<T>(xs: seq<T>, p: T -> bool, x: T)
    requires x in xs && p(x)
    ensures x in Filter(xs, p)
    decreases |xs|
  {
    var init := xs[..|xs| - 1];
    if x != xs[|xs| - 1] {
      assert xs == init + [xs[|xs| - 1]];
      assert x in init;
      FilterKeeps(init, p, x);
    }
  }

  /** The concatenation of `f(x)` over `xs`: the shape of every
      `text += f(x)` loop the stages use to build a report. */
  function ConcatMap<T>(xs: seq<T>, f: T -> string): string
    decreases |xs|
  {
    if xs == [] then "" else ConcatMap(xs[..|xs| - 1], f) + f(xs[|xs| - 1])
  }

  lemma {:induction false} ConcatMapAppend<T>(xs: seq<T>, ys: seq<T>, f: T -> string)
    ensures ConcatMap(xs + ys, f) == ConcatMap(xs, f) + ConcatMap(ys, f)
    decreases |ys|
  {
    if ys == [] {
      assert xs + ys == xs;
    } else {
      var ys' := ys[..|ys| - 1];
      ConcatMapAppend(xs, ys', f);
      assert (xs + ys)[..|xs + ys| - 1] == xs + ys';
    }
  }

  /** Each element's piece appears in the concatenation, right after the
      pieces of the elements before it. */
  lemma ConcatMapOccurs<T>(xs: seq<T>, f: T -> string, k: nat)
    requires k < |xs|
    ensures OccursAt(ConcatMap(xs, f), f(xs[k]), |ConcatMap(xs[..k], f)|)
  {
    assert xs == xs[..k] + [xs[k]] + xs[k + 1..];
    ConcatMapAppend(xs[..k] + [xs[k]], xs[k + 1..], f);
    ConcatMapAppend(xs[..k], [xs[k]], f);
    assert [xs[k]][..0] == [];
    var whole := ConcatMap(xs, f);
    var off := |ConcatMap(xs[..k], f)|;
    assert whole == ConcatMap(xs[..k], f) + f(xs[k]) + ConcatMap(xs[k + 1..], f);
    assert whole[off..off + |f(xs[k])|] == f(xs[k]);
  }

  /** An occurrence stays where it is when text is added after it. */
  lemma OccursExtend(a: string, b: string, sub: string, i: int)
    requires OccursAt(a, sub, i)
    ensures OccursAt(a + b, sub, i)
  {
    assert (a + b)[i..i + |sub|] == a[i..i + |sub|];
  }

  /** An occurrence moves right by the length of text added before it. */
  lemma OccursAfter(a: string, b: string, sub: string, i: int)
    requires OccursAt(b, sub, i)
    ensures OccursAt(a + b, sub, |a| + i)
  {
    assert (a + b)[|a| + i..|a| + i + |sub|] == b[i..i + |sub|];
  }

  /** A piece of a concatenation that follows a fixed text. */
  lemma ConcatMapOccursAfter<T>(pre: string, xs: seq<T>, f: T -> string, k: nat)
    requires k < |xs|
    ensures OccursAt(pre + ConcatMap(xs, f), f(xs[k]), |pre| + |ConcatMap(xs[..k], f)|)
  {
    ConcatMapOccurs(xs, f, k);
    OccursAfter(pre, ConcatMap(xs, f), f(xs[k]), |ConcatMap(xs[..k], f)|);
  }

  lemma SuffixAfter(a: string, b: string)
    ensures (a + b)[|a|..] == b
  {
  }

  /** A piece of the last section of a text: the section ends the text, and
      the piece sits after the section's heading and the pieces before it. */
  lemma LastSectionOccurs<T>(x: string, head: string, xs: seq<T>, f: T -> string, k: nat)
    requires k < |xs|
    ensures var sec := head + ConcatMap(xs, f);
            var md := x + sec;
            |sec| <= |md| && sec == md[|md| - |sec|..]
            && OccursAt(md, f(xs[k]), |md| - |sec| + |head| + |ConcatMap(xs[..k], f)|)
  {
    var sec := head + ConcatMap(xs, f);
    ConcatMapOccurs(xs, f, k);
    OccursAfter(head, ConcatMap(xs, f), f(xs[k]), |ConcatMap(xs[..k], f)|);
    OccursAfter(x, sec, f(xs[k]), |head| + |ConcatMap(xs[..k], f)|);
    SuffixAfter(x, sec);
  }

  /** A piece of a section stays a piece once text is put on either side. */
  lemma OccursWithin(a: string, sec: string, c: string, sub: string, j: int)
    requires OccursAt(sec, sub, j)
    ensures OccursAt(a + sec + c, sub, |a| + j)
  {
    OccursAfter(a, sec, sub, j);
    OccursExtend(a + sec, c, sub, |a| + j);
  }

  lemma OccursExtendTwice(a: string, b: string, c: string, sub: string, i: int)
    requires OccursAt(a, sub, i)
    ensures OccursAt(a + b + c, sub, i)
  {
    OccursExtend(a, b, sub, i);
    OccursExtend(a + b, c, sub, i);
  }

  /** A piece of a section made of a heading, the pieces of `xs` and a
      closing text. */
  lemma ConcatMapInSection<T>(head: string, xs: seq<T>, f: T -> string, tail: string, k: nat)
    requires k < |xs|
    ensures OccursAt(head + ConcatMap(xs, f) + tail, f(xs[k]), |head| + |ConcatMap(xs[..k], f)|)
  {
    ConcatMapOccursAfter(head, xs, f, k);
    OccursExtend(head + ConcatMap(xs, f), tail, f(xs[k]), |head| + |ConcatMap(xs[..k], f)|);
  }

  /** A piece of a section that sits between two texts. */
  lemma ListedInSection<T>(a: string, head: string, xs: seq<T>, f: T -> string, tail: string, c: string,
                           k: nat, i: int)
    requires k < |xs| && i == |a| + |head| + |ConcatMap(xs[..k], f)|
    ensures OccursAt(a + (head + ConcatMap(xs, f) + tail) + c, f(xs[k]), i)
  {
    ConcatMapInSection(head, xs, f, tail, k);
    OccursWithin(a, head + ConcatMap(xs, f) + tail, c, f(xs[k]), |head| + |ConcatMap(xs[..k], f)|);
  }
}
