/**
 * `parseMathText` (components/math-renderer.tsx): split a question text into
 * plain-text parts and math parts. Math is what the global regular
 * expression `(\$\$[\s\S]*?\$\$|\$[^$\n]*?\$)` matches, scanning left to
 * right: at each position the display form `$$ ... $$` (closed by the first
 * later `$$`) is tried first, then the inline form `$ ... $` (closed by the
 * next `$`, with no newline in between).
 *
 * The regular expression is specified by `MatchAt` and `NextMatch`; `Lex`
 * cuts a text into gaps and matched spans; `ParseMathText` is the source's
 * loop, proved to produce the parts of `Lex`.
 */
module MathText {
  import opened Wrappers
  import opened JsStrings

  datatype Part = TextPart(content: string) | MathPart(content: string, displayMode: bool)

  // ---------------------------------------------------------------------------
  // The regular expression
  // ---------------------------------------------------------------------------

  /** `k` is the first `$$` at or after `i`. */
  predicate DisplayCloseAt(s: string, i: nat, k: nat) {
    i <= k && k + 1 < |s| && s[k] == '$' && s[k + 1] == '$'
    && forall m :: i <= m < k ==> !(s[m] == '$' && s[m + 1] == '$')
  }

  /** Where the lazy `[\s\S]*?\$\$` ends its body, searching from `i`. */
  function DisplayClose(s: string, i: nat): (r: Option<nat>)
    decreases |s| - i
    ensures r.Some? ==> DisplayCloseAt(s, i, r.value)
    ensures r.None? ==> forall k :: i <= k && k + 1 < |s| ==> !(s[k] == '$' && s[k + 1] == '$')
  {
    if i + 1 >= |s| then None
    else if s[i] == '$' && s[i + 1] == '$' then Some(i)
    else DisplayClose(s, i + 1)
  }

  /** `k` is a `$` reached from `i` without crossing another `$` or a newline. */
  predicate InlineCloseAt(s: string, i: nat, k: nat) {
    i <= k < |s| && s[k] == '$' && forall m :: i <= m < k ==> s[m] != '$' && s[m] != '\n'
  }

  /** Where the lazy `[^$\n]*?\$` ends its body, searching from `i`. */
  function InlineClose(s: string, i: nat): (r: Option<nat>)
    decreases |s| - i
    ensures r.Some? ==> InlineCloseAt(s, i, r.value)
    ensures r.None? ==> forall k: nat :: !InlineCloseAt(s, i, k)
  {
    if i >= |s| then None
    else if s[i] == '$' then Some(i)
    else if s[i] == '\n' then
      assert forall k: nat :: InlineCloseAt(s, i, k) ==> k == i;
      None
    else
      var r := InlineClose(s, i + 1);
      assert forall k: nat :: InlineCloseAt(s, i, k) && k > i ==> InlineCloseAt(s, i + 1, k);
      r
  }

  /** The end of the match that starts exactly at `p`, the display alternative first. */
  function MatchAt(s: string, p: nat): (r: Option<nat>)
    ensures r.Some? ==> p + 2 <= r.value <= |s| && s[p] == '$'
  {
    if p < |s| && s[p] == '$' then
      if p + 1 < |s| && s[p + 1] == '$' && DisplayClose(s, p + 2).Some? then
        Some(DisplayClose(s, p + 2).value + 2)
      else
        match InlineClose(s, p + 1)
        case Some(k) => Some(k + 1)
        case None => None
    else None
  }

  /** `regex.exec` with `lastIndex == from`: the leftmost match at or after `from`. */
  function NextMatch(s: string, from: nat): (r: Option<(nat, nat)>)
    decreases |s| - from
    ensures r.Some? ==> from <= r.value.0 && r.value.0 + 2 <= r.value.1 <= |s|
  {
    if from >= |s| then None
    else
      match MatchAt(s, from)
      case Some(e) => Some((from, e))
      case None => NextMatch(s, from + 1)
  }

  /** `NextMatch` finds the match that starts first, and `None` means there is none. */
  lemma {:induction false} NextMatchLeftmost(s: string, from: nat)
    decreases |s| - from
    ensures var r := NextMatch(s, from);
            r.Some? ==> MatchAt(s, r.value.0) == Some(r.value.1)
                        && forall p :: from <= p < r.value.0 ==> MatchAt(s, p).None?
    ensures NextMatch(s, from).None? ==> forall p :: from <= p ==> MatchAt(s, p).None?
  {
    if from < |s| && MatchAt(s, from).None? {
      NextMatchLeftmost(s, from + 1);
    }
  }

  /** A display span: `$$`, a body holding no `$$`, `$$`. */
  predicate IsDisplaySpan(raw: string) {
    && |raw| >= 4
    && raw[0] == '$' && raw[1] == '$' && raw[|raw| - 2] == '$' && raw[|raw| - 1] == '$'
    && forall m :: 2 <= m < |raw| - 2 ==> !(raw[m] == '$' && raw[m + 1] == '$')
  }

  /** An inline span: `$`, a body holding neither `$` nor a newline, `$`. */
  predicate IsInlineSpan(raw: string) {
    && |raw| >= 2
    && raw[0] == '$' && raw[|raw| - 1] == '$'
    && forall m :: 1 <= m < |raw| - 1 ==> raw[m] != '$' && raw[m] != '\n'
  }

  /**
   * What a match looks like: a display span or an inline span. Where a
   * closing `$$` exists the display form wins; a `$$` with no closing `$$`
   * after it is matched as the two-character inline span `$$`.
   */
  lemma MatchShape(s: string, p: nat)
    requires MatchAt(s, p).Some?
    ensures IsDisplaySpan(s[p..MatchAt(s, p).value]) || IsInlineSpan(s[p..MatchAt(s, p).value])
    ensures p + 1 < |s| && s[p + 1] == '$' && DisplayClose(s, p + 2).Some? ==>
              IsDisplaySpan(s[p..MatchAt(s, p).value])
              && MatchAt(s, p).value == DisplayClose(s, p + 2).value + 2
    ensures StartsWith(s[p..MatchAt(s, p).value], "$$") && !IsDisplaySpan(s[p..MatchAt(s, p).value]) ==>
              s[p..MatchAt(s, p).value] == "$$"
              && forall k :: p + 2 <= k && k + 1 < |s| ==> !(s[k] == '$' && s[k + 1] == '$')
  {
    var e := MatchAt(s, p).value;
    var raw := s[p..e];
    if p + 1 < |s| && s[p + 1] == '$' && DisplayClose(s, p + 2).Some? {
      var k := DisplayClose(s, p + 2).value;
      assert e == k + 2;
      forall m | 2 <= m < |raw| - 2 ensures !(raw[m] == '$' && raw[m + 1] == '$') {
        assert raw[m] == s[p + m] && raw[m + 1] == s[p + m + 1];
      }
      assert IsDisplaySpan(raw);
    } else {
      var k := InlineClose(s, p + 1).value;
      assert e == k + 1;
      forall m | 1 <= m < |raw| - 1 ensures raw[m] != '$' && raw[m] != '\n' {
        assert raw[m] == s[p + m];
      }
      assert IsInlineSpan(raw);
      if StartsWith(raw, "$$") {
        assert s[p + 1] == '$';
        assert k == p + 1;
      }
    }
  }

  /**
   * A `$` where no match starts has no closing `$` before a newline or the
   * end: between it and any later `$` there is a newline.
   */
  lemma LoneDollar(s: string, p: nat)
    requires p < |s| && s[p] == '$' && MatchAt(s, p).None?
    ensures forall k :: p < k < |s| && s[k] == '$' ==> exists m :: p < m < k && s[m] == '\n'
  {
    assert InlineClose(s, p + 1).None?;
    forall k | p < k < |s| && s[k] == '$' ensures exists m :: p < m < k && s[m] == '\n' {
      if forall m :: p < m < k ==> s[m] != '\n' {
        FirstDollar(s, p + 1, k);
        assert false;
      }
    }
  }

  /** With no newline on the way, a `$` at `m` or before it closes an inline span opened before `i`. */
  lemma {:induction false} FirstDollar(s: string, i: nat, m: nat)
    requires i <= m < |s| && s[m] == '$'
    requires forall n :: i <= n < m ==> s[n] != '\n'
    ensures exists k: nat :: InlineCloseAt(s, i, k)
    decreases m - i
  {
    if s[i] == '$' {
      assert InlineCloseAt(s, i, i);
    } else {
      FirstDollar(s, i + 1, m);
      var k: nat :| InlineCloseAt(s, i + 1, k);
      assert InlineCloseAt(s, i, k);
    }
  }

  // ---------------------------------------------------------------------------
  // Cutting a text into gaps and matched spans
  // ---------------------------------------------------------------------------

  /** A piece `[start, end)` of the text: an unmatched gap or a matched span. */
  datatype Token = Gap(start: nat, end: nat) | Span(start: nat, end: nat)

  /** The tokens cover `[from, to)` exactly, in order, each non-empty. */
  predicate Tiles(ts: seq<Token>, from: nat, to: nat) {
    && (ts == [] ==> from == to)
    && (ts != [] ==> ts[0].start == from && ts[|ts| - 1].end == to)
    && (forall k :: 0 <= k < |ts| ==> from <= ts[k].start < ts[k].end <= to)
    && (forall k :: 0 <= k < |ts| - 1 ==> ts[k].end == ts[k + 1].start)
    && (forall j, k :: 0 <= j < k < |ts| ==> ts[j].end <= ts[k].start)
  }

  /**
   * Every span is a match of the regular expression at its start, no match
   * starts inside a gap, and a gap is always followed by a span.
   */
  predicate WellLexed(s: string, ts: seq<Token>) {
    forall k :: 0 <= k < |ts| ==>
      && ts[k].end <= |s|
      && (ts[k].Span? ==> MatchAt(s, ts[k].start) == Some(ts[k].end))
      && (ts[k].Gap? ==> forall p :: ts[k].start <= p < ts[k].end ==> MatchAt(s, p).None?)
      && (ts[k].Gap? && k + 1 < |ts| ==> ts[k + 1].Span?)
  }

  /** The scan of `s` from `from` on. */
  function Lex(s: string, from: nat): (ts: seq<Token>)
    requires from <= |s|
    decreases |s| - from
    ensures Tiles(ts, from, |s|) && InBounds(s, ts)
  {
    match NextMatch(s, from)
    case None => if from < |s| then [Gap(from, |s|)] else []
    case Some((a, b)) =>
      var rest := Lex(s, b);
      var head := MatchHead(from, a, b);
      TilesAppend(head, rest, from, b, |s|);
      head + rest
  }

  lemma TilesAppend(a: seq<Token>, b: seq<Token>, from: nat, mid: nat, to: nat)
    requires Tiles(a, from, mid) && Tiles(b, mid, to) && a != []
    ensures Tiles(a + b, from, to)
  {
    var ab := a + b;
    assert forall k :: 0 <= k < |a| ==> ab[k] == a[k];
    assert forall k :: |a| <= k < |ab| ==> ab[k] == b[k - |a|];
  }

  lemma WellLexedAppend(s: string, a: seq<Token>, b: seq<Token>)
    requires WellLexed(s, a) && WellLexed(s, b) && a != [] && a[|a| - 1].Span?
    ensures WellLexed(s, a + b)
  {
    var ab := a + b;
    assert forall k :: 0 <= k < |a| ==> ab[k] == a[k];
    assert forall k :: |a| <= k < |ab| ==> ab[k] == b[k - |a|];
  }

  /** The scan agrees with the regular expression: it is exactly what repeated `exec` calls find. */
  lemma {:induction false} LexWellLexed(s: string, from: nat)
    requires from <= |s|
    ensures WellLexed(s, Lex(s, from))
    decreases |s| - from
  {
    NextMatchLeftmost(s, from);
    match NextMatch(s, from)
    case None =>
    case Some((a, b)) =>
      LexWellLexed(s, b);
      var head := MatchHead(from, a, b);
      assert WellLexed(s, head);
      WellLexedAppend(s, head, Lex(s, b));
  }

  /** The text a token covers. */
  function Covered(s: string, t: Token): string
    requires t.start <= t.end <= |s|
  {
    s[t.start..t.end]
  }

  predicate InBounds(s: string, ts: seq<Token>) {
    forall k :: 0 <= k < |ts| ==> ts[k].start <= ts[k].end <= |s|
  }

  /** The covered texts, concatenated in order. */
  function Concat(s: string, ts: seq<Token>): string
    requires InBounds(s, ts)
  {
    if ts == [] then [] else Covered(s, ts[0]) + Concat(s, ts[1..])
  }

  /** Gaps and spans, put back together, give the text they tile. */
  lemma {:induction false} ConcatTiles(s: string, ts: seq<Token>, from: nat, to: nat)
    requires Tiles(ts, from, to) && to <= |s|
    ensures InBounds(s, ts)
    ensures Concat(s, ts) == s[from..to]
  {
    if ts != [] {
      assert Tiles(ts[1..], ts[0].end, to);
      ConcatTiles(s, ts[1..], ts[0].end, to);
      assert s[from..to] == s[from..ts[0].end] + s[ts[0].end..to];
    }
  }

  /** The gaps and matches the scan finds, put back together in order, are the text. */
  lemma LexCoversText(s: string)
    ensures Concat(s, Lex(s, 0)) == s
  {
    ConcatTiles(s, Lex(s, 0), 0, |s|);
    assert s[0..|s|] == s;
  }

  // ---------------------------------------------------------------------------
  // Parts
  // ---------------------------------------------------------------------------

  /** `raw.startsWith('$$')` */
  predicate IsDisplay(raw: string) {
    StartsWith(raw, "$$")
  }

  /** `raw.slice(2, -2).trim()` for display spans, `raw.slice(1, -1).trim()` otherwise. */
  function CleanMath(raw: string): string {
    if IsDisplay(raw) then Trim(Slice(raw, 2, -2)) else Trim(Slice(raw, 1, -1))
  }

  function PartOf(s: string, t: Token): Part
    requires t.start <= t.end <= |s|
  {
    match t
    case Gap(a, b) => TextPart(s[a..b])
    case Span(a, b) => MathPart(CleanMath(s[a..b]), IsDisplay(s[a..b]))
  }

  function PartsOf(s: string, ts: seq<Token>): (ps: seq<Part>)
    requires InBounds(s, ts)
    ensures |ps| == |ts|
  {
    seq(|ts|, k requires 0 <= k < |ts| => PartOf(s, ts[k]))
  }

  lemma PartsOfAppend(s: string, a: seq<Token>, b: seq<Token>)
    requires InBounds(s, a) && InBounds(s, b)
    ensures InBounds(s, a + b)
    ensures PartsOf(s, a + b) == PartsOf(s, a) + PartsOf(s, b)
  {
    var ab := a + b;
    assert forall k :: 0 <= k < |a| ==> ab[k] == a[k];
    assert forall k :: |a| <= k < |ab| ==> ab[k] == b[k - |a|];
  }

  /** The parts of the text from `from` on, as the scan cuts it. */
  ghost function ScanParts(s: string, from: nat): seq<Part>
    requires from <= |s|
  {
    PartsOf(s, Lex(s, from))
  }

  /** The tokens before the rest of the scan, when a match is found at `[a, b)`. */
  function MatchHead(from: nat, a: nat, b: nat): seq<Token> {
    (if from < a then [Gap(from, a)] else []) + [Span(a, b)]
  }

  lemma LexMatch(s: string, from: nat)
    requires from <= |s| && NextMatch(s, from).Some?
    ensures var m := NextMatch(s, from).value;
            InBounds(s, MatchHead(from, m.0, m.1)) && Lex(s, from) == MatchHead(from, m.0, m.1) + Lex(s, m.1)
  {
  }

  lemma PartsOfHead(s: string, from: nat, a: nat, b: nat)
    requires from <= a < b <= |s|
    ensures InBounds(s, MatchHead(from, a, b))
    ensures PartsOf(s, MatchHead(from, a, b))
            == (if from < a then [TextPart(s[from..a])] else [])
               + [MathPart(CleanMath(s[a..b]), IsDisplay(s[a..b]))]
  {
  }

  /** The parts of a scan that finds a match: the gap before it, if any, the match, then the rest. */
  lemma PartsOfMatch(s: string, from: nat)
    requires from <= |s| && NextMatch(s, from).Some?
    ensures var m := NextMatch(s, from).value;
            ScanParts(s, from)
            == (if from < m.0 then [TextPart(s[from..m.0])] else [])
               + [MathPart(CleanMath(s[m.0..m.1]), IsDisplay(s[m.0..m.1]))]
               + ScanParts(s, m.1)
  {
    var m := NextMatch(s, from).value;
    LexMatch(s, from);
    PartsOfHead(s, from, m.0, m.1);
    PartsOfAppend(s, MatchHead(from, m.0, m.1), Lex(s, m.1));
  }

  /** The parts of a scan that finds no match: what is left, as one text part. */
  lemma PartsOfNoMatch(s: string, from: nat)
    requires from <= |s| && NextMatch(s, from).None?
    ensures ScanParts(s, from) == if from < |s| then [TextPart(s[from..])] else []
  {
    if from < |s| {
      assert Lex(s, from) == [Gap(from, |s|)];
      assert s[from..|s|] == s[from..];
    }
  }

  /**
   * The parts of the text from `from` on, read off the scan directly: the
   * text before each match (when there is any), the cleaned match, and the
   * text after the last match.
   */
  function Parts(s: string, from: nat): seq<Part>
    requires from <= |s|
    decreases |s| - from
  {
    match NextMatch(s, from)
    case None => if from < |s| then [TextPart(s[from..])] else []
    case Some((a, b)) =>
      (if from < a then [TextPart(s[from..a])] else [])
      + [MathPart(CleanMath(s[a..b]), IsDisplay(s[a..b]))]
      + Parts(s, b)
  }

  /** Reading the parts off directly agrees with reading them off the tokens. */
  lemma {:induction false} PartsAreScanParts(s: string, from: nat)
    requires from <= |s|
    decreases |s| - from
    ensures Parts(s, from) == ScanParts(s, from)
  {
    match NextMatch(s, from)
    case None => PartsOfNoMatch(s, from);
    case Some((a, b)) =>
      PartsOfMatch(s, from);
      PartsAreScanParts(s, b);
  }

  lemma Regroup<T>(a: seq<T>, b: seq<T>, c: seq<T>, d: seq<T>)
    ensures a + (b + c + d) == a + b + c + d
  {
  }

  /** The scanning loop of `parseMathText`. */
  method ParseMathText(text: string) returns (parts: seq<Part>)
    ensures parts == Parts(text, 0)
  {
    parts := [];
    var lastIndex: nat := 0;
    var m := NextMatch(text, lastIndex);
    while m.Some?
      invariant lastIndex <= |text|
      invariant m == NextMatch(text, lastIndex)
      invariant Parts(text, 0) == parts + Parts(text, lastIndex)
      decreases |text| - lastIndex
    {
      var index := m.value.0;
      var end := m.value.1;
      ghost var before := parts;
      ghost var gap := if lastIndex < index then [TextPart(text[lastIndex..index])] else [];
      ghost var math := [MathPart(CleanMath(text[index..end]), IsDisplay(text[index..end]))];
      assert Parts(text, lastIndex) == gap + math + Parts(text, end);
      if index > lastIndex {
        var textContent := text[lastIndex..index];
        if textContent != "" {
          parts := parts + [TextPart(textContent)];
        }
      }
      var mathContent := text[index..end];
      var isDisplayMode := IsDisplay(mathContent);
      parts := parts + [MathPart(CleanMath(mathContent), isDisplayMode)];
      assert parts == before + gap + math;
      Regroup(before, gap, math, Parts(text, end));
      lastIndex := end;
      m := NextMatch(text, lastIndex);
    }
    if lastIndex < |text| {
      var textContent := text[lastIndex..];
      if textContent != "" {
        parts := parts + [TextPart(textContent)];
      }
    }
  }

  // ---------------------------------------------------------------------------
  // What the parts look like
  // ---------------------------------------------------------------------------

  /** Text parts are never empty, and two text parts never follow each other. */
  predicate Alternates(ps: seq<Part>) {
    && (forall k :: 0 <= k < |ps| && ps[k].TextPart? ==> ps[k].content != [])
    && (forall k :: 0 <= k < |ps| - 1 && ps[k].TextPart? ==> ps[k + 1].MathPart?)
  }

  lemma {:induction false} PartsAlternate(s: string, from: nat)
    requires from <= |s|
    decreases |s| - from
    ensures Alternates(Parts(s, from))
    ensures from < |s| ==> Parts(s, from) != []
  {
    match NextMatch(s, from)
    case None =>
    case Some((a, b)) =>
      PartsAlternate(s, b);
      var head := (if from < a then [TextPart(s[from..a])] else [])
                  + [MathPart(CleanMath(s[a..b]), IsDisplay(s[a..b]))];
      assert Parts(s, from) == head + Parts(s, b);
      AlternatesAppend(head, Parts(s, b));
  }

  lemma AlternatesAppend(x: seq<Part>, y: seq<Part>)
    requires Alternates(x) && Alternates(y) && x != [] && x[|x| - 1].MathPart?
    ensures Alternates(x + y)
  {
    var xy := x + y;
    assert forall k :: 0 <= k < |x| ==> xy[k] == x[k];
    assert forall k :: |x| <= k < |xy| ==> xy[k] == y[k - |x|];
  }

  /** A text without `$` is one text part (none when it is empty). */
  lemma NoDollarOneText(s: string)
    requires forall k :: 0 <= k < |s| ==> s[k] != '$'
    ensures Parts(s, 0) == if s == [] then [] else [TextPart(s)]
  {
    NextMatchLeftmost(s, 0);
    if NextMatch(s, 0).Some? {
      assert false;
    }
    assert s[0..] == s;
  }

  /**
   * The part a match gives: a display span keeps its trimmed body in display
   * mode; an inline span keeps its trimmed body inline; the one other case,
   * a `$$` with no closing `$$` after it, is matched as the empty inline
   * span `$$` and still becomes an empty part in display mode.
   */
  lemma MatchPart(s: string, a: nat, b: nat)
    requires MatchAt(s, a) == Some(b)
    ensures var raw := s[a..b];
            var part := MathPart(CleanMath(raw), IsDisplay(raw));
            || (IsDisplaySpan(raw) && part == MathPart(Trim(raw[2..|raw| - 2]), true))
            || (IsInlineSpan(raw) && |raw| >= 2 && raw[1] != '$'
                && part == MathPart(Trim(raw[1..|raw| - 1]), false))
            || (raw == "$$" && part == MathPart("", true)
                && forall k :: a + 2 <= k && k + 1 < |s| ==> !(s[k] == '$' && s[k + 1] == '$'))
  {
    MatchShape(s, a);
    var raw := s[a..b];
    if IsDisplay(raw) {
      if IsDisplaySpan(raw) {
        assert Slice(raw, 2, -2) == raw[2..|raw| - 2];
      } else {
        assert raw == "$$";
        assert Slice(raw, 2, -2) == [];
      }
    } else {
      assert Slice(raw, 1, -1) == raw[1..|raw| - 1];
    }
  }
}
