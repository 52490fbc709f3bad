/** OpsMender's chat dialect: what a text means, which HTML it becomes, and the
    proofs that nothing of it is lost and nothing else is read as markup. */
module TelegramDialect {
  import opened Wrappers
  import opened TelegramHtml
  import opened Text

  // ------------------------------------------------------------ searching

  /** Whether `pat` stands in `s` at `i`. */
  predicate StandsAt(s: string, pat: string, i: nat) {
    i + |pat| <= |s| && s[i..i + |pat|] == pat
  }

  /** A run of `n` asterisks, one or two, at `i`. */
  predicate StarsAt(s: string, n: nat, i: nat) {
    i + n <= |s| && (n > 0 ==> s[i] == '*') && (n > 1 ==> s[i + 1] == '*')
  }

  function Stars(n: nat): string { if n > 1 then "**" else "*" }

  /** The first backtick at or after `i`, or -1. */
  function FindTick(s: string, i: nat): (r: int)
    ensures r == -1 || (i <= r < |s| && s[r] == '`')
    decreases |s| - i
  {
    if i >= |s| then -1 else if s[i] == '`' then i else FindTick(s, i + 1)
  }

  /** The first run of `n` asterisks at or after `i`, or -1. */
  function FindStars(s: string, n: nat, i: nat): (r: int)
    ensures r == -1 || (i <= r && StarsAt(s, n, r))
    decreases |s| - i
  {
    if i + n > |s| then -1 else if StarsAt(s, n, i) then i else FindStars(s, n, i + 1)
  }

  lemma {:induction false} TickIsFirst(s: string, i: nat, k: nat)
    requires i <= k < |s| && s[k] == '`'
    ensures i <= FindTick(s, i) <= k
    decreases k - i
  {
    if s[i] != '`' {
      TickIsFirst(s, i + 1, k);
    }
  }

  lemma {:induction false} StarsAreFirst(s: string, n: nat, i: nat, k: nat)
    requires i <= k && StarsAt(s, n, k)
    ensures i <= FindStars(s, n, i) <= k
    decreases k - i
  {
    if !StarsAt(s, n, i) {
      StarsAreFirst(s, n, i + 1, k);
    }
  }

  function Count(s: string, c: char): nat {
    if s == "" then 0 else (if s[0] == c then 1 else 0) + Count(s[1..], c)
  }

  // ------------------------------------------------------------ laying a line out

  /** A delimited piece, and where the line goes on behind it. */
  datatype Marked<T> = Marked(piece: T, after: nat)

  ghost predicate Forward<T>(mark: nat -> Option<Marked<T>>, n: nat) {
    forall k: nat | mark(k).Some? :: k < mark(k).value.after <= n
  }

  function Held<T>(flat: string -> T, text: string): seq<T> { if text == "" then [] else [flat(text)] }

  /** The pieces of a line from `start` on, when only flat text stands between
      `start` and `i`: a mark is taken wherever the scan meets one, the text
      between is flat. */
  function Lay<T>(flat: string -> T, mark: nat -> Option<Marked<T>>, line: string, start: nat, i: nat): seq<T>
    requires start <= i <= |line| && Forward(mark, |line|)
    decreases |line| - i
  {
    if i == |line| then Held(flat, line[start..i])
    else match mark(i)
      case Some(m) => Held(flat, line[start..i]) + [m.piece] + Lay(flat, mark, line, m.after, m.after)
      case None => Lay(flat, mark, line, start, i + 1)
  }

  /** The strings of a list's elements, one after another. */
  function Cat<T>(f: T -> string, xs: seq<T>): string {
    if xs == [] then "" else f(xs[0]) + Cat(f, xs[1..])
  }

  lemma {:induction false} CatCat<T>(f: T -> string, xs: seq<T>, ys: seq<T>)
    ensures Cat(f, xs + ys) == Cat(f, xs) + Cat(f, ys)
  {
    if xs == [] {
      assert xs + ys == ys;
    } else {
      var zs := xs + ys;
      CatCat(f, xs[1..], ys);
      assert zs[1..] == xs[1..] + ys && zs[0] == xs[0];
      assert (f(xs[0]) + Cat(f, xs[1..])) + Cat(f, ys) == f(xs[0]) + (Cat(f, xs[1..]) + Cat(f, ys));
    }
  }

  lemma CatOne<T>(f: T -> string, x: T)
    ensures Cat(f, [x]) == f(x)
  {
    assert f(x) + "" == f(x);
  }

  /** Pieces that each read well read well together. */
  lemma {:induction false} CatReads<T>(html: T -> string, text: T -> string, xs: seq<T>, p: Place)
    requires forall x | x in xs :: Reads(html(x), p, text(x))
    ensures Reads(Cat(html, xs), p, Cat(text, xs))
  {
    if xs == [] {
      ReadsEmpty(p);
    } else {
      CatReads(html, text, xs[1..], p);
      ReadsCat(html(xs[0]), Cat(html, xs[1..]), p, text(xs[0]), Cat(text, xs[1..]));
    }
  }

  lemma CatThree<T>(f: T -> string, xs: seq<T>, y: T, zs: seq<T>)
    ensures Cat(f, xs + [y] + zs) == Cat(f, xs) + f(y) + Cat(f, zs)
  {
    CatCat(f, xs + [y], zs);
    CatCat(f, xs, [y]);
    CatOne(f, y);
  }

  lemma CatHeld<T>(f: T -> string, flat: string -> T, text: string)
    ensures Cat(f, Held(flat, text)) == if text == "" then "" else f(flat(text))
  {
    if text != "" {
      CatOne(f, flat(text));
    }
  }

  lemma InThree(line: string, a: nat, b: nat, c: nat)
    requires a <= b <= c <= |line|
    ensures line[a..b] + line[b..c] + line[c..] == line[a..]
  {
  }

  /** A piece with its delimiters put back is what stood in the line. */
  ghost predicate Quotes<T>(source: T -> string, flat: string -> T, mark: nat -> Option<Marked<T>>, line: string) {
    && (forall text: string :: source(flat(text)) == text)
    && Forward(mark, |line|)
    && forall k: nat | mark(k).Some? :: source(mark(k).value.piece) == line[k..mark(k).value.after]
  }

  lemma HeldQuotes<T>(source: T -> string, flat: string -> T, text: string)
    requires source(flat(text)) == text
    ensures Cat(source, Held(flat, text)) == text
  {
    CatHeld(source, flat, text);
  }

  /** The pieces with their delimiters put back are the line, exactly. */
  lemma {:induction false} LayKeepsLine<T>(
    source: T -> string, flat: string -> T, mark: nat -> Option<Marked<T>>, line: string, start: nat, i: nat)
    requires start <= i <= |line| && Quotes(source, flat, mark, line)
    ensures Cat(source, Lay(flat, mark, line, start, i)) == line[start..]
    decreases |line| - i
  {
    HeldQuotes(source, flat, line[start..i]);
    if i < |line| {
      match mark(i) {
        case Some(m) =>
          LayKeepsLine(source, flat, mark, line, m.after, m.after);
          CatThree(source, Held(flat, line[start..i]), m.piece, Lay(flat, mark, line, m.after, m.after));
          InThree(line, start, i, m.after);
        case None => LayKeepsLine(source, flat, mark, line, start, i + 1);
      }
    }
  }

  /** Of the pieces laid out from `at` on, each is the mark that stands there, or
      text in which no mark stands. */
  ghost predicate MarksTaken<T>(
    source: T -> string, flat: string -> T, mark: nat -> Option<Marked<T>>, at: nat, xs: seq<T>)
    decreases |xs|
  {
    xs == [] ||
    (var end := at + |source(xs[0])|;
     && (mark(at) == Some(Marked(xs[0], end)) || NoMarks(flat, mark, source(xs[0]), at, xs[0]))
     && MarksTaken(source, flat, mark, end, xs[1..]))
  }

  ghost predicate NoMarks<T>(flat: string -> T, mark: nat -> Option<Marked<T>>, text: string, at: nat, x: T) {
    x == flat(text) && forall k | at <= k < at + |text| :: mark(k).None?
  }

  lemma MarksTakenCons<T>(
    source: T -> string, flat: string -> T, mark: nat -> Option<Marked<T>>, at: nat, x: T, xs: seq<T>)
    requires MarksTaken(source, flat, mark, at + |source(x)|, xs)
    requires
      mark(at) == Some(Marked(x, at + |source(x)|)) || NoMarks(flat, mark, source(x), at, x)
    ensures MarksTaken(source, flat, mark, at, [x] + xs)
  {
    assert ([x] + xs)[1..] == xs;
  }

  lemma MarksTakenHeld<T>(
    source: T -> string, flat: string -> T, mark: nat -> Option<Marked<T>>, at: nat, text: string, xs: seq<T>)
    requires MarksTaken(source, flat, mark, at + |text|, xs)
    requires source(flat(text)) == text && NoMarks(flat, mark, text, at, flat(text))
    ensures MarksTaken(source, flat, mark, at, Held(flat, text) + xs)
  {
    if text == "" {
      assert Held(flat, text) + xs == xs;
    } else {
      MarksTakenCons(source, flat, mark, at, flat(text), xs);
    }
  }

  lemma Regroup<T>(xs: seq<T>, y: T, zs: seq<T>)
    ensures xs + [y] + zs == xs + ([y] + zs)
  {
  }

  /** Every mark outside another is taken, and nothing else is. */
  lemma {:induction false} LayTakesMarks<T>(
    source: T -> string, flat: string -> T, mark: nat -> Option<Marked<T>>, line: string, start: nat, i: nat)
    requires start <= i <= |line| && Quotes(source, flat, mark, line)
    requires forall k | start <= k < i :: mark(k).None?
    ensures MarksTaken(source, flat, mark, start, Lay(flat, mark, line, start, i))
    decreases |line| - i
  {
    var text := line[start..i];
    if i == |line| {
      MarksTakenHeld(source, flat, mark, start, text, []);
      assert Held(flat, text) + [] == Held(flat, text);
    } else if mark(i).Some? {
      var m := mark(i).value;
      var rest := Lay(flat, mark, line, m.after, m.after);
      LayTakesMarks(source, flat, mark, line, m.after, m.after);
      MarksTakenCons(source, flat, mark, i, m.piece, rest);
      MarksTakenHeld(source, flat, mark, start, text, [m.piece] + rest);
      Regroup(Held(flat, text), m.piece, rest);
    } else {
      LayTakesMarks(source, flat, mark, line, start, i + 1);
    }
  }

  // ------------------------------------------------------------ links in literal text

  datatype Part = Words(text: string) | Link(url: string)

  predicate UrlChar(c: char) { !IsSpace(c) && c !in "<>\"'" }

  const URL_TRAIL := ".,;:!?)]}'\""

  function RunEnd(text: string, i: nat): (j: nat)
    requires i <= |text|
    ensures i <= j <= |text|
    decreases |text| - i
  {
    if i == |text| || !UrlChar(text[i]) then i else RunEnd(text, i + 1)
  }

  /** Where the URL that begins at `i` ends, or `i` when none does. */
  function UrlEnd(text: string, i: nat): (j: nat)
    requires i <= |text|
    ensures i <= j <= |text|
  {
    var n := if StandsAt(text, "http://", i) then 7 else if StandsAt(text, "https://", i) then 8 else 0;
    if n == 0 || RunEnd(text, i + n) == i + n then i else RunEnd(text, i + n)
  }

  /** Sentence punctuation at the end is not part of a URL. */
  function TrimUrl(url: string): (u: string)
    ensures u <= url
    decreases |url|
  {
    if url != "" && url[|url| - 1] in URL_TRAIL then TrimUrl(url[..|url| - 1]) else url
  }

  lemma {:induction false} TrimUrlKeepsStart(url: string)
    requires url != "" && url[0] == 'h'
    ensures TrimUrl(url) != ""
    decreases |url|
  {
    if url[|url| - 1] in URL_TRAIL {
      TrimUrlKeepsStart(url[..|url| - 1]);
    }
  }

  lemma {:induction false} TrimUrlCutsTrail(url: string, k: nat)
    requires |TrimUrl(url)| <= k < |url|
    ensures url[k] in URL_TRAIL
    decreases |url|
  {
    if k < |url| - 1 {
      TrimUrlCutsTrail(url[..|url| - 1], k);
    }
  }

  /** The URL that begins at `i`. */
  function LinkMark(text: string, i: nat): Option<Marked<Part>> {
    if i < |text| && UrlEnd(text, i) > i then
      var url := TrimUrl(text[i..UrlEnd(text, i)]);
      Some(Marked(Link(url), i + |url|))
    else None
  }

  function LinkMarks(text: string): nat -> Option<Marked<Part>> { (k: nat) => LinkMark(text, k) }

  function WordsOf(text: string): Part { Words(text) }

  function PartSource(p: Part): string { if p.Words? then p.text else p.url }

  function LinkHtml(url: string): string { OpenLinkHtml(url) + Escape(url) + "</a>" }

  function PartHtml(p: Part): string { if p.Words? then Escape(p.text) else LinkHtml(p.url) }

  lemma UrlStart(text: string, i: nat)
    requires i < |text| && UrlEnd(text, i) > i
    ensures text[i] == 'h'
  {
    assert StandsAt(text, "http://", i) || StandsAt(text, "https://", i);
    assert text[i] == text[i..i + 7][0];
  }

  lemma LinkMarkQuotes(text: string, i: nat)
    requires LinkMark(text, i).Some?
    ensures var m := LinkMark(text, i).value;
      i < m.after <= UrlEnd(text, i) && PartSource(m.piece) == text[i..m.after]
  {
    var found := text[i..UrlEnd(text, i)];
    UrlStart(text, i);
    TrimUrlKeepsStart(found);
    assert TrimUrl(found) == found[..|TrimUrl(found)|];
  }

  /** No URL begins in what was trimmed from one. */
  lemma NoLinkInTrail(text: string, i: nat, k: nat)
    requires LinkMark(text, i).Some? && LinkMark(text, i).value.after <= k < UrlEnd(text, i)
    ensures LinkMark(text, k).None?
  {
    TrimUrlCutsTrail(text[i..UrlEnd(text, i)], k - i);
    if LinkMark(text, k).Some? {
      UrlStart(text, k);
    }
  }

  lemma LinksQuote(text: string)
    ensures Quotes(PartSource, WordsOf, LinkMarks(text), text)
  {
    forall k: nat | LinkMarks(text)(k).Some?
      ensures var m := LinkMarks(text)(k).value; k < m.after <= |text| && PartSource(m.piece) == text[k..m.after]
    {
      LinkMarkQuotes(text, k);
    }
  }

  lemma LinkMarksForward(text: string)
    ensures Forward(LinkMarks(text), |text|)
  {
    LinksQuote(text);
  }

  function Parts(text: string): seq<Part> {
    LinkMarksForward(text);
    Lay(WordsOf, LinkMarks(text), text, 0, 0)
  }

  /** Escaped literal text with bare URLs as links. */
  function TextHtml(text: string): string { Cat(PartHtml, Parts(text)) }

  lemma PartsKeepText(text: string)
    ensures Cat(PartSource, Parts(text)) == text
  {
    LinksQuote(text);
    LayKeepsLine(PartSource, WordsOf, LinkMarks(text), text, 0, 0);
  }

  /** Taking the tags out and the entities back gives the text again. */
  lemma TextReads(text: string, p: Place)
    requires !p.Leaf?
    ensures Reads(TextHtml(text), p, text)
  {
    var ps := Parts(text);
    PartsKeepText(text);
    forall x | x in ps ensures Reads(PartHtml(x), p, PartSource(x)) {
      if x.Words? {
        ReadsEscaped(x.text, p);
      } else {
        ReadsLink(x.url, p);
      }
    }
    CatReads(PartHtml, PartSource, ps, p);
  }

  // ------------------------------------------------------------ the marks of the dialect

  datatype Inline = Lit(text: string) | CodeSpan(code: string)

  /** A bold phrase stands between two runs of `stars` asterisks. */
  datatype Span = Flat(inline: Inline) | Bold(stars: nat, phrase: string)

  function LitInline(text: string): Inline { Lit(text) }

  function LitSpan(text: string): Span { Flat(Lit(text)) }

  /** A backtick at `i` and the next one, with something between them. */
  predicate TickPair(line: string, i: nat) {
    i < |line| && line[i] == '`' && FindTick(line, i + 1) > i + 1
  }

  /** How many asterisks the marker at `i` has. */
  function StarsOf(line: string, i: nat): (n: nat)
    ensures 1 <= n <= 2
  {
    if StarsAt(line, 2, i) then 2 else 1
  }

  function BoldEnd(line: string, i: nat): int {
    FindStars(line, StarsOf(line, i), i + StarsOf(line, i))
  }

  predicate StarPair(line: string, i: nat) {
    i < |line| && line[i] == '*' && BoldEnd(line, i) > i + StarsOf(line, i)
  }

  function InlineMark(line: string, i: nat): Option<Marked<Inline>> {
    if TickPair(line, i) then
      var end := FindTick(line, i + 1);
      Some(Marked(CodeSpan(line[i + 1..end]), end + 1))
    else None
  }

  function InlineMarks(line: string): nat -> Option<Marked<Inline>> { (k: nat) => InlineMark(line, k) }

  /** The spans of a phrase without bold. */
  function Inlines(line: string): seq<Inline> {
    InlineMarksForward(line);
    Lay(LitInline, InlineMarks(line), line, 0, 0)
  }

  lemma InlineMarksForward(line: string)
    ensures Forward(InlineMarks(line), |line|)
  {
  }

  function SpanMark(line: string, i: nat): Option<Marked<Span>> {
    if TickPair(line, i) then
      var end := FindTick(line, i + 1);
      Some(Marked(Flat(CodeSpan(line[i + 1..end])), end + 1))
    else if StarPair(line, i) then
      var n, end := StarsOf(line, i), BoldEnd(line, i);
      Some(Marked(Bold(n, line[i + n..end]), end + n))
    else None
  }

  function SpanMarks(line: string): nat -> Option<Marked<Span>> { (k: nat) => SpanMark(line, k) }

  lemma SpanMarksForward(line: string)
    ensures Forward(SpanMarks(line), |line|)
  {
  }

  function Spans(line: string): seq<Span> {
    SpanMarksForward(line);
    Lay(LitSpan, SpanMarks(line), line, 0, 0)
  }

  /** The dialect text of a span, its delimiters put back. */
  function InlineSource(s: Inline): string { if s.Lit? then s.text else "`" + s.code + "`" }

  function SpanSource(s: Span): string {
    if s.Flat? then InlineSource(s.inline) else Stars(s.stars) + s.phrase + Stars(s.stars)
  }

  /** What a reader is to see: the same without the delimiters. */
  function InlineText(s: Inline): string { if s.Lit? then s.text else s.code }

  function SpanText(s: Span): string { if s.Flat? then InlineText(s.inline) else Cat(InlineText, Inlines(s.phrase)) }

  function InlineHtml(s: Inline): string {
    if s.Lit? then TextHtml(s.text) else "<code>" + Escape(s.code) + "</code>"
  }

  function SpanHtml(s: Span): string {
    if s.Flat? then InlineHtml(s.inline) else "<b>" + Cat(InlineHtml, Inlines(s.phrase)) + "</b>"
  }

  lemma QuotedTicks(line: string, i: nat, end: nat)
    requires i < end < |line| && line[i] == '`' && line[end] == '`'
    ensures "`" + line[i + 1..end] + "`" == line[i..end + 1]
  {
  }

  lemma QuotedStars(line: string, n: nat, i: nat, end: nat)
    requires 1 <= n <= 2 && i + n <= end && StarsAt(line, n, i) && StarsAt(line, n, end)
    ensures Stars(n) + line[i + n..end] + Stars(n) == line[i..end + n]
  {
  }

  lemma InlineMarkQuotes(line: string, i: nat)
    requires InlineMark(line, i).Some?
    ensures var m := InlineMark(line, i).value;
      i < m.after <= |line| && InlineSource(m.piece) == line[i..m.after]
  {
    QuotedTicks(line, i, FindTick(line, i + 1));
  }

  lemma InlinesQuote(line: string)
    ensures Quotes(InlineSource, LitInline, InlineMarks(line), line)
  {
    InlineMarksForward(line);
    forall k: nat | InlineMarks(line)(k).Some?
      ensures InlineSource(InlineMarks(line)(k).value.piece) == line[k..InlineMarks(line)(k).value.after]
    {
      InlineMarkQuotes(line, k);
    }
  }

  /** A phrase's spans with their delimiters put back are the phrase. */
  lemma InlinesKeepLine(line: string)
    ensures Cat(InlineSource, Inlines(line)) == line
  {
    InlinesQuote(line);
    LayKeepsLine(InlineSource, LitInline, InlineMarks(line), line, 0, 0);
  }

  lemma BoldQuotes(line: string, i: nat)
    requires StarPair(line, i)
    ensures var n, end := StarsOf(line, i), BoldEnd(line, i);
      end + n <= |line| && SpanSource(Bold(n, line[i + n..end])) == line[i..end + n]
  {
    var n, end := StarsOf(line, i), BoldEnd(line, i);
    QuotedStars(line, n, i, end);
  }

  lemma SpanMarkQuotes(line: string, i: nat)
    requires SpanMark(line, i).Some?
    ensures var m := SpanMark(line, i).value;
      i < m.after <= |line| && SpanSource(m.piece) == line[i..m.after]
  {
    if TickPair(line, i) {
      InlineMarkQuotes(line, i);
    } else {
      BoldQuotes(line, i);
    }
  }

  lemma SpansQuote(line: string)
    ensures Quotes(SpanSource, LitSpan, SpanMarks(line), line)
  {
    SpanMarksForward(line);
    forall k: nat | SpanMarks(line)(k).Some?
      ensures SpanSource(SpanMarks(line)(k).value.piece) == line[k..SpanMarks(line)(k).value.after]
    {
      SpanMarkQuotes(line, k);
    }
  }

  /** A line's spans with their delimiters put back are the line. */
  lemma SpansKeepLine(line: string)
    ensures Cat(SpanSource, Spans(line)) == line
  {
    SpansQuote(line);
    LayKeepsLine(SpanSource, LitSpan, SpanMarks(line), line, 0, 0);
  }

  lemma InlineReads(x: Inline, p: Place)
    requires !p.Leaf?
    ensures Reads(InlineHtml(x), p, InlineText(x))
  {
    if x.Lit? {
      TextReads(x.text, p);
    } else {
      ReadsCode(x.code, p);
    }
  }

  lemma InlinesRead(ins: seq<Inline>, p: Place)
    requires !p.Leaf?
    ensures Reads(Cat(InlineHtml, ins), p, Cat(InlineText, ins))
  {
    forall x | x in ins ensures Reads(InlineHtml(x), p, InlineText(x)) {
      InlineReads(x, p);
    }
    CatReads(InlineHtml, InlineText, ins, p);
  }

  lemma SpansRead(ss: seq<Span>)
    ensures Reads(Cat(SpanHtml, ss), Top, Cat(SpanText, ss))
  {
    forall x | x in ss ensures Reads(SpanHtml(x), Top, SpanText(x)) {
      if x.Flat? {
        InlineReads(x.inline, Top);
      } else {
        InlinesRead(Inlines(x.phrase), InBold);
        ReadsBold(Cat(InlineHtml, Inlines(x.phrase)), Cat(InlineText, Inlines(x.phrase)));
      }
    }
    CatReads(SpanHtml, SpanText, ss, Top);
  }

  // ------------------------------------------------------------ only pairs become markup

  /** A code span is exactly a backtick and the next one, something between them. */
  lemma CodeIsATickPair(line: string, i: nat, end: nat)
    requires i < end < |line| && line[i] == '`' && line[end] == '`'
    ensures InlineMark(line, i) == Some(Marked(CodeSpan(line[i + 1..end]), end + 1)) <==>
      end > i + 1 && '`' !in line[i + 1..end]
  {
    var code := line[i + 1..end];
    TickIsFirst(line, i + 1, end);
    if '`' in code {
      var k: nat :| k < |code| && code[k] == '`';
      TickIsFirst(line, i + 1, i + 1 + k);
    }
  }

  /** A bold phrase is exactly one between a marker, of two asterisks where two
      stand, and the next run of as many, something between them. */
  lemma BoldIsAStarPair(line: string, i: nat, n: nat, end: nat)
    requires i < |line| && line[i] == '*' && n == StarsOf(line, i)
    requires i + n <= end && StarsAt(line, n, end)
    ensures SpanMark(line, i) == Some(Marked(Bold(n, line[i + n..end]), end + n)) <==>
      end > i + n && forall k | i + n <= k < end :: !StarsAt(line, n, k)
  {
    StarsAreFirst(line, n, i + n, end);
    forall k | i + n <= k < end && StarsAt(line, n, k) ensures FindStars(line, n, i + n) <= k {
      StarsAreFirst(line, n, i + n, k);
    }
  }

  /** Exactly the delimiters that pair up, outside spans already begun, become
      spans; the text between holds no pair. */
  lemma SpansTakeOnlyPairs(line: string)
    ensures MarksTaken(SpanSource, LitSpan, SpanMarks(line), 0, Spans(line))
  {
    SpansQuote(line);
    LayTakesMarks(SpanSource, LitSpan, SpanMarks(line), line, 0, 0);
  }

  /** Every URL outside another becomes a link, and nothing else does. */
  lemma PartsTakeOnlyUrls(text: string)
    ensures MarksTaken(PartSource, WordsOf, LinkMarks(text), 0, Parts(text))
  {
    LinksQuote(text);
    LayTakesMarks(PartSource, WordsOf, LinkMarks(text), text, 0, 0);
  }

  lemma InlinesTakeOnlyPairs(line: string)
    ensures MarksTaken(InlineSource, LitInline, InlineMarks(line), 0, Inlines(line))
  {
    InlinesQuote(line);
    LayTakesMarks(InlineSource, LitInline, InlineMarks(line), line, 0, 0);
  }
}
