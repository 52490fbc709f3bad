/** The renderer: every Telegram message passes through Render. Its loops are
    proved against the meaning of the dialect, and that meaning against the HTML
    reader. */
module TelegramMarkup {
  import opened Wrappers
  import opened TelegramHtml
  import opened Text
  import opened TelegramDialect

  // ------------------------------------------------------------ lines

  /** A whole line in asterisks. A title inside may hold an asterisk of its own,
      an odd number of them; an even number is several bold phrases. */
  predicate IsHeadline(line: string) {
    |line| > 2 && line[0] == '*' && line[|line| - 1] == '*' && line[1] != '*' &&
    var inner := line[1..|line| - 1];
    Strip(inner) != "" && (Count(inner, '*') % 2 == 1 || '*' !in inner)
  }

  function LineSpans(line: string): seq<Span> {
    if IsHeadline(line) then [Bold(1, line[1..|line| - 1])] else Spans(line)
  }

  /** A line with only its paired delimiters taken out. */
  function LineText(line: string): string { Cat(SpanText, LineSpans(line)) }

  function LineHtml(line: string): string { Cat(SpanHtml, LineSpans(line)) }

  lemma HeadlineKept(line: string)
    requires IsHeadline(line)
    ensures SpanSource(Bold(1, line[1..|line| - 1])) == line
  {
    assert line == "*" + line[1..|line| - 1] + "*";
  }

  /** The spans with their delimiters are the line. */
  lemma LineKept(line: string)
    ensures Cat(SpanSource, LineSpans(line)) == line
  {
    if IsHeadline(line) {
      HeadlineKept(line);
      CatOne(SpanSource, Bold(1, line[1..|line| - 1]));
    } else {
      SpansKeepLine(line);
    }
  }

  /** A line's HTML is well formed and shows the line without the delimiters of
      its spans. */
  lemma LineReads(line: string)
    ensures Reads(LineHtml(line), Top, LineText(line))
  {
    SpansRead(LineSpans(line));
  }

  // ------------------------------------------------------------ lines of a text

  function Split(text: string): (lines: seq<string>)
    ensures lines != []
  {
    if text == "" then [""]
    else
      var rest := Split(text[1..]);
      if text[0] == '\n' then [""] + rest else [[text[0]] + rest[0]] + rest[1..]
  }

  function Join(lines: seq<string>): string {
    if lines == [] then "" else if |lines| == 1 then lines[0] else lines[0] + "\n" + Join(lines[1..])
  }

  lemma {:induction false} JoinSplit(text: string)
    ensures Join(Split(text)) == text
  {
    if text != "" {
      var rest := Split(text[1..]);
      JoinSplit(text[1..]);
      if text[0] == '\n' {
        assert ([""] + rest)[1..] == rest;
      } else {
        var lines := [[text[0]] + rest[0]] + rest[1..];
        assert lines[1..] == rest[1..];
        assert Join(lines) == [text[0]] + Join(rest);
      }
    }
  }

  predicate IsFence(line: string) { "```" <= Strip(line) }

  /** A line outside fences, a fenced block with its two marker lines, or a fence
      that is never closed. */
  datatype Block =
    | Line(text: string)
    | Fenced(open: string, body: seq<string>, close: string)
    | Unclosed(open: string, body: seq<string>)

  datatype Fence = Fence(open: string, body: seq<string>)

  function Blocks(lines: seq<string>, fence: Option<Fence>): seq<Block>
    decreases |lines|
  {
    if lines == [] then
      if fence.None? then [] else [Unclosed(fence.value.open, fence.value.body)]
    else if IsFence(lines[0]) then
      if fence.None? then Blocks(lines[1..], Some(Fence(lines[0], [])))
      else [Fenced(fence.value.open, fence.value.body, lines[0])] + Blocks(lines[1..], None)
    else
      if fence.None? then [Line(lines[0])] + Blocks(lines[1..], None)
      else Blocks(lines[1..], Some(fence.value.(body := fence.value.body + [lines[0]])))
  }

  /** The lists of a list's elements, one after another. */
  function FlatMap<T>(f: T -> seq<string>, xs: seq<T>): seq<string> {
    if xs == [] then [] else f(xs[0]) + FlatMap(f, xs[1..])
  }

  lemma FlatMapCons<T>(f: T -> seq<string>, x: T, xs: seq<T>)
    ensures FlatMap(f, [x] + xs) == f(x) + FlatMap(f, xs)
  {
    assert ([x] + xs)[1..] == xs;
  }

  /** The lines a block came from. */
  function BlockLines(b: Block): seq<string> {
    match b
    case Line(text) => [text]
    case Fenced(open, body, close) => [open] + body + [close]
    case Unclosed(open, body) => [open] + body
  }

  /** What a reader is to see of it. */
  function BlockText(b: Block): seq<string> {
    match b
    case Line(text) => [LineText(text)]
    case Fenced(_, body, _) => [Join(body)]
    case Unclosed(_, body) => ["```"] + body
  }

  function Escaped(lines: seq<string>): seq<string> {
    if lines == [] then [] else [Escape(lines[0])] + Escaped(lines[1..])
  }

  function PreHtml(body: seq<string>): string { "<pre>" + Escape(Join(body)) + "</pre>" }

  function BlockHtml(b: Block): seq<string> {
    match b
    case Line(text) => [LineHtml(text)]
    case Fenced(_, body, _) => [PreHtml(body)]
    case Unclosed(_, body) => [Escape("```")] + Escaped(body)
  }

  function Pending(fence: Option<Fence>): seq<string> {
    if fence.None? then [] else [fence.value.open] + fence.value.body
  }

  /** The blocks are the lines, all of them and in order. */
  lemma {:induction false} BlocksKeepLines(lines: seq<string>, fence: Option<Fence>)
    ensures FlatMap(BlockLines, Blocks(lines, fence)) == Pending(fence) + lines
    decreases |lines|
  {
    if lines == [] {
      if fence.Some? {
        FlatMapCons(BlockLines, Unclosed(fence.value.open, fence.value.body), []);
      }
    } else if IsFence(lines[0]) {
      if fence.None? {
        BlocksKeepLines(lines[1..], Some(Fence(lines[0], [])));
      } else {
        BlocksKeepLines(lines[1..], None);
        FlatMapCons(BlockLines, Fenced(fence.value.open, fence.value.body, lines[0]), Blocks(lines[1..], None));
      }
    } else {
      if fence.None? {
        BlocksKeepLines(lines[1..], None);
        FlatMapCons(BlockLines, Line(lines[0]), Blocks(lines[1..], None));
      } else {
        BlocksKeepLines(lines[1..], Some(fence.value.(body := fence.value.body + [lines[0]])));
      }
    }
  }

  predicate WellFormed(b: Block) {
    match b
    case Line(text) => !IsFence(text)
    case Fenced(open, body, close) => IsFence(open) && IsFence(close) && forall l | l in body :: !IsFence(l)
    case Unclosed(open, body) => IsFence(open) && forall l | l in body :: !IsFence(l)
  }

  /** Fence markers open and close blocks in turn; no other line does. */
  lemma {:induction false} BlocksAreFences(lines: seq<string>, fence: Option<Fence>)
    requires fence.Some? ==> WellFormed(Unclosed(fence.value.open, fence.value.body))
    ensures forall b | b in Blocks(lines, fence) :: WellFormed(b)
    decreases |lines|
  {
    if lines != [] {
      if IsFence(lines[0]) {
        BlocksAreFences(lines[1..], if fence.None? then Some(Fence(lines[0], [])) else None);
      } else {
        BlocksAreFences(lines[1..],
          if fence.None? then None else Some(fence.value.(body := fence.value.body + [lines[0]])));
      }
    }
  }

  /** A text's meaning: its HTML, and what a reader of that is to see. */
  function TextBlocks(text: string): seq<Block> { Blocks(Split(text), None) }

  function MessageHtml(text: string): string { Join(FlatMap(BlockHtml, TextBlocks(text))) }

  function MessageText(text: string): string { Join(FlatMap(BlockText, TextBlocks(text))) }

  // ------------------------------------------------------------ reading the whole

  ghost predicate AllRead(htmls: seq<string>, texts: seq<string>) {
    |htmls| == |texts| && forall k | 0 <= k < |htmls| :: Reads(htmls[k], Top, texts[k])
  }

  lemma {:induction false} EscapedRead(lines: seq<string>)
    ensures AllRead(Escaped(lines), lines)
  {
    if lines != [] {
      EscapedRead(lines[1..]);
      ReadsEscaped(lines[0], Top);
    }
  }

  lemma OneRead(html: string, text: string)
    requires Reads(html, Top, text)
    ensures AllRead([html], [text])
  {
  }

  lemma FirstRead(html: string, text: string, htmls: seq<string>, texts: seq<string>)
    requires Reads(html, Top, text) && AllRead(htmls, texts)
    ensures AllRead([html] + htmls, [text] + texts)
  {
  }

  lemma BlockReads(b: Block)
    ensures AllRead(BlockHtml(b), BlockText(b))
  {
    match b {
      case Line(text) =>
        LineReads(text);
        OneRead(LineHtml(text), LineText(text));
      case Fenced(_, body, _) =>
        ReadsPre(Join(body));
        OneRead(PreHtml(body), Join(body));
      case Unclosed(_, body) =>
        ReadsEscaped("```", Top);
        EscapedRead(body);
        FirstRead(Escape("```"), "```", Escaped(body), body);
    }
  }

  lemma {:induction false} BlocksRead(bs: seq<Block>)
    ensures AllRead(FlatMap(BlockHtml, bs), FlatMap(BlockText, bs))
  {
    if bs != [] {
      BlockReads(bs[0]);
      BlocksRead(bs[1..]);
    }
  }

  lemma {:induction false} JoinReads(htmls: seq<string>, texts: seq<string>)
    requires AllRead(htmls, texts)
    ensures Reads(Join(htmls), Top, Join(texts))
  {
    if htmls == [] {
      ReadsEmpty(Top);
    } else if |htmls| > 1 {
      JoinReads(htmls[1..], texts[1..]);
      ReadsEscaped("\n", Top);
      assert Escape("\n") == "\n";
      ReadsCat(htmls[0], "\n", Top, texts[0], "\n");
      ReadsCat(htmls[0] + "\n", Join(htmls[1..]), Top, texts[0] + "\n", Join(texts[1..]));
    }
  }

  /** Whatever the text, its HTML has only known tags, properly nested and closed,
      no stray `<`, `>` or `&`, and shows the text's meaning; the meaning's blocks
      are the text itself. */
  lemma MessageReads(text: string)
    ensures Lex(MessageHtml(text)).Some? && Balanced(Lex(MessageHtml(text)).value)
    ensures Shown(Lex(MessageHtml(text)).value) == MessageText(text)
    ensures Join(FlatMap(BlockLines, TextBlocks(text))) == text
    ensures forall b | b in TextBlocks(text) :: WellFormed(b)
  {
    BlocksRead(TextBlocks(text));
    JoinReads(FlatMap(BlockHtml, TextBlocks(text)), FlatMap(BlockText, TextBlocks(text)));
    BlocksKeepLines(Split(text), None);
    assert Pending(None) + Split(text) == Split(text);
    JoinSplit(text);
    BlocksAreFences(Split(text), None);
  }

  // ------------------------------------------------------------ a fence left open

  lemma {:induction false} FlatMapSnoc<T>(f: T -> seq<string>, xs: seq<T>, y: T)
    ensures FlatMap(f, xs + [y]) == FlatMap(f, xs) + f(y)
  {
    if xs == [] {
      assert xs + [y] == [y];
      FlatMapCons(f, y, []);
      assert f(y) + [] == f(y);
    } else {
      FlatMapSnoc(f, xs[1..], y);
      assert xs + [y] == [xs[0]] + (xs[1..] + [y]);
      FlatMapCons(f, xs[0], xs[1..] + [y]);
      Assoc(f(xs[0]), FlatMap(f, xs[1..]), f(y));
    }
  }

  function Broken(lines: seq<string>): string {
    if lines == [] then "" else lines[0] + "\n" + Broken(lines[1..])
  }

  function Behind(lines: seq<string>): string { if lines == [] then "" else "\n" + Join(lines) }

  lemma JoinCons(line: string, rest: seq<string>)
    requires rest != []
    ensures Join([line] + rest) == line + "\n" + Join(rest)
  {
    assert ([line] + rest)[1..] == rest;
  }

  lemma JoinFirst(x: string, behind: seq<string>)
    ensures Join([x] + behind) == x + Behind(behind)
  {
    if behind == [] {
      assert [x] + behind == [x] && x + "" == x;
    } else {
      JoinCons(x, behind);
      Assoc(x, "\n", Join(behind));
    }
  }

  lemma JoinNext(line: string, tail: seq<string>, broken: string, x: string, behind: string)
    requires tail != [] && Join(tail) == broken + x + behind
    ensures Join([line] + tail) == (line + "\n" + broken) + x + behind
  {
    JoinCons(line, tail);
    MoveIn(line + "\n", broken, x, behind);
  }

  /** A line in its text: what is before it, itself, and what is behind. */
  lemma {:induction false} JoinAround(before: seq<string>, x: string, behind: seq<string>)
    ensures Join(before + ([x] + behind)) == Broken(before) + x + Behind(behind)
  {
    var tail := [x] + behind;
    if before == [] {
      assert before + tail == tail;
      assert Broken(before) + x == x;
      JoinFirst(x, behind);
    } else {
      var line, rest := before[0], before[1..];
      JoinAround(rest, x, behind);
      Uncons(before, tail);
      JoinNext(line, rest + tail, Broken(rest), x, Behind(behind));
    }
  }

  lemma JoinTells(before: seq<string>, x: string, y: string, behind: seq<string>)
    ensures Join(before + ([x] + behind)) == Join(before + ([y] + behind)) <==> x == y
  {
    var pre, post := Broken(before), Behind(behind);
    JoinAround(before, x, behind);
    JoinAround(before, y, behind);
    if pre + x + post == pre + y + post {
      assert |x| == |y|;
      assert x == (pre + x + post)[|pre|..|pre| + |x|];
      assert y == (pre + y + post)[|pre|..|pre| + |y|];
    }
  }

  /** A text that ends in a fence never closed is shown with the fence's lines as they
      were written if and only if its opening line is the bare marker: anything else on
      that line is dropped. */
  lemma UnclosedFenceShown(text: string, before: seq<Block>, open: string, body: seq<string>)
    requires TextBlocks(text) == before + [Unclosed(open, body)]
    ensures MessageText(text) == Join(FlatMap(BlockText, before) + ([open] + body)) <==> open == "```"
  {
    FlatMapSnoc(BlockText, before, Unclosed(open, body));
    JoinTells(FlatMap(BlockText, before), "```", open, body);
  }

  lemma {:induction false} SplitAt(line: string, rest: string)
    requires '\n' !in line
    ensures Split(line + "\n" + rest) == [line] + Split(rest)
    decreases |line|
  {
    var text := line + "\n" + rest;
    if line == "" {
      assert text[1..] == rest;
    } else {
      SplitAt(line[1..], rest);
      assert text[1..] == line[1..] + "\n" + rest;
      var tail := [line[1..]] + Split(rest);
      assert tail[0] == line[1..] && tail[1..] == Split(rest) && [line[0]] + line[1..] == line;
    }
  }

  lemma {:induction false} SplitLine(line: string)
    requires '\n' !in line
    ensures Split(line) == [line]
    decreases |line|
  {
    if line != "" {
      SplitLine(line[1..]);
      assert [line[0]] + line[1..] == line;
    }
  }

  /** Such a text: an opening line that names a language, and a line of code. */
  lemma UnclosedFenceLosesLanguage(open: string, code: string)
    requires '\n' !in open && '\n' !in code && IsFence(open) && !IsFence(code)
    ensures TextBlocks(open + "\n" + code) == [Unclosed(open, [code])]
    ensures MessageText(open + "\n" + code) == "```" + "\n" + code
  {
    SplitAt(open, code);
    SplitLine(code);
    UnclosedBlocks(open, code);
    var block := Unclosed(open, [code]);
    FlatMapCons(BlockText, block, []);
    assert [block] + [] == [block] && BlockText(block) + [] == BlockText(block);
    JoinCons("```", [code]);
  }

  lemma UnclosedBlocks(open: string, code: string)
    requires IsFence(open) && !IsFence(code)
    ensures Blocks([open] + [code], None) == [Unclosed(open, [code])]
  {
    var lines, fence := [open] + [code], Some(Fence(open, []));
    assert lines[1..] == [code] && [code][1..] == [] && [] + [code] == [code];
    BlocksNext(lines, None);
    BlocksNext([code], fence);
    assert FenceBehind(code, fence) == Some(Fence(open, [code]));
    assert Blocks([], Some(Fence(open, [code]))) == [Unclosed(open, [code])];
  }

  /** One that names Python is shown as if it did not. */
  lemma PythonFenceLosesItsName(code: string)
    requires '\n' !in code && !IsFence(code)
    ensures TextBlocks("```py\n" + code) == [Unclosed("```py", [code])]
    ensures MessageText("```py\n" + code) == "```\n" + code
  {
    assert Strip("```py") == "```py";
    assert "```py" + "\n" == "```py\n" && "```" + "\n" == "```\n";
    UnclosedFenceLosesLanguage("```py", code);
  }

  // ------------------------------------------------------------ the renderer

  lemma MoveIn(h: string, a: string, b: string, rest: string)
    ensures h + (a + b + rest) == (h + a + b) + rest
  {
  }

  /** What a scan returns from position `i`, with `html` written and `literal`
      held back: pieces are written with `f`, the text between with `flush`. */
  function Scan<T>(
    f: T -> string, flush: string -> string, mark: nat -> Option<Marked<T>>,
    line: string, html: string, literal: string, i: nat): string
    requires i <= |line| && Forward(mark, |line|)
    decreases |line| - i
  {
    if i == |line| then html + flush(literal)
    else match mark(i)
      case Some(m) => Scan(f, flush, mark, line, html + flush(literal) + f(m.piece), "", m.after)
      case None => Scan(f, flush, mark, line, html, literal + [line[i]], i + 1)
  }

  /** Pieces marked at the same places and written the same, whatever their type. */
  ghost predicate Writes<S, T>(
    g: S -> string, flat: string -> S, pieces: nat -> Option<Marked<S>>,
    f: T -> string, flush: string -> string, mark: nat -> Option<Marked<T>>)
  {
    && (forall text: string :: flush(text) == if text == "" then "" else g(flat(text)))
    && forall k: nat :: SameMark(g, pieces(k), f, mark(k))
  }

  predicate SameMark<S, T>(g: S -> string, x: Option<Marked<S>>, f: T -> string, y: Option<Marked<T>>) {
    match x
    case None => y.None?
    case Some(m) => y.Some? && y.value.after == m.after && f(y.value.piece) == g(m.piece)
  }

  lemma PastPiece<S>(
    g: S -> string, flat: string -> S, flush: string -> string, html: string, text: string, x: S, rest: seq<S>)
    requires flush(text) == if text == "" then "" else g(flat(text))
    ensures (html + flush(text) + g(x)) + Cat(g, rest) == html + Cat(g, Held(flat, text) + [x] + rest)
  {
    CatHeld(g, flat, text);
    CatThree(g, Held(flat, text), x, rest);
    MoveIn(html, flush(text), g(x), Cat(g, rest));
  }

  lemma {:induction false} ScanIs<S, T>(
    g: S -> string, flat: string -> S, pieces: nat -> Option<Marked<S>>,
    f: T -> string, flush: string -> string, mark: nat -> Option<Marked<T>>,
    line: string, html: string, start: nat, i: nat)
    requires start <= i <= |line| && Forward(pieces, |line|) && Forward(mark, |line|)
    requires Writes(g, flat, pieces, f, flush, mark)
    ensures Scan(f, flush, mark, line, html, line[start..i], i) == html + Cat(g, Lay(flat, pieces, line, start, i))
    decreases |line| - i
  {
    var literal := line[start..i];
    if i == |line| {
      CatHeld(g, flat, literal);
    } else {
      assert SameMark(g, pieces(i), f, mark(i));
      match pieces(i) {
        case Some(m) =>
          ScanIs(g, flat, pieces, f, flush, mark, line, html + flush(literal) + g(m.piece), m.after, m.after);
          assert line[m.after..m.after] == "";
          PastPiece(g, flat, flush, html, literal, m.piece, Lay(flat, pieces, line, m.after, m.after));
        case None =>
          ScanIs(g, flat, pieces, f, flush, mark, line, html, start, i + 1);
          assert line[start..i + 1] == literal + [line[i]];
      }
    }
  }

  lemma {:induction false} ScanNoMarks<T>(
    f: T -> string, flush: string -> string, mark: nat -> Option<Marked<T>>,
    line: string, html: string, start: nat, i: nat, j: nat)
    requires start <= i <= j <= |line| && Forward(mark, |line|) && forall k | i <= k < j :: mark(k).None?
    ensures Same(Scan(f, flush, mark, line, html, line[start..i], i),
      Scan(f, flush, mark, line, html, line[start..j], j))
    decreases j - i
  {
    if i < j {
      ScanNoMarks(f, flush, mark, line, html, start, i + 1, j);
      assert line[start..i + 1] == line[start..i] + [line[i]];
    }
  }

  predicate Same(s: string, t: string) { s == t }

  /** Past the mark at `i`, and on to `j` when no mark stands up to there. */
  lemma PastMark<T>(
    f: T -> string, flush: string -> string, mark: nat -> Option<Marked<T>>,
    line: string, html: string, literal: string, i: nat, more: string, after: nat, j: nat)
    requires i < after <= j <= |line| && Forward(mark, |line|)
    requires mark(i).Some? && mark(i).value.after == after && forall k | after <= k < j :: mark(k).None?
    requires more == html + flush(literal) + f(mark(i).value.piece)
    ensures Same(Scan(f, flush, mark, line, more, line[after..j], j), Scan(f, flush, mark, line, html, literal, i))
  {
    ScanNoMarks(f, flush, mark, line, more, after, after, j);
    assert line[after..after] == "";
  }

  // ------------------------------------------------------------ literal text

  lemma LinksWrite(text: string)
    ensures Writes(PartHtml, WordsOf, LinkMarks(text), PartHtml, Escape, LinkMarks(text))
  {
  }

  /** What stands at `i`: no URL, or one up to `j`, none beginning in its trail. */
  ghost predicate UrlAt(marks: nat -> Option<Marked<Part>>, i: nat, j: nat, url: string) {
    if j == i then marks(i).None?
    else
      && marks(i) == Some(Marked(Link(url), i + |url|))
      && i < i + |url| <= j
      && forall k | i + |url| <= k < j :: marks(k).None?
  }

  ghost predicate UrlsMarked(text: string, marks: nat -> Option<Marked<Part>>) {
    && Forward(marks, |text|)
    && forall i: nat | i < |text| :: UrlAt(marks, i, UrlEnd(text, i), TrimUrl(text[i..UrlEnd(text, i)]))
  }

  lemma UrlFound(text: string, i: nat)
    requires i < |text|
    ensures UrlAt(LinkMarks(text), i, UrlEnd(text, i), TrimUrl(text[i..UrlEnd(text, i)]))
  {
    var j := UrlEnd(text, i);
    if j > i {
      LinkMarkQuotes(text, i);
      forall k | i + |TrimUrl(text[i..j])| <= k < j ensures LinkMarks(text)(k).None? {
        NoLinkInTrail(text, i, k);
      }
    }
  }

  /** The marks the scan for URLs follows. */
  lemma TextScan(text: string) returns (marks: nat -> Option<Marked<Part>>)
    ensures UrlsMarked(text, marks) && Scan(PartHtml, Escape, marks, text, "", "", 0) == TextHtml(text)
  {
    marks := LinkMarks(text);
    LinksQuote(text);
    LinksWrite(text);
    ScanIs(PartHtml, WordsOf, marks, PartHtml, Escape, marks, text, "", 0, 0);
    forall i: nat | i < |text|
      ensures UrlAt(marks, i, UrlEnd(text, i), TrimUrl(text[i..UrlEnd(text, i)]))
    {
      UrlFound(text, i);
    }
  }

  /** The text before the URL at `i`, and the URL, written after `html`. */
  method WriteLink(text: string, ghost marks: nat -> Option<Marked<Part>>, html: string, last: nat, i: nat, j: nat)
    returns (more: string, after: nat)
    requires last <= i < |text| && i < j == UrlEnd(text, i) && UrlsMarked(text, marks)
    ensures marks(i).Some? && i < after <= j && marks(i).value.after == after
    ensures forall k | after <= k < j :: marks(k).None?
    ensures more == html + Escape(text[last..i]) + PartHtml(marks(i).value.piece)
  {
    var url := TrimUrl(text[i..j]);
    assert UrlAt(marks, i, j, url);
    after := i + |url|;
    more := html + Escape(text[last..i]) + PartHtml(Link(url));
  }

  lemma NoUrlAt(text: string, marks: nat -> Option<Marked<Part>>, i: nat)
    requires i < |text| && UrlsMarked(text, marks) && UrlEnd(text, i) == i
    ensures marks(i).None?
  {
    assert UrlAt(marks, i, i, TrimUrl(text[i..i]));
  }

  /** One turn of the scan: on to the next match, or past the one that begins here. */
  method TextTurn(text: string, ghost marks: nat -> Option<Marked<Part>>, html: string, last: nat, i: nat)
    returns (html': string, last': nat, i': nat)
    requires last <= i < |text| && UrlsMarked(text, marks)
    ensures last' <= i' <= |text| && i < i'
    ensures Same(Scan(PartHtml, Escape, marks, text, html', text[last'..i'], i'),
                 Scan(PartHtml, Escape, marks, text, html, text[last..i], i))
  {
    i' := UrlEnd(text, i);
    if i' == i {
      NoUrlAt(text, marks, i);
      ScanNoMarks(PartHtml, Escape, marks, text, html, last, i, i + 1);
      return html, last, i + 1;
    }
    html', last' := WriteLink(text, marks, html, last, i, i');
    PastMark(PartHtml, Escape, marks, text, html, text[last..i], i, html', last', i');
  }

  method RenderText(text: string) returns (html: string)
    ensures html == TextHtml(text)
  {
    html := "";
    var last: nat, i: nat := 0, 0;
    ghost var marks := TextScan(text);
    while i < |text|
      invariant last <= i <= |text|
      invariant Scan(PartHtml, Escape, marks, text, html, text[last..i], i) == TextHtml(text)
      decreases |text| - i
    {
      html, last, i := TextTurn(text, marks, html, last, i);
    }
    assert text[last..] == text[last..i];
    html := html + Escape(text[last..]);
  }

  // ------------------------------------------------------------ spans

  function Flushed(literal: string): string {
    if literal == "" then "" else TextHtml(literal)
  }

  method Flush(html: string, literal: string) returns (more: string)
    ensures more == html + Flushed(literal)
  {
    more := html;
    if literal != "" {
      var text := RenderText(literal);
      more := html + text;
    }
  }

  /** The mark at `i` of a line, or of a phrase without bold. */
  function LineMark(line: string, bold: bool, i: nat): Option<Marked<Span>> {
    if bold then SpanMark(line, i)
    else
      var m := InlineMark(line, i);
      if m.Some? then Some(Marked(Flat(m.value.piece), m.value.after)) else None
  }

  function LineMarks(line: string, bold: bool): nat -> Option<Marked<Span>> { (k: nat) => LineMark(line, bold, k) }

  lemma LineMarksForward(line: string, bold: bool)
    ensures Forward(LineMarks(line, bold), |line|)
  {
    SpanMarksForward(line);
    InlineMarksForward(line);
  }

  /** The HTML of a line's spans, or of a phrase without bold. */
  function SpansHtml(line: string, bold: bool): string {
    if bold then Cat(SpanHtml, Spans(line)) else Cat(InlineHtml, Inlines(line))
  }

  lemma SpansWrite(line: string)
    ensures Writes(SpanHtml, LitSpan, SpanMarks(line), SpanHtml, Flushed, LineMarks(line, true))
  {
    forall k: nat ensures SameMark(SpanHtml, SpanMarks(line)(k), SpanHtml, LineMarks(line, true)(k)) {
    }
  }

  lemma InlinesWrite(line: string)
    ensures Writes(InlineHtml, LitInline, InlineMarks(line), SpanHtml, Flushed, LineMarks(line, false))
  {
    forall k: nat ensures SameMark(InlineHtml, InlineMarks(line)(k), SpanHtml, LineMarks(line, false)(k)) {
    }
  }

  lemma ScanSpans(line: string)
    ensures Forward(LineMarks(line, true), |line|)
    ensures Scan(SpanHtml, Flushed, LineMarks(line, true), line, "", "", 0) == SpansHtml(line, true)
  {
    LineMarksForward(line, true);
    SpanMarksForward(line);
    SpansWrite(line);
    ScanIs(SpanHtml, LitSpan, SpanMarks(line), SpanHtml, Flushed, LineMarks(line, true), line, "", 0, 0);
  }

  lemma ScanInlines(line: string)
    ensures Forward(LineMarks(line, false), |line|)
    ensures Scan(SpanHtml, Flushed, LineMarks(line, false), line, "", "", 0) == SpansHtml(line, false)
  {
    LineMarksForward(line, false);
    InlineMarksForward(line);
    InlinesWrite(line);
    ScanIs(InlineHtml, LitInline, InlineMarks(line), SpanHtml, Flushed, LineMarks(line, false), line, "", 0, 0);
  }

  predicate MarkIs(marks: nat -> Option<Marked<Span>>, i: nat, piece: Span, after: nat) {
    marks(i) == Some(Marked(piece, after))
  }

  predicate Agrees(f: Span -> string, flush: string -> string, x: Span, text: string) {
    f(x) == SpanHtml(x) && flush(text) == Flushed(text)
  }

  ghost predicate WritesHtml(f: Span -> string, flush: string -> string) {
    forall x: Span, text: string :: Agrees(f, flush, x, text)
  }

  /** `more` is `html`, the text held back and a piece. */
  predicate Wrote(f: Span -> string, flush: string -> string, more: string, html: string,
    literal: string, piece: Span) {
    more == html + flush(literal) + f(piece)
  }

  /** What stands at `i`: a code span, a bold phrase, or nothing. */
  ghost predicate SpanAt(line: string, bold: bool, marks: nat -> Option<Marked<Span>>, i: nat)
    requires i < |line|
  {
    if line[i] == '`' then
      var end := FindTick(line, i + 1);
      if end > i + 1 then MarkIs(marks, i, Flat(CodeSpan(line[i + 1..end])), end + 1) else marks(i).None?
    else if line[i] == '*' && bold then
      var n := StarsOf(line, i);
      var end := FindStars(line, n, i + n);
      if end > i + n then MarkIs(marks, i, Bold(n, line[i + n..end]), end + n) else marks(i).None?
    else marks(i).None?
  }

  lemma SpanFound(line: string, bold: bool, i: nat)
    requires i < |line|
    ensures SpanAt(line, bold, LineMarks(line, bold), i)
  {
  }

  ghost predicate SpansMarked(line: string, bold: bool, marks: nat -> Option<Marked<Span>>) {
    Forward(marks, |line|) && forall i: nat | i < |line| :: SpanAt(line, bold, marks, i)
  }

  /** The marks the scan for spans follows. */
  lemma SpansScan(line: string, bold: bool)
    returns (f: Span -> string, flush: string -> string, marks: nat -> Option<Marked<Span>>)
    ensures WritesHtml(f, flush) && SpansMarked(line, bold, marks)
    ensures Scan(f, flush, marks, line, "", "", 0) == SpansHtml(line, bold)
  {
    f, flush, marks := SpanHtml, Flushed, LineMarks(line, bold);
    if bold {
      ScanSpans(line);
    } else {
      ScanInlines(line);
    }
    forall i: nat | i < |line| ensures SpanAt(line, bold, marks, i) {
      SpanFound(line, bold, i);
    }
  }

  lemma NoSpanAt(line: string, bold: bool, marks: nat -> Option<Marked<Span>>, i: nat)
    requires i < |line| && SpansMarked(line, bold, marks)
    requires line[i] == '`' ==> FindTick(line, i + 1) <= i + 1
    requires line[i] == '*' && bold ==> FindStars(line, StarsOf(line, i), i + StarsOf(line, i)) <= i + StarsOf(line, i)
    ensures marks(i).None?
  {
    assert SpanAt(line, bold, marks, i);
  }

  method WriteCode(ghost f: Span -> string, ghost flush: string -> string, html: string, literal: string, code: string)
    returns (more: string)
    requires WritesHtml(f, flush)
    ensures Wrote(f, flush, more, html, literal, Flat(CodeSpan(code)))
  {
    assert Agrees(f, flush, Flat(CodeSpan(code)), literal);
    more := Flush(html, literal);
    more := more + ("<code>" + Escape(code) + "</code>");
  }

  method WriteBold(ghost f: Span -> string, ghost flush: string -> string, html: string, literal: string,
                   n: nat, phrase: string) returns (more: string)
    requires WritesHtml(f, flush)
    ensures Wrote(f, flush, more, html, literal, Bold(n, phrase))
    decreases true, 0
  {
    assert Agrees(f, flush, Bold(n, phrase), literal);
    more := Flush(html, literal);
    var inner := RenderSpans(phrase, false);
    more := more + ("<b>" + inner + "</b>");
  }

  /** Past the span at `i`, once it is written. */
  lemma PastSpan(f: Span -> string, flush: string -> string, line: string, marks: nat -> Option<Marked<Span>>,
                 html: string, literal: string, i: nat, more: string, piece: Span, after: nat)
    requires i < after <= |line| && Forward(marks, |line|) && MarkIs(marks, i, piece, after)
    requires Wrote(f, flush, more, html, literal, piece)
    ensures Same(Scan(f, flush, marks, line, more, "", after),
                 Scan(f, flush, marks, line, html, literal, i))
  {
    PastMark(f, flush, marks, line, html, literal, i, more, after, after);
    assert line[after..after] == "";
  }

  lemma CodeAt(line: string, bold: bool, marks: nat -> Option<Marked<Span>>, i: nat, end: nat)
    requires i < |line| && SpansMarked(line, bold, marks)
    requires line[i] == '`' && i + 1 < end == FindTick(line, i + 1)
    ensures MarkIs(marks, i, Flat(CodeSpan(line[i + 1..end])), end + 1)
  {
    assert SpanAt(line, bold, marks, i);
  }

  lemma BoldAt(line: string, marks: nat -> Option<Marked<Span>>, i: nat, n: nat, end: nat)
    requires i < |line| && SpansMarked(line, true, marks)
    requires line[i] == '*' && n == StarsOf(line, i) && i + n < end == FindStars(line, n, i + n)
    ensures MarkIs(marks, i, Bold(n, line[i + n..end]), end + n)
  {
    assert SpanAt(line, true, marks, i);
  }

  lemma PastCode(f: Span -> string, flush: string -> string, line: string, bold: bool,
                 marks: nat -> Option<Marked<Span>>,
                 html: string, literal: string, i: nat, more: string, end: nat)
    requires i < |line| && SpansMarked(line, bold, marks)
    requires line[i] == '`' && i + 1 < end == FindTick(line, i + 1)
    requires Wrote(f, flush, more, html, literal, Flat(CodeSpan(line[i + 1..end])))
    ensures Same(Scan(f, flush, marks, line, more, "", end + 1),
                 Scan(f, flush, marks, line, html, literal, i))
  {
    CodeAt(line, bold, marks, i, end);
    PastSpan(f, flush, line, marks, html, literal, i, more, Flat(CodeSpan(line[i + 1..end])), end + 1);
  }

  lemma PastBold(f: Span -> string, flush: string -> string, line: string, marks: nat -> Option<Marked<Span>>,
                 html: string, literal: string, i: nat, more: string, n: nat, end: nat)
    requires i < |line| && SpansMarked(line, true, marks)
    requires line[i] == '*' && n == StarsOf(line, i) && i + n < end == FindStars(line, n, i + n)
    requires Wrote(f, flush, more, html, literal, Bold(n, line[i + n..end]))
    ensures Same(Scan(f, flush, marks, line, more, "", end + n),
                 Scan(f, flush, marks, line, html, literal, i))
  {
    BoldAt(line, marks, i, n, end);
    PastSpan(f, flush, line, marks, html, literal, i, more, Bold(n, line[i + n..end]), end + n);
  }

  lemma PastOther(f: Span -> string, flush: string -> string, line: string, marks: nat -> Option<Marked<Span>>,
                  html: string, literal: string, i: nat)
    requires i < |line| && Forward(marks, |line|) && marks(i).None?
    ensures Same(Scan(f, flush, marks, line, html, literal + [line[i]], i + 1),
                 Scan(f, flush, marks, line, html, literal, i))
  {
  }

  method CodeTurn(ghost f: Span -> string, ghost flush: string -> string,
                  line: string, bold: bool, ghost marks: nat -> Option<Marked<Span>>,
                  html: string, literal: string, i: nat, end: nat) returns (more: string)
    requires WritesHtml(f, flush) && i < |line| && SpansMarked(line, bold, marks)
    requires line[i] == '`' && i + 1 < end == FindTick(line, i + 1)
    ensures Same(Scan(f, flush, marks, line, more, "", end + 1),
                 Scan(f, flush, marks, line, html, literal, i))
  {
    more := WriteCode(f, flush, html, literal, line[i + 1..end]);
    PastCode(f, flush, line, bold, marks, html, literal, i, more, end);
  }

  method BoldTurn(ghost f: Span -> string, ghost flush: string -> string,
                  line: string, ghost marks: nat -> Option<Marked<Span>>,
                  html: string, literal: string, i: nat, n: nat, end: nat) returns (more: string)
    requires WritesHtml(f, flush) && i < |line| && SpansMarked(line, true, marks)
    requires line[i] == '*' && n == StarsOf(line, i) && i + n < end == FindStars(line, n, i + n)
    ensures Same(Scan(f, flush, marks, line, more, "", end + n),
                 Scan(f, flush, marks, line, html, literal, i))
    decreases true, 1
  {
    more := WriteBold(f, flush, html, literal, n, line[i + n..end]);
    PastBold(f, flush, line, marks, html, literal, i, more, n, end);
  }

  /** One turn of the scan: a span written, or a character held back. */
  method Turn(ghost f: Span -> string, ghost flush: string -> string,
              line: string, bold: bool, ghost marks: nat -> Option<Marked<Span>>,
              html: string, literal: string, i: nat) returns (html': string, literal': string, i': nat)
    requires WritesHtml(f, flush) && i < |line| && SpansMarked(line, bold, marks)
    ensures i < i' <= |line|
    ensures Same(Scan(f, flush, marks, line, html', literal', i'),
                 Scan(f, flush, marks, line, html, literal, i))
    decreases bold, 2
  {
    if line[i] == '`' {
      var end := FindTick(line, i + 1);
      if end > i + 1 {
        html' := CodeTurn(f, flush, line, bold, marks, html, literal, i, end);
        return html', "", end + 1;
      }
    } else if line[i] == '*' && bold {
      var n := StarsOf(line, i);
      var end := FindStars(line, n, i + n);
      if end > i + n {
        html' := BoldTurn(f, flush, line, marks, html, literal, i, n, end);
        return html', "", end + n;
      }
    }
    NoSpanAt(line, bold, marks, i);
    PastOther(f, flush, line, marks, html, literal, i);
    return html, literal + [line[i]], i + 1;
  }

  method RenderSpans(line: string, bold: bool) returns (html: string)
    ensures html == SpansHtml(line, bold)
    decreases bold, 3
  {
    html := "";
    var literal := "";
    var i: nat := 0;
    ghost var f, flush, marks := SpansScan(line, bold);
    while i < |line|
      invariant i <= |line| && Scan(f, flush, marks, line, html, literal, i) == SpansHtml(line, bold)
      decreases |line| - i
    {
      html, literal, i := Turn(f, flush, line, bold, marks, html, literal, i);
    }
    assert Agrees(f, flush, Flat(Lit(literal)), literal);
    html := Flush(html, literal);
  }

  lemma HeadlineHtml(line: string)
    requires IsHeadline(line)
    ensures LineHtml(line) == "<b>" + SpansHtml(line[1..|line| - 1], false) + "</b>"
  {
    CatOne(SpanHtml, Bold(1, line[1..|line| - 1]));
  }

  method RenderLine(line: string) returns (html: string)
    ensures html == LineHtml(line)
  {
    if |line| > 2 && line[0] == '*' && line[|line| - 1] == '*' && line[1] != '*' {
      var inner := line[1..|line| - 1];
      if (Strip(inner) != "" && Count(inner, '*') % 2 == 1) || ('*' !in inner && Strip(inner) != "") {
        HeadlineHtml(line);
        var spans := RenderSpans(inner, false);
        return "<b>" + spans + "</b>";
      }
    }
    html := RenderSpans(line, true);
  }

  /** What the pass over the lines returns, with `out` written and the body of an
      open fence held back. */
  function Emit(f: Block -> seq<string>, lines: seq<string>, out: seq<string>, fence: Option<Fence>): seq<string>
    decreases |lines|
  {
    if lines == [] then
      if fence.None? then out else out + f(Unclosed(fence.value.open, fence.value.body))
    else if IsFence(lines[0]) then
      if fence.None? then Emit(f, lines[1..], out, Some(Fence(lines[0], [])))
      else Emit(f, lines[1..], out + f(Fenced(fence.value.open, fence.value.body, lines[0])), None)
    else
      if fence.None? then Emit(f, lines[1..], out + f(Line(lines[0])), None)
      else Emit(f, lines[1..], out, Some(fence.value.(body := fence.value.body + [lines[0]])))
  }

  lemma EmitBlock(f: Block -> seq<string>, out: seq<string>, b: Block, rest: seq<Block>)
    ensures (out + f(b)) + FlatMap(f, rest) == out + FlatMap(f, [b] + rest)
  {
    FlatMapCons(f, b, rest);
    Assoc(out, f(b), FlatMap(f, rest));
  }

  lemma EmitAtEnd(f: Block -> seq<string>, out: seq<string>, fence: Option<Fence>)
    ensures Emit(f, [], out, fence) == out + FlatMap(f, Blocks([], fence))
  {
    if fence.Some? {
      EmitBlock(f, out, Unclosed(fence.value.open, fence.value.body), []);
      assert out + f(Unclosed(fence.value.open, fence.value.body)) + [] ==
        out + f(Unclosed(fence.value.open, fence.value.body));
    }
  }

  /** The next line, as the pass and the blocks take it: the block it ends, if any, and
      the fence open behind it. */
  function Ended(line: string, fence: Option<Fence>): seq<Block> {
    if IsFence(line) then if fence.None? then [] else [Fenced(fence.value.open, fence.value.body, line)]
    else if fence.None? then [Line(line)] else []
  }

  function FenceBehind(line: string, fence: Option<Fence>): Option<Fence> {
    if IsFence(line) then if fence.None? then Some(Fence(line, [])) else None
    else if fence.None? then None else Some(fence.value.(body := fence.value.body + [line]))
  }

  lemma BlocksNext(lines: seq<string>, fence: Option<Fence>)
    requires lines != []
    ensures Blocks(lines, fence) == Ended(lines[0], fence) + Blocks(lines[1..], FenceBehind(lines[0], fence))
  {
  }

  lemma EmitNext(f: Block -> seq<string>, lines: seq<string>, out: seq<string>, fence: Option<Fence>)
    requires lines != []
    ensures Emit(f, lines, out, fence) ==
            Emit(f, lines[1..], out + FlatMap(f, Ended(lines[0], fence)), FenceBehind(lines[0], fence))
  {
    var ended := Ended(lines[0], fence);
    if ended != [] {
      FlatMapCons(f, ended[0], []);
      assert f(ended[0]) + [] == f(ended[0]) && ended == [ended[0]] + [];
    }
    assert out + [] == out;
  }

  lemma FlatMapCat<T>(f: T -> seq<string>, xs: seq<T>, ys: seq<T>)
    requires |xs| <= 1
    ensures FlatMap(f, xs + ys) == FlatMap(f, xs) + FlatMap(f, ys)
  {
    if xs == [] {
      assert xs + ys == ys;
    } else {
      assert xs == [xs[0]] && xs[1..] == [];
      FlatMapCons(f, xs[0], ys);
    }
  }

  lemma {:induction false} EmitIs(
    f: Block -> seq<string>, lines: seq<string>, out: seq<string>, fence: Option<Fence>)
    ensures Emit(f, lines, out, fence) == out + FlatMap(f, Blocks(lines, fence))
    decreases |lines|
  {
    if lines == [] {
      EmitAtEnd(f, out, fence);
    } else {
      var ended, rest, behind := Ended(lines[0], fence), lines[1..], FenceBehind(lines[0], fence);
      EmitNext(f, lines, out, fence);
      EmitIs(f, rest, out + FlatMap(f, ended), behind);
      BlocksNext(lines, fence);
      FlatMapCat(f, ended, Blocks(rest, behind));
      Assoc(out, FlatMap(f, ended), FlatMap(f, Blocks(rest, behind)));
    }
  }

  function Opened(open: string, fence: Option<seq<string>>): Option<Fence> {
    if fence.None? then None else Some(Fence(open, fence.value))
  }

  method RenderLines(lines: seq<string>) returns (out: seq<string>)
    ensures out == FlatMap(BlockHtml, Blocks(lines, None))
  {
    out := [];
    var fence: Option<seq<string>> := None;
    ghost var open := "";
    for k := 0 to |lines|
      invariant Emit(BlockHtml, lines[k..], out, Opened(open, fence)) == Emit(BlockHtml, lines, [], None)
    {
      var line := lines[k];
      assert lines[k..][0] == line && lines[k..][1..] == lines[k + 1..];
      if IsFence(line) {
        if fence.None? {
          fence, open := Some([]), line;
        } else {
          out := out + [PreHtml(fence.value)];
          fence := None;
        }
      } else if fence.Some? {
        fence := Some(fence.value + [line]);
      } else {
        var rendered := RenderLine(line);
        out := out + [rendered];
      }
    }
    if fence.Some? {
      out := out + ([Escape("```")] + Escaped(fence.value));
    }
    EmitIs(BlockHtml, lines, [], None);
  }

  /** Every text rendered: well formed whatever it holds, and showing its meaning. */
  method Render(text: string) returns (html: string)
    ensures html == MessageHtml(text)
    ensures Lex(html).Some? && Balanced(Lex(html).value) && Shown(Lex(html).value) == MessageText(text)
  {
    var out := RenderLines(Split(text));
    html := Join(out);
    MessageReads(text);
  }
}
