/** A reader for the HTML a Telegram message may hold: four tags, three entities,
    and everything else literal. It is the reference the renderer is held to. */
module TelegramHtml {
  import opened Wrappers

  // ------------------------------------------------------------ escaping

  function EscapeChar(c: char): string {
    if c == '&' then "&amp;" else if c == '<' then "&lt;" else if c == '>' then "&gt;" else [c]
  }

  /** Literal text for a message. */
  function Escape(s: string): string {
    if s == "" then "" else EscapeChar(s[0]) + Escape(s[1..])
  }

  function EscapeAttrChar(c: char): string {
    if c == '"' then "&quot;" else if c == '\'' then "&#x27;" else EscapeChar(c)
  }

  /** Literal text inside a double-quoted attribute. */
  function EscapeAttr(s: string): string {
    if s == "" then "" else EscapeAttrChar(s[0]) + EscapeAttr(s[1..])
  }

  // ------------------------------------------------------------ reading

  datatype Tag = B | Code | Pre | A

  datatype Event = Open(tag: Tag) | OpenLink(href: string) | Close(tag: Tag) | Ch(c: char)

  /** The first event of a text and how many characters it takes. */
  datatype Token = Token(event: Event, size: nat)

  /** The index of the first `c`, or the length. */
  function IndexOf(s: string, c: char): (i: nat)
    ensures i <= |s| && (i < |s| ==> s[i] == c) && forall k | 0 <= k < i :: s[k] != c
  {
    if s == "" || s[0] == c then 0 else 1 + IndexOf(s[1..], c)
  }

  /** The characters that `entity`, from its `&` to its `;`, stands for. */
  function Entity(entity: string): Option<char> {
    if entity == "&amp;" then Some('&')
    else if entity == "&lt;" then Some('<')
    else if entity == "&gt;" then Some('>')
    else None
  }

  function AttrEntity(entity: string): Option<char> {
    if entity == "&quot;" then Some('"')
    else if entity == "&#x27;" then Some('\'')
    else Entity(entity)
  }

  /** The text an attribute's content stands for. */
  function ReadAttr(s: string): Option<string>
    decreases |s|
  {
    if s == "" then Some("")
    else
      var n := if s[0] == '&' then IndexOf(s, ';') + 1 else 1;
      if n > |s| then None
      else
        var c := if s[0] == '&' then AttrEntity(s[..n]) else Some(s[0]);
        var rest := ReadAttr(s[n..]);
        if c.None? || rest.None? then None else Some([c.value] + rest.value)
  }

  const LINK := "<a href=\""

  /** What `tag`, from its `<` to its `>`, means. */
  function Markup(tag: string): Option<Event> {
    if tag == "<b>" then Some(Open(B))
    else if tag == "</b>" then Some(Close(B))
    else if tag == "<code>" then Some(Open(Code))
    else if tag == "</code>" then Some(Close(Code))
    else if tag == "<pre>" then Some(Open(Pre))
    else if tag == "</pre>" then Some(Close(Pre))
    else if tag == "</a>" then Some(Close(A))
    else if |tag| >= |LINK| + 2 && tag[..|LINK|] == LINK && tag[|tag| - 2] == '"' then
      var content := tag[|LINK|..|tag| - 2];
      var href := ReadAttr(content);
      if '"' in content || href.None? then None else Some(OpenLink(href.value))
    else None
  }

  /** The next event of a text: nothing but a known tag may begin with `<`,
      nothing but a known entity with `&`, and no `>` stands alone. */
  function First(s: string): Option<Token> {
    if s == "" || s[0] == '>' then None
    else if s[0] == '<' then
      var n := IndexOf(s, '>') + 1;
      if n > |s| || Markup(s[..n]).None? then None else Some(Token(Markup(s[..n]).value, n))
    else if s[0] == '&' then
      var n := IndexOf(s, ';') + 1;
      if n > |s| || Entity(s[..n]).None? then None else Some(Token(Ch(Entity(s[..n]).value), n))
    else Some(Token(Ch(s[0]), 1))
  }

  type Reader = string -> Option<Token>

  /** All events of a text, read one after another with `first`. */
  function ReadAll(first: Reader, s: string): Option<seq<Event>>
    decreases |s|
  {
    if s == "" then Some([])
    else
      var t := first(s);
      if t.None? || !(0 < t.value.size <= |s|) then None
      else
        var rest := ReadAll(first, s[t.value.size..]);
        if rest.None? then None else Some([t.value.event] + rest.value)
  }

  const READER: Reader := s => First(s)

  function Lex(s: string): Option<seq<Event>> { ReadAll(READER, s) }

  /** What the reader makes of the start of a text does not depend on the rest. */
  ghost predicate Stable(first: Reader) {
    forall x, y {:trigger first(x + y)} :: first(x).Some? && 0 < first(x).value.size <= |x| ==> first(x + y) == first(x)
  }

  lemma {:induction false} ReadAllCat(first: Reader, x: string, y: string)
    requires Stable(first) && ReadAll(first, x).Some? && ReadAll(first, y).Some?
    ensures ReadAll(first, x + y) == Some(ReadAll(first, x).value + ReadAll(first, y).value)
    decreases |x|
  {
    if x == "" {
      assert x + y == y;
      assert [] + ReadAll(first, y).value == ReadAll(first, y).value;
    } else {
      var z, t := x + y, first(x).value;
      assert first(z) == Some(t);
      ReadAllCat(first, x[t.size..], y);
      DropCat(x, y, t.size);
      var rest, ys := ReadAll(first, x[t.size..]).value, ReadAll(first, y).value;
      assert ReadAll(first, z) == Some([t.event] + (rest + ys));
      Assoc([t.event], rest, ys);
    }
  }

  lemma ReadOne(first: Reader, s: string, t: Token)
    requires s != "" && first(s) == Some(t) && t.size == |s|
    ensures ReadAll(first, s) == Some([t.event])
  {
    assert s[|s|..] == "";
    assert ReadAll(first, "") == Some([]);
    assert [t.event] + [] == [t.event];
  }

  lemma {:induction false} IndexOfMore(x: string, y: string, c: char)
    requires IndexOf(x, c) < |x|
    ensures IndexOf(x + y, c) == IndexOf(x, c)
  {
    if x[0] != c {
      IndexOfMore(x[1..], y, c);
      assert (x + y)[1..] == x[1..] + y;
    }
  }

  lemma FirstOfMore(x: string, y: string)
    requires x != "" && First(x).Some?
    ensures First(x + y) == First(x)
  {
    var c := if x[0] == '<' then '>' else ';';
    if x[0] == '<' || x[0] == '&' {
      IndexOfMore(x, y, c);
      var n := IndexOf(x, c) + 1;
      assert (x + y)[..n] == x[..n];
    }
  }

  lemma ReaderIsStable()
    ensures Stable(READER)
  {
    forall x, y | READER(x).Some? ensures READER(x + y) == READER(x) {
      FirstOfMore(x, y);
    }
  }

  /** Reading one text after another reads their concatenation. */
  lemma LexCat(x: string, y: string)
    requires Lex(x).Some? && Lex(y).Some?
    ensures Lex(x + y) == Some(Lex(x).value + Lex(y).value)
  {
    ReaderIsStable();
    ReadAllCat(READER, x, y);
  }

  function Chs(s: string): seq<Event> {
    seq(|s|, i requires 0 <= i < |s| => Ch(s[i]))
  }

  lemma IndexAtEnd(s: string, c: char)
    requires s != "" && s[|s| - 1] == c && c !in s[..|s| - 1]
    ensures IndexOf(s, c) + 1 == |s| && s[..|s|] == s
  {
    assert forall k | 0 <= k < |s| - 1 :: s[..|s| - 1][k] == s[k];
  }

  lemma LexEscapedChar(c: char)
    ensures Lex(EscapeChar(c)) == Some([Ch(c)])
  {
    var e := EscapeChar(c);
    if e[0] == '&' {
      IndexAtEnd(e, ';');
    }
    ReadOne(READER, e, Token(Ch(c), |e|));
  }

  /** Escaped text reads back as itself, character by character. */
  lemma {:induction false} LexEscaped(s: string)
    ensures Lex(Escape(s)) == Some(Chs(s))
  {
    if s == "" {
      assert Chs(s) == [];
    } else {
      LexEscapedChar(s[0]);
      LexEscaped(s[1..]);
      LexCat(EscapeChar(s[0]), Escape(s[1..]));
      assert [Ch(s[0])] + Chs(s[1..]) == Chs(s);
    }
  }

  lemma ReadAttrStep(e: string, rest: string, c: char)
    requires e != "" && ReadAttr(rest).Some?
    requires if e[0] == '&' then IndexOf(e, ';') + 1 == |e| && AttrEntity(e) == Some(c) else e == [c]
    ensures ReadAttr(e + rest) == Some([c] + ReadAttr(rest).value)
  {
    if e[0] == '&' {
      IndexOfMore(e, rest, ';');
    }
    assert (e + rest)[|e|..] == rest && (e + rest)[..|e|] == e;
  }

  lemma AttrEntityOf(c: char)
    ensures var e := EscapeAttrChar(c);
      && e != "" && '"' !in e && '>' !in e
      && if e[0] == '&' then IndexOf(e, ';') + 1 == |e| && AttrEntity(e) == Some(c) else e == [c]
  {
    var e := EscapeAttrChar(c);
    if e[0] == '&' {
      IndexAtEnd(e, ';');
    }
  }

  lemma {:induction false} ReadEscapedAttr(s: string)
    ensures ReadAttr(EscapeAttr(s)) == Some(s)
    ensures '"' !in EscapeAttr(s) && '>' !in EscapeAttr(s)
  {
    if s != "" {
      ReadEscapedAttr(s[1..]);
      AttrEntityOf(s[0]);
      ReadAttrStep(EscapeAttrChar(s[0]), EscapeAttr(s[1..]), s[0]);
      assert [s[0]] + s[1..] == s;
    }
  }

  function OpenLinkHtml(url: string): string {
    LINK + EscapeAttr(url) + "\">"
  }

  lemma LinkMarkup(content: string, url: string)
    requires ReadAttr(content) == Some(url) && '"' !in content
    ensures Markup(LINK + content + "\">") == Some(OpenLink(url))
  {
    var h := LINK + content + "\">";
    assert h[..|LINK|] == LINK;
    assert h[|LINK|..|h| - 2] == content;
    assert h[1] == 'a' && |h| > 4;
  }

  lemma LexOpenLink(url: string)
    ensures Lex(OpenLinkHtml(url)) == Some([OpenLink(url)])
  {
    var h, e := OpenLinkHtml(url), EscapeAttr(url);
    ReadEscapedAttr(url);
    LinkMarkup(e, url);
    assert h[..|h| - 1] == LINK + e + "\"";
    LexTag(h, OpenLink(url));
  }

  // ------------------------------------------------------------ nesting

  /** Where a reader stands: outside, in a bold phrase, or in a tag that holds
      text only, itself inside a bold phrase or not. */
  datatype Place = Top | InBold | Leaf(tag: Tag, inBold: bool)

  function Walk(p: Place, e: Event): Option<Place> {
    match e
    case Ch(_) => Some(p)
    case Open(B) => if p.Top? then Some(InBold) else None
    case Open(Code) => if p.Leaf? then None else Some(Leaf(Code, p.InBold?))
    case Open(Pre) => if p.Top? then Some(Leaf(Pre, false)) else None
    case Open(A) => None
    case OpenLink(_) => if p.Leaf? then None else Some(Leaf(A, p.InBold?))
    case Close(tag) =>
      if tag.B? && p.InBold? then Some(Top)
      else if p.Leaf? && p.tag == tag && !tag.B? then Some(if p.inBold then InBold else Top)
      else None
  }

  function Walks(p: Place, es: seq<Event>): Option<Place>
    decreases |es|
  {
    if es == [] then Some(p)
    else
      var q := Walk(p, es[0]);
      if q.None? then None else Walks(q.value, es[1..])
  }

  /** Every tag is closed in turn; bold is never inside bold, and code, fenced
      blocks and links hold nothing but text. */
  predicate Balanced(es: seq<Event>) { Walks(Top, es) == Some(Top) }

  lemma {:induction false} WalksCat(p: Place, xs: seq<Event>, ys: seq<Event>)
    requires Walks(p, xs).Some?
    ensures Walks(p, xs + ys) == Walks(Walks(p, xs).value, ys)
    decreases |xs|
  {
    if xs == [] {
      assert xs + ys == ys;
    } else {
      WalksCat(Walk(p, xs[0]).value, xs[1..], ys);
      assert (xs + ys)[1..] == xs[1..] + ys;
    }
  }

  lemma {:induction false} WalksChs(p: Place, s: string)
    ensures Walks(p, Chs(s)) == Some(p)
  {
    if s != "" {
      WalksChs(p, s[1..]);
      assert Chs(s)[1..] == Chs(s[1..]);
    }
  }

  /** What a reader sees: the characters, without the tags. */
  function Shown(es: seq<Event>): string {
    if es == [] then "" else (if es[0].Ch? then [es[0].c] else "") + Shown(es[1..])
  }

  lemma {:induction false} ShownCat(xs: seq<Event>, ys: seq<Event>)
    ensures Shown(xs + ys) == Shown(xs) + Shown(ys)
  {
    if xs == [] {
      assert xs + ys == ys;
    } else {
      ShownCat(xs[1..], ys);
      Uncons(xs, ys);
      var h := if xs[0].Ch? then [xs[0].c] else "";
      Assoc(h, Shown(xs[1..]), Shown(ys));
    }
  }

  lemma {:induction false} ShownChs(s: string)
    ensures Shown(Chs(s)) == s
  {
    if s != "" {
      ShownChs(s[1..]);
      assert Chs(s)[1..] == Chs(s[1..]);
    }
  }

  // ------------------------------------------------------------ pieces of a message

  /** `html`, met at place `p`, is well formed, leaves the reader there, and
      shows `text`. */
  predicate Reads(html: string, p: Place, text: string) {
    Lex(html).Some? && Walks(p, Lex(html).value) == Some(p) && Shown(Lex(html).value) == text
  }

  lemma ReadsEmpty(p: Place)
    ensures Reads("", p, "")
  {
  }

  lemma ReadsCat(x: string, y: string, p: Place, s: string, t: string)
    requires Reads(x, p, s) && Reads(y, p, t)
    ensures Reads(x + y, p, s + t)
  {
    LexCat(x, y);
    WalksCat(p, Lex(x).value, Lex(y).value);
    ShownCat(Lex(x).value, Lex(y).value);
  }

  lemma ReadsEscaped(s: string, p: Place)
    ensures Reads(Escape(s), p, s)
  {
    LexEscaped(s);
    WalksChs(p, s);
    ShownChs(s);
  }

  /** A piece between an opening and a closing tag. */
  lemma ReadsTagged(open: string, html: string, close: string, p: Place, inner: Place, o: Event, c: Event, text: string)
    requires Lex(open) == Some([o]) && Lex(close) == Some([c]) && !o.Ch? && !c.Ch?
    requires Walk(p, o) == Some(inner) && Walk(inner, c) == Some(p) && Reads(html, inner, text)
    ensures Reads(open + html + close, p, text)
  {
    var es := Lex(html).value;
    LexCat(open, html);
    LexCat(open + html, close);
    WalksTagged(p, inner, o, es, c);
    ShownTagged(o, es, c);
  }

  lemma WalksTagged(p: Place, inner: Place, o: Event, es: seq<Event>, c: Event)
    requires Walk(p, o) == Some(inner) && Walks(inner, es) == Some(inner) && Walk(inner, c) == Some(p)
    ensures Walks(p, [o] + es + [c]) == Some(p)
  {
    assert Walks(p, [o]) == Some(inner) && Walks(inner, [c]) == Some(p);
    WalksCat(p, [o], es);
    WalksCat(p, [o] + es, [c]);
  }

  lemma ShownTagged(o: Event, es: seq<Event>, c: Event)
    requires !o.Ch? && !c.Ch?
    ensures Shown([o] + es + [c]) == Shown(es)
  {
    ShownCat([o], es);
    ShownCat([o] + es, [c]);
  }

  lemma LexTag(s: string, e: Event)
    requires s != "" && s[0] == '<' && s[|s| - 1] == '>' && '>' !in s[..|s| - 1] && Markup(s) == Some(e)
    ensures Lex(s) == Some([e])
  {
    IndexAtEnd(s, '>');
    ReadOne(READER, s, Token(e, |s|));
  }

  /** Text alone between the tags of a kind that holds nothing else. */
  lemma ReadsLeaf(open: string, close: string, tag: Tag, text: string, p: Place)
    requires Lex(open) == Some([Open(tag)]) && Lex(close) == Some([Close(tag)])
    requires !p.Leaf? && (tag == Code || (tag == Pre && p.Top?))
    ensures Reads(open + Escape(text) + close, p, text)
  {
    var inner := Leaf(tag, p.InBold?);
    ReadsEscaped(text, inner);
    ReadsTagged(open, Escape(text), close, p, inner, Open(tag), Close(tag), text);
  }

  lemma ReadsCode(text: string, p: Place)
    requires !p.Leaf?
    ensures Reads("<code>" + Escape(text) + "</code>", p, text)
  {
    LexTag("<code>", Open(Code));
    LexTag("</code>", Close(Code));
    ReadsLeaf("<code>", "</code>", Code, text, p);
  }

  lemma ReadsPre(text: string)
    ensures Reads("<pre>" + Escape(text) + "</pre>", Top, text)
  {
    LexTag("<pre>", Open(Pre));
    LexTag("</pre>", Close(Pre));
    ReadsLeaf("<pre>", "</pre>", Pre, text, Top);
  }

  lemma ReadsBold(html: string, text: string)
    requires Reads(html, InBold, text)
    ensures Reads("<b>" + html + "</b>", Top, text)
  {
    LexTag("<b>", Open(B));
    LexTag("</b>", Close(B));
    ReadsTagged("<b>", html, "</b>", Top, InBold, Open(B), Close(B), text);
  }

  lemma ReadsLink(url: string, p: Place)
    requires !p.Leaf?
    ensures Reads(OpenLinkHtml(url) + Escape(url) + "</a>", p, url)
  {
    var inner := Leaf(A, p.InBold?);
    ReadsEscaped(url, inner);
    LexOpenLink(url);
    LexTag("</a>", Close(A));
    ReadsTagged(OpenLinkHtml(url), Escape(url), "</a>", p, inner, OpenLink(url), Close(A), url);
  }
}
