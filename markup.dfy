/**
 * The markup helpers the renderer relies on (Moodle's html_writer), as plain
 * string constructors, together with a structured view of markup: an element
 * tree (Html), its flattening into tokens, and the serialisation of tokens to a
 * string. Text inside a token is opaque: a label or a pre-rendered fragment is
 * one atom, whatever characters it holds.
 */
module Markup {

  datatype Option<T> = None | Some(value: T)

  /** One attribute, name and value. */
  type Attr = (string, string)

  /** ` name="value"` for every attribute, in order. */
  function AttrText(attrs: seq<Attr>): string
  {
    if attrs == [] then "" else " " + attrs[0].0 + "=\"" + attrs[0].1 + "\"" + AttrText(attrs[1..])
  }

  /** html_writer::start_tag */
  function StartTag(name: string, attrs: seq<Attr>): string
  {
    "<" + name + AttrText(attrs) + ">"
  }

  /** html_writer::end_tag */
  function EndTag(name: string): string
  {
    "</" + name + ">"
  }

  /** html_writer::tag: the content is inserted as it is. */
  function Tag(name: string, content: string, attrs: seq<Attr>): string
  {
    StartTag(name, attrs) + content + EndTag(name)
  }

  /** html_writer::link: an anchor whose href follows the given attributes. */
  function Link(url: string, text: string, attrs: seq<Attr>): string
  {
    Tag("a", text, attrs + [("href", url)])
  }

  /** The literal tags of a div with one id are html_writer's tags for it. */
  lemma DivMarkup(htmlid: string)
    ensures "<div id=\"" + htmlid + "\">" == StartTag("div", [("id", htmlid)])
    ensures "</div>" == EndTag("div")
  {
    assert [("id", htmlid)][1..] == [];
    assert AttrText([("id", htmlid)]) == " id=\"" + htmlid + "\"";
  }

  /** Markup as a tree of elements over opaque text. */
  datatype Html = Text(chars: string) | Element(name: string, attrs: seq<Attr>, body: seq<Html>)

  datatype Token = Open(name: string, attrs: seq<Attr>) | Close(name: string) | Chars(chars: string)

  function TokenText(t: Token): string
  {
    match t
    case Open(n, a) => StartTag(n, a)
    case Close(n) => EndTag(n)
    case Chars(s) => s
  }

  function Serialise(ts: seq<Token>): string
  {
    if ts == [] then "" else TokenText(ts[0]) + Serialise(ts[1..])
  }

  function Tokens(h: Html): seq<Token>
    decreases h
  {
    match h
    case Text(s) => [Chars(s)]
    case Element(n, a, body) => [Open(n, a)] + ForestTokens(body) + [Close(n)]
  }

  function ForestTokens(hs: seq<Html>): seq<Token>
    decreases hs
  {
    if hs == [] then [] else Tokens(hs[0]) + ForestTokens(hs[1..])
  }

  function Render(h: Html): string
  {
    Serialise(Tokens(h))
  }

  function RenderForest(hs: seq<Html>): string
  {
    Serialise(ForestTokens(hs))
  }

  /** The names of all elements in a tree. */
  function Names(h: Html): set<string>
    decreases h
  {
    match h
    case Text(_) => {}
    case Element(n, _, body) => {n} + ForestNames(body)
  }

  function ForestNames(hs: seq<Html>): set<string>
    decreases hs
  {
    if hs == [] then {} else Names(hs[0]) + ForestNames(hs[1..])
  }

  // ---------------------------------------------------------------------------
  // Serialisation is a homomorphism, and the string helpers are the
  // serialisations of the corresponding elements.

  lemma {:induction false} SerialiseAppend(a: seq<Token>, b: seq<Token>)
    ensures Serialise(a + b) == Serialise(a) + Serialise(b)
  {
    if a != [] {
      assert (a + b)[1..] == a[1..] + b;
      SerialiseAppend(a[1..], b);
    } else {
      assert a + b == b;
    }
  }

  lemma {:induction false} ForestTokensAppend(a: seq<Html>, b: seq<Html>)
    ensures ForestTokens(a + b) == ForestTokens(a) + ForestTokens(b)
  {
    if a != [] {
      assert (a + b)[1..] == a[1..] + b;
      ForestTokensAppend(a[1..], b);
    } else {
      assert a + b == b;
    }
  }

  lemma RenderForestAppend(a: seq<Html>, b: seq<Html>)
    ensures RenderForest(a + b) == RenderForest(a) + RenderForest(b)
  {
    ForestTokensAppend(a, b);
    SerialiseAppend(ForestTokens(a), ForestTokens(b));
  }

  lemma RenderForestSingle(h: Html)
    ensures RenderForest([h]) == Render(h)
  {
    assert [h][1..] == [];
    assert ForestTokens([h]) == Tokens(h) + [] == Tokens(h);
  }

  /**
   * Concatenation is associative. Stated once for three abstract sequences, so
   * that a caller's proof need not rediscover it over long concrete terms.
   */
  lemma AppendAssoc<T>(a: seq<T>, b: seq<T>, c: seq<T>)
    ensures (a + b) + c == a + (b + c)
  {
  }

  /** Rendering a forest one more tree at a time. */
  lemma RenderForestPrefix(hs: seq<Html>, i: nat)
    requires i < |hs|
    ensures RenderForest(hs[..i + 1]) == RenderForest(hs[..i]) + Render(hs[i])
  {
    assert hs[..i + 1] == hs[..i] + [hs[i]];
    RenderForestAppend(hs[..i], [hs[i]]);
    RenderForestSingle(hs[i]);
  }

  /** An element renders as html_writer::tag of its rendered body. */
  lemma RenderElement(n: string, a: seq<Attr>, body: seq<Html>)
    ensures Render(Element(n, a, body)) == Tag(n, RenderForest(body), a)
  {
    var ts := ForestTokens(body);
    SerialiseAppend([Open(n, a)] + ts, [Close(n)]);
    SerialiseAppend([Open(n, a)], ts);
    assert Serialise([Open(n, a)]) == StartTag(n, a);
    assert Serialise([Close(n)]) == EndTag(n);
  }

  /** An element whose body is one text renders as html_writer::tag of that text. */
  lemma RenderTextElement(n: string, a: seq<Attr>, s: string)
    ensures Render(Element(n, a, [Text(s)])) == Tag(n, s, a)
  {
    RenderElement(n, a, [Text(s)]);
    RenderForestSingle(Text(s));
    assert Serialise([Chars(s)]) == s;
  }

  /** An element whose body is one element renders as html_writer::tag of its rendering. */
  lemma RenderWrapped(n: string, a: seq<Attr>, inner: Html)
    ensures Render(Element(n, a, [inner])) == Tag(n, Render(inner), a)
  {
    RenderElement(n, a, [inner]);
    RenderForestSingle(inner);
  }

  /** A forest uses only names that each of its trees keeps to. */
  lemma {:induction false} ForestNamesBound(hs: seq<Html>, allowed: set<string>)
    requires forall i :: 0 <= i < |hs| ==> Names(hs[i]) <= allowed
    ensures ForestNames(hs) <= allowed
  {
    if hs != [] {
      ForestNamesBound(hs[1..], allowed);
    }
  }

  lemma {:induction false} ForestNamesAppend(a: seq<Html>, b: seq<Html>)
    ensures ForestNames(a + b) == ForestNames(a) + ForestNames(b)
  {
    if a != [] {
      assert (a + b)[1..] == a[1..] + b;
      ForestNamesAppend(a[1..], b);
    } else {
      assert a + b == b;
    }
  }

  // ---------------------------------------------------------------------------
  // Well-formedness: every closing tag closes the innermost open element.

  /** Reads tokens against the stack of open element names; None on a stray or mismatched close. */
  function Scan(ts: seq<Token>, stack: seq<string>): Option<seq<string>>
  {
    if ts == [] then Some(stack)
    else
      match ts[0]
      case Open(n, _) => Scan(ts[1..], stack + [n])
      case Close(n) =>
        if stack != [] && stack[|stack| - 1] == n then Scan(ts[1..], stack[..|stack| - 1]) else None
      case Chars(_) => Scan(ts[1..], stack)
  }

  predicate WellFormed(ts: seq<Token>)
  {
    Scan(ts, []) == Some([])
  }

  lemma {:induction false} ScanTokens(h: Html, rest: seq<Token>, stack: seq<string>)
    ensures Scan(Tokens(h) + rest, stack) == Scan(rest, stack)
    decreases h
  {
    match h
    case Text(s) =>
      assert (Tokens(h) + rest)[1..] == rest;
    case Element(n, a, body) =>
      var ts := Tokens(h) + rest;
      assert ts == [Open(n, a)] + (ForestTokens(body) + ([Close(n)] + rest));
      assert ts[1..] == ForestTokens(body) + ([Close(n)] + rest);
      ScanForest(body, [Close(n)] + rest, stack + [n]);
      assert ([Close(n)] + rest)[1..] == rest;
      assert (stack + [n])[..|stack + [n]| - 1] == stack;
  }

  lemma {:induction false} ScanForest(hs: seq<Html>, rest: seq<Token>, stack: seq<string>)
    ensures Scan(ForestTokens(hs) + rest, stack) == Scan(rest, stack)
    decreases hs
  {
    if hs != [] {
      assert ForestTokens(hs) + rest == Tokens(hs[0]) + (ForestTokens(hs[1..]) + rest) by {
        AppendAssoc(Tokens(hs[0]), ForestTokens(hs[1..]), rest);
      }
      ScanTokens(hs[0], ForestTokens(hs[1..]) + rest, stack);
      ScanForest(hs[1..], rest, stack);
    } else {
      assert ForestTokens(hs) + rest == rest;
    }
  }

  /** The tokens of any tree are well formed. */
  lemma TreeWellFormed(h: Html)
    ensures WellFormed(Tokens(h))
  {
    ScanTokens(h, [], []);
    assert Tokens(h) + [] == Tokens(h);
  }

  /** The number of opening tags of one name. */
  function Opens(ts: seq<Token>, name: string): nat
  {
    if ts == [] then 0 else (if ts[0].Open? && ts[0].name == name then 1 else 0) + Opens(ts[1..], name)
  }

  /** The number of closing tags of one name. */
  function Closes(ts: seq<Token>, name: string): nat
  {
    if ts == [] then 0 else (if ts[0].Close? && ts[0].name == name then 1 else 0) + Closes(ts[1..], name)
  }

  /** Scanning accounts for every open and close of a name through the stack. */
  lemma {:induction false} ScanCounts(ts: seq<Token>, stack: seq<string>, name: string)
    requires Scan(ts, stack).Some?
    ensures Opens(ts, name) + multiset(stack)[name]
         == Closes(ts, name) + multiset(Scan(ts, stack).value)[name]
  {
    if ts != [] {
      match ts[0]
      case Open(n, _) =>
        ScanCounts(ts[1..], stack + [n], name);
      case Close(n) =>
        var popped := stack[..|stack| - 1];
        assert stack == popped + [n];
        ScanCounts(ts[1..], popped, name);
      case Chars(_) =>
        ScanCounts(ts[1..], stack, name);
    }
  }

  /** A successful scan of a concatenation goes through a successful scan of its first part. */
  lemma {:induction false} ScanSplit(a: seq<Token>, b: seq<Token>, stack: seq<string>)
    requires Scan(a + b, stack).Some?
    ensures Scan(a, stack).Some? && Scan(a + b, stack) == Scan(b, Scan(a, stack).value)
  {
    if a == [] {
      assert a + b == b;
    } else {
      assert (a + b)[1..] == a[1..] + b;
      match a[0]
      case Open(n, _) =>
        ScanSplit(a[1..], b, stack + [n]);
      case Close(n) =>
        ScanSplit(a[1..], b, stack[..|stack| - 1]);
      case Chars(_) =>
        ScanSplit(a[1..], b, stack);
    }
  }

  /**
   * In well-formed tokens every name is opened as often as it is closed, and no
   * prefix has closed more than it has opened.
   */
  lemma WellFormedBalanced(ts: seq<Token>, name: string)
    requires WellFormed(ts)
    ensures Opens(ts, name) == Closes(ts, name)
    ensures forall k :: 0 <= k <= |ts| ==> Closes(ts[..k], name) <= Opens(ts[..k], name)
  {
    ScanCounts(ts, [], name);
    forall k | 0 <= k <= |ts|
      ensures Closes(ts[..k], name) <= Opens(ts[..k], name)
    {
      assert ts[..k] + ts[k..] == ts;
      ScanSplit(ts[..k], ts[k..], []);
      ScanCounts(ts[..k], [], name);
    }
  }

  lemma {:induction false} OpensAppend(a: seq<Token>, b: seq<Token>, name: string)
    ensures Opens(a + b, name) == Opens(a, name) + Opens(b, name)
  {
    if a != [] {
      assert (a + b)[1..] == a[1..] + b;
      OpensAppend(a[1..], b, name);
    } else {
      assert a + b == b;
    }
  }

  /** The opening tags of a name in an element: its own, if it has that name, and its body's. */
  lemma OpensElement(n: string, a: seq<Attr>, body: seq<Html>, name: string)
    ensures Opens(Tokens(Element(n, a, body)), name)
         == (if n == name then 1 else 0) + Opens(ForestTokens(body), name)
  {
    var ts := ForestTokens(body);
    OpensAppend([Open(n, a)] + ts, [Close(n)], name);
    OpensAppend([Open(n, a)], ts, name);
  }

  lemma OpensForestAppend(a: seq<Html>, b: seq<Html>, name: string)
    ensures Opens(ForestTokens(a + b), name) == Opens(ForestTokens(a), name) + Opens(ForestTokens(b), name)
  {
    ForestTokensAppend(a, b);
    OpensAppend(ForestTokens(a), ForestTokens(b), name);
  }

  lemma OpensForestCons(hs: seq<Html>, name: string)
    requires hs != []
    ensures Opens(ForestTokens(hs), name) == Opens(Tokens(hs[0]), name) + Opens(ForestTokens(hs[1..]), name)
  {
    OpensAppend(Tokens(hs[0]), ForestTokens(hs[1..]), name);
  }
}
