/**
 * What the course-hierarchy renderer produces, as an element tree: the
 * hierarchy's nodes (programme, all-years course, course, unit), the label and
 * markup of one node, its list of pending activity events, and the nested
 * <ul>/<li> lists of a sequence of nodes. The imperative renderer in module
 * BlockRenderer is proved to produce exactly Render of these trees.
 */
module Hierarchy {
  import opened Markup
  import opened Trimmer

  /** The four course types of the hierarchy. */
  datatype NodeKind = Programme | AllYears | Course | Unit

  /**
   * One node of the course hierarchy, as the tree builder supplies it. An
   * absent list of children is the empty sequence: the renderer tests it with
   * a loose comparison to null, which treats both alike.
   */
  datatype Node = Node(
    fullname: string,
    idnumber: string,
    kind: NodeKind,
    enrolled: bool,
    courseId: int,
    children: seq<Node>)

  /**
   * One course's activity overview: one pre-rendered fragment per activity
   * module type that reported something, in the order the module types ran.
   */
  type ModEvents = seq<string>

  /**
   * The activity overview source: for a course id, one entry per course the
   * lookup returned, each that course's overview.
   */
  type Overview = int -> seq<ModEvents>

  /**
   * What the renderer takes from its host: the site's root address, the
   * localised "nothing to display" string, and the activity overview source.
   */
  datatype Host = Host(wwwroot: string, nothingToDisplay: string, overview: Overview)

  /** The renderer's three settings. */
  datatype Config = Config(showcode: int, trimmode: TrimMode, trimlength: nat)

  /** The element names the renderer itself ever emits. */
  const RendererNames: set<string> := {"ul", "li", "a", "i", "div", "h2"}

  // ---------------------------------------------------------------------------
  // One node.

  /** The style class of each course type. */
  function TypeClass(kind: NodeKind): string
  {
    match kind
    case Programme => "programme"
    case AllYears => "course_all_years"
    case Course => "course"
    case Unit => "unit"
  }

  /** Whether a node of this type shows its course's events. */
  predicate DisplaysEvents(kind: NodeKind)
  {
    kind == Course || kind == Unit
  }

  /**
   * The untrimmed label: the full name, followed by the course code in
   * parentheses exactly when the code is switched on (showcode is 1).
   */
  function DisplayName(cfg: Config, node: Node): (r: string)
    ensures IsPrefix(node.fullname, r)
    ensures r == node.fullname <==> cfg.showcode != 1
    ensures cfg.showcode == 1 ==> r[|node.fullname|..] == " (" + node.idnumber + ")"
  {
    if cfg.showcode == 1 then node.fullname + " (" + node.idnumber + ")" else node.fullname
  }

  /**
   * The label shown for a node: its display name, trimmed under the settings.
   * A short name, or any name under an unrecognised mode, is shown whole; the
   * right and left modes never lengthen it.
   */
  function Label(cfg: Config, node: Node): (r: string)
    ensures |DisplayName(cfg, node)| <= cfg.trimlength + 3 || cfg.trimmode.Unrecognised? ==> r == DisplayName(cfg, node)
    ensures cfg.trimmode == TrimRight || cfg.trimmode == TrimLeft ==> |r| <= |DisplayName(cfg, node)|
  {
    Trim(DisplayName(cfg, node), cfg.trimmode, cfg.trimlength)
  }

  /**
   * The attributes of a node's link and list item: its class first, then its
   * title (the label) exactly when the user is enrolled.
   */
  function ItemAttrs(cfg: Config, node: Node): (r: seq<Attr>)
    ensures 1 <= |r| && r[0] == ("class", TypeClass(node.kind))
    ensures |r| == if node.enrolled then 2 else 1
    ensures node.enrolled ==> r[1] == ("title", Label(cfg, node))
  {
    [("class", TypeClass(node.kind))] + (if node.enrolled then [("title", Label(cfg, node))] else [])
  }

  predicate IsDigit(c: char)
  {
    '0' <= c <= '9'
  }

  function DigitChar(d: nat): (c: char)
    requires d < 10
    ensures IsDigit(c) && c as int - '0' as int == d
  {
    "0123456789"[d]
  }

  /** The decimal digits of a natural number, without leading zeros. */
  function NatToString(n: nat): (r: string)
    ensures r != [] && (r[0] == '0' ==> r == "0")
    ensures forall k :: 0 <= k < |r| ==> IsDigit(r[k])
  {
    if n < 10 then [DigitChar(n)] else NatToString(n / 10) + [DigitChar(n % 10)]
  }

  /** The decimal form of an integer, as string concatenation writes it. */
  function IntToString(n: int): (r: string)
    ensures r != [] && (r[0] == '-' <==> n < 0)
    ensures n < 0 ==> r[1..] == NatToString(-n)
    ensures n >= 0 ==> r == NatToString(n)
    ensures forall k :: (if n < 0 then 1 else 0) <= k < |r| ==> IsDigit(r[k])
  {
    if n < 0 then "-" + NatToString(-n) else NatToString(n)
  }

  /** The number a string of decimal digits denotes: a reference reading of the digits. */
  function DigitsValue(s: string): int
  {
    if s == [] then 0 else 10 * DigitsValue(s[..|s| - 1]) + (s[|s| - 1] as int - '0' as int)
  }

  /** The integer a decimal form denotes, with an optional leading minus sign. */
  function ParseInt(s: string): int
  {
    if s != [] && s[0] == '-' then -DigitsValue(s[1..]) else DigitsValue(s)
  }

  lemma {:induction false} NatToStringValue(n: nat)
    ensures DigitsValue(NatToString(n)) == n
  {
    if n >= 10 {
      var r := NatToString(n);
      assert r[..|r| - 1] == NatToString(n / 10);
      NatToStringValue(n / 10);
    }
  }

  /** Reading the decimal form of a course id back gives the id. */
  lemma IntToStringRoundTrip(n: int)
    ensures ParseInt(IntToString(n)) == n
  {
    NatToStringValue(if n < 0 then -n else n);
  }

  const CoursePath: string := "/course/view.php?id="

  /**
   * The address of a course's page: the site root, the course view path,
   * then the course id in decimal (digits after a minus sign only for a
   * negative id), which can be read back from the address.
   */
  function CourseUrl(host: Host, node: Node): (r: string)
    ensures IsPrefix(host.wwwroot + CoursePath, r)
    ensures r[|host.wwwroot + CoursePath|..] == IntToString(node.courseId)
    ensures ParseInt(r[|host.wwwroot + CoursePath|..]) == node.courseId
    ensures var tail := r[|host.wwwroot + CoursePath|..];
      && tail != []
      && (tail[0] == '-' <==> node.courseId < 0)
      && forall k :: (if tail[0] == '-' then 1 else 0) <= k < |tail| ==> IsDigit(tail[k])
  {
    var r := host.wwwroot + CoursePath + IntToString(node.courseId);
    assert r[|host.wwwroot + CoursePath|..] == IntToString(node.courseId);
    IntToStringRoundTrip(node.courseId);
    r
  }

  /** A link to the course for an enrolled user; otherwise the label in italics. */
  function BaseContent(host: Host, cfg: Config, node: Node): Html
  {
    if node.enrolled then
      Element("a", ItemAttrs(cfg, node) + [("href", CourseUrl(host, node))], [Text(Label(cfg, node))])
    else
      Element("i", [], [Element("div", [("class", TypeClass(node.kind))], [Text(Label(cfg, node))])])
  }

  /** The node's own content, a heading at the top level. */
  function HeadedContent(host: Host, cfg: Config, node: Node, indent: nat): Html
  {
    if indent == 0 then Element("h2", [], [BaseContent(host, cfg, node)]) else BaseContent(host, cfg, node)
  }

  /** The list items of one course's overview: one per module type's fragment. */
  function EventGroup(m: ModEvents): seq<Html>
  {
    seq(|m|, j requires 0 <= j < |m| => Element("li", [], [Text(m[j])]))
  }

  /** The list items of all courses' fragments; a course with an empty overview adds none. */
  function EventItems(events: seq<ModEvents>): seq<Html>
  {
    if events == [] then []
    else
      var last := events[|events| - 1];
      EventItems(events[..|events| - 1]) + (if last != [] then EventGroup(last) else [])
  }

  /** The event items of one more course entry. */
  lemma EventItemsPrefix(events: seq<ModEvents>, i: nat)
    requires i < |events|
    ensures EventItems(events[..i + 1])
         == EventItems(events[..i]) + (if events[i] != [] then EventGroup(events[i]) else [])
  {
    assert events[..i + 1][..i] == events[..i];
  }

  /** The course's events as one list. */
  function EventList(events: seq<ModEvents>): Html
  {
    Element("ul", [("id", "course_events")], EventItems(events))
  }

  /** The content of a node's list item: its own content, then its events when it has any. */
  function Content(host: Host, cfg: Config, node: Node, indent: nat): seq<Html>
  {
    var events := host.overview(node.courseId);
    [HeadedContent(host, cfg, node, indent)]
      + (if DisplaysEvents(node.kind) && events != [] then [EventList(events)] else [])
  }

  // ---------------------------------------------------------------------------
  // Sequences of nodes.

  /** One node's list item: its content, then the list of its children when it has any. */
  function ItemHtml(host: Host, cfg: Config, node: Node, indent: nat): Html
    decreases node, 2
  {
    Element("li", ItemAttrs(cfg, node),
      Content(host, cfg, node, indent)
        + (if node.children == [] then [] else [TreeHtml(host, cfg, node.children, indent + 1)]))
  }

  /** The list items of a sequence of nodes, in order. */
  function Items(host: Host, cfg: Config, nodes: seq<Node>, indent: nat): seq<Html>
    decreases nodes, 0
  {
    seq(|nodes|, i requires 0 <= i < |nodes| => ItemHtml(host, cfg, nodes[i], indent))
  }

  /** The list of a sequence of nodes; an empty sequence gets a single "nothing to display" item. */
  function TreeHtml(host: Host, cfg: Config, nodes: seq<Node>, indent: nat): Html
    decreases nodes, 1
  {
    Element("ul", [],
      if nodes == [] then [Element("li", [], [Text(host.nothingToDisplay)])]
      else Items(host, cfg, nodes, indent))
  }

  // ---------------------------------------------------------------------------
  // Properties of one node.

  /** Every course type has a class of its own. */
  lemma TypeClassInjective(a: NodeKind, b: NodeKind)
    ensures TypeClass(a) == TypeClass(b) <==> a == b
  {
  }

  /**
   * An enrolled user gets a link to the course page titled with the label; any
   * other user gets the label in a classed div, in italics.
   */
  lemma BaseContentMarkup(host: Host, cfg: Config, node: Node)
    ensures Render(BaseContent(host, cfg, node)) ==
      if node.enrolled then
        Link(CourseUrl(host, node), Label(cfg, node), [("class", TypeClass(node.kind)), ("title", Label(cfg, node))])
      else
        Tag("i", Tag("div", Label(cfg, node), [("class", TypeClass(node.kind))]), [])
  {
    var shown := Label(cfg, node);
    var cls := [("class", TypeClass(node.kind))];
    if node.enrolled {
      assert ItemAttrs(cfg, node) == [("class", TypeClass(node.kind)), ("title", Label(cfg, node))];
      RenderTextElement("a", ItemAttrs(cfg, node) + [("href", CourseUrl(host, node))], shown);
    } else {
      RenderTextElement("div", cls, shown);
      RenderWrapped("i", [], Element("div", cls, [Text(shown)]));
    }
  }

  /** A node's content is a heading exactly at the top level, and holds the link or label itself. */
  lemma HeadingIffTopLevel(host: Host, cfg: Config, node: Node, indent: nat)
    ensures Content(host, cfg, node, indent)[0].Element?
    ensures Content(host, cfg, node, indent)[0].name == "h2" <==> indent == 0
    ensures indent == 0 ==> Content(host, cfg, node, indent)[0].body == [BaseContent(host, cfg, node)]
    ensures indent != 0 ==> Content(host, cfg, node, indent)[0] == BaseContent(host, cfg, node)
  {
  }

  /** A node lists events exactly when it is a course or a unit whose overview is not empty. */
  lemma EventsIffCourseWithOverview(host: Host, cfg: Config, node: Node, indent: nat)
    ensures |Content(host, cfg, node, indent)| == 2
        <==> DisplaysEvents(node.kind) && host.overview(node.courseId) != []
    ensures |Content(host, cfg, node, indent)| == 2 ==>
      Content(host, cfg, node, indent)[1] == EventList(host.overview(node.courseId))
  {
  }

  /** All fragments of an overview, in order: a reference definition for the event list. */
  function Fragments(events: seq<ModEvents>): seq<string>
  {
    if events == [] then [] else events[0] + Fragments(events[1..])
  }

  lemma {:induction false} FragmentsSnoc(events: seq<ModEvents>, m: ModEvents)
    ensures Fragments(events + [m]) == Fragments(events) + m
  {
    if events == [] {
      assert events + [m] == [m];
      assert [m][1..] == [];
    } else {
      assert (events + [m])[1..] == events[1..] + [m];
      FragmentsSnoc(events[1..], m);
    }
  }

  /** The event list holds one item per fragment, in order, each holding just that fragment. */
  lemma {:induction false} EventItemsAreFragments(events: seq<ModEvents>)
    ensures |EventItems(events)| == |Fragments(events)|
    ensures forall k :: 0 <= k < |EventItems(events)| ==>
      EventItems(events)[k] == Element("li", [], [Text(Fragments(events)[k])])
  {
    if events != [] {
      var init, last := events[..|events| - 1], events[|events| - 1];
      assert events == init + [last];
      EventItemsAreFragments(init);
      FragmentsSnoc(init, last);
    }
  }

  /** Each fragment is one item of a list of items that each hold one text. */
  lemma {:induction false} TextItemsOpens(hs: seq<Html>, name: string)
    requires forall k :: 0 <= k < |hs| ==> hs[k].Element? && hs[k].name == "li" && |hs[k].body| == 1 && hs[k].body[0].Text?
    ensures Opens(ForestTokens(hs), name) == if name == "li" then |hs| else 0
  {
    if hs != [] {
      OpensForestCons(hs, name);
      OpensElement("li", hs[0].attrs, hs[0].body, name);
      OpensForestCons(hs[0].body, name);
      assert hs[0].body[1..] == [];
      TextItemsOpens(hs[1..], name);
    }
  }

  /** The items of an event list contain one item element per fragment and nothing else. */
  lemma EventListOpens(events: seq<ModEvents>, name: string)
    ensures Opens(ForestTokens(EventItems(events)), name) == if name == "li" then |Fragments(events)| else 0
  {
    EventItemsAreFragments(events);
    TextItemsOpens(EventItems(events), name);
  }

  /**
   * A node's list item, as markup: html_writer::tag of its content, followed by
   * the list of its children at the next indent when it has children, with the
   * same attributes as its link.
   */
  lemma ItemMarkup(host: Host, cfg: Config, node: Node, indent: nat)
    ensures Render(ItemHtml(host, cfg, node, indent)) ==
      Tag("li",
          RenderForest(Content(host, cfg, node, indent))
            + (if node.children == [] then "" else Render(TreeHtml(host, cfg, node.children, indent + 1))),
          ItemAttrs(cfg, node))
  {
    var content := Content(host, cfg, node, indent);
    var nested := if node.children == [] then [] else [TreeHtml(host, cfg, node.children, indent + 1)];
    RenderElement("li", ItemAttrs(cfg, node), content + nested);
    RenderForestAppend(content, nested);
    if node.children != [] {
      RenderForestSingle(TreeHtml(host, cfg, node.children, indent + 1));
    }
  }

  /**
   * A node's content, as markup: its own link or label (a heading at the top
   * level), followed by its event list when it is a course or a unit whose
   * overview is not empty.
   */
  lemma ContentMarkup(host: Host, cfg: Config, node: Node, indent: nat)
    ensures RenderForest(Content(host, cfg, node, indent)) ==
      (if indent == 0 then Tag("h2", Render(BaseContent(host, cfg, node)), []) else Render(BaseContent(host, cfg, node)))
        + (if DisplaysEvents(node.kind) && host.overview(node.courseId) != []
           then Render(EventList(host.overview(node.courseId))) else "")
  {
    var events := host.overview(node.courseId);
    var head := HeadedContent(host, cfg, node, indent);
    if indent == 0 {
      RenderWrapped("h2", [], BaseContent(host, cfg, node));
    }
    RenderForestSingle(head);
    if DisplaysEvents(node.kind) && events != [] {
      RenderForestAppend([head], [EventList(events)]);
      RenderForestSingle(EventList(events));
    } else {
      assert Content(host, cfg, node, indent) == [head];
      assert Render(head) + "" == Render(head);
    }
  }

  /** ItemMarkup for a node without children. */
  lemma LeafItemMarkup(host: Host, cfg: Config, node: Node, indent: nat)
    requires node.children == []
    ensures Render(ItemHtml(host, cfg, node, indent))
         == Tag("li", RenderForest(Content(host, cfg, node, indent)), ItemAttrs(cfg, node))
  {
    ItemMarkup(host, cfg, node, indent);
    assert RenderForest(Content(host, cfg, node, indent)) + "" == RenderForest(Content(host, cfg, node, indent));
  }

  // ---------------------------------------------------------------------------
  // Properties of whole lists.

  /** An empty sequence of nodes renders as one list holding the "nothing to display" item. */
  lemma EmptyTreeMarkup(host: Host, cfg: Config, indent: nat)
    ensures Render(TreeHtml(host, cfg, [], indent))
         == StartTag("ul", []) + Tag("li", host.nothingToDisplay, []) + EndTag("ul")
    ensures Render(TreeHtml(host, cfg, [], indent)) == "<ul><li>" + host.nothingToDisplay + "</li></ul>"
  {
    var item := Element("li", [], [Text(host.nothingToDisplay)]);
    RenderWrapped("ul", [], item);
    RenderTextElement("li", [], host.nothingToDisplay);
  }

  /**
   * A non-empty sequence of nodes renders as one list holding one item per
   * node, in input order (each item's markup is given by ItemMarkup).
   */
  lemma TreeMarkup(host: Host, cfg: Config, nodes: seq<Node>, indent: nat)
    requires nodes != []
    ensures Render(TreeHtml(host, cfg, nodes, indent)) ==
      StartTag("ul", []) + RenderForest(Items(host, cfg, nodes, indent)) + EndTag("ul")
    ensures |Items(host, cfg, nodes, indent)| == |nodes|
    ensures forall i :: 0 <= i < |nodes| ==>
      Items(host, cfg, nodes, indent)[i] == ItemHtml(host, cfg, nodes[i], indent)
    ensures forall i :: 0 <= i < |nodes| ==>
      ItemHtml(host, cfg, nodes[i], indent).name == "li"
  {
    RenderElement("ul", [], Items(host, cfg, nodes, indent));
  }

  /** The element names in a list at a given indent: headings only at the top level. */
  function AllowedNames(indent: nat): set<string>
  {
    if indent == 0 then RendererNames else RendererNames - {"h2"}
  }

  lemma SingleNames(h: Html)
    ensures ForestNames([h]) == Names(h)
  {
    assert [h][1..] == [];
  }

  lemma HeadedNames(host: Host, cfg: Config, node: Node, indent: nat)
    ensures Names(HeadedContent(host, cfg, node, indent)) <= AllowedNames(indent)
  {
    var text := Text(Label(cfg, node));
    SingleNames(text);
    var base := BaseContent(host, cfg, node);
    if !node.enrolled {
      var div := Element("div", [("class", TypeClass(node.kind))], [text]);
      SingleNames(div);
      assert Names(base) == {"i", "div"};
    } else {
      assert Names(base) == {"a"};
    }
    if indent == 0 {
      SingleNames(base);
    }
  }

  lemma EventListNames(events: seq<ModEvents>)
    ensures Names(EventList(events)) <= {"ul", "li"}
  {
    var items := EventItems(events);
    EventItemsAreFragments(events);
    forall k | 0 <= k < |items|
      ensures Names(items[k]) <= {"li"}
    {
      SingleNames(Text(Fragments(events)[k]));
    }
    ForestNamesBound(items, {"li"});
  }

  lemma ContentNames(host: Host, cfg: Config, node: Node, indent: nat)
    ensures ForestNames(Content(host, cfg, node, indent)) <= AllowedNames(indent)
  {
    var events := host.overview(node.courseId);
    var head := HeadedContent(host, cfg, node, indent);
    var tail := if DisplaysEvents(node.kind) && events != [] then [EventList(events)] else [];
    ForestNamesAppend([head], tail);
    SingleNames(head);
    HeadedNames(host, cfg, node, indent);
    if tail != [] {
      SingleNames(EventList(events));
      EventListNames(events);
    }
  }

  lemma {:induction false} ItemNames(host: Host, cfg: Config, node: Node, indent: nat)
    ensures Names(ItemHtml(host, cfg, node, indent)) <= AllowedNames(indent)
    decreases node, 2
  {
    var content := Content(host, cfg, node, indent);
    var nested := if node.children == [] then [] else [TreeHtml(host, cfg, node.children, indent + 1)];
    ForestNamesAppend(content, nested);
    ContentNames(host, cfg, node, indent);
    if node.children != [] {
      TreeNames(host, cfg, node.children, indent + 1);
      SingleNames(TreeHtml(host, cfg, node.children, indent + 1));
    }
  }

  lemma {:induction false} ItemsNames(host: Host, cfg: Config, nodes: seq<Node>, indent: nat)
    ensures ForestNames(Items(host, cfg, nodes, indent)) <= AllowedNames(indent)
    decreases nodes, 0
  {
    var items := Items(host, cfg, nodes, indent);
    forall i | 0 <= i < |items|
      ensures Names(items[i]) <= AllowedNames(indent)
    {
      ItemNames(host, cfg, nodes[i], indent);
    }
    ForestNamesBound(items, AllowedNames(indent));
  }

  /**
   * The renderer's own elements are lists, list items, links, italics, divs and
   * headings; a heading (and no emphasis in bold at all) appears only among the
   * top-level items. Fragments are opaque and not counted.
   */
  lemma {:induction false} TreeNames(host: Host, cfg: Config, nodes: seq<Node>, indent: nat)
    ensures Names(TreeHtml(host, cfg, nodes, indent)) <= AllowedNames(indent)
    ensures "strong" !in Names(TreeHtml(host, cfg, nodes, indent))
    decreases nodes, 1
  {
    if nodes != [] {
      ItemsNames(host, cfg, nodes, indent);
    } else {
      var item := Element("li", [], [Text(host.nothingToDisplay)]);
      SingleNames(Text(host.nothingToDisplay));
      SingleNames(item);
    }
  }

  /**
   * The rendered list is well formed at every depth: each closing tag closes
   * the innermost open element, so list and item tags are balanced and no
   * prefix closes more lists or items than it has opened.
   */
  lemma TreeBalanced(host: Host, cfg: Config, nodes: seq<Node>, indent: nat)
    ensures WellFormed(Tokens(TreeHtml(host, cfg, nodes, indent)))
    ensures Opens(Tokens(TreeHtml(host, cfg, nodes, indent)), "ul")
         == Closes(Tokens(TreeHtml(host, cfg, nodes, indent)), "ul")
    ensures Opens(Tokens(TreeHtml(host, cfg, nodes, indent)), "li")
         == Closes(Tokens(TreeHtml(host, cfg, nodes, indent)), "li")
  {
    var ts := Tokens(TreeHtml(host, cfg, nodes, indent));
    TreeWellFormed(TreeHtml(host, cfg, nodes, indent));
    WellFormedBalanced(ts, "ul");
    WellFormedBalanced(ts, "li");
  }

  /** The fragments a node lists: its overview's, when it is a course or unit with a non-empty overview. */
  function ShownFragments(host: Host, node: Node): nat
  {
    var events := host.overview(node.courseId);
    if DisplaysEvents(node.kind) && events != [] then |Fragments(events)| else 0
  }

  /** Nodes at every depth, each counted once, plus the fragments they list. */
  function Listed(host: Host, nodes: seq<Node>): nat
  {
    if nodes == [] then 0
    else 1 + ShownFragments(host, nodes[0]) + Listed(host, nodes[0].children) + Listed(host, nodes[1..])
  }

  lemma HeadedContentOpens(host: Host, cfg: Config, node: Node, indent: nat)
    ensures Opens(Tokens(HeadedContent(host, cfg, node, indent)), "li") == 0
  {
    var shown := Label(cfg, node);
    var base := BaseContent(host, cfg, node);
    if node.enrolled {
      OpensElement("a", base.attrs, [Text(shown)], "li");
    } else {
      var div := Element("div", [("class", TypeClass(node.kind))], [Text(shown)]);
      OpensElement("div", div.attrs, [Text(shown)], "li");
      OpensElement("i", [], [div], "li");
      OpensForestCons([div], "li");
      assert [div][1..] == [];
    }
    OpensForestCons([Text(shown)], "li");
    assert [Text(shown)][1..] == [];
    if indent == 0 {
      OpensElement("h2", [], [base], "li");
      OpensForestCons([base], "li");
      assert [base][1..] == [];
    }
  }

  lemma ContentOpens(host: Host, cfg: Config, node: Node, indent: nat)
    ensures Opens(ForestTokens(Content(host, cfg, node, indent)), "li") == ShownFragments(host, node)
  {
    var events := host.overview(node.courseId);
    var head := HeadedContent(host, cfg, node, indent);
    var content := Content(host, cfg, node, indent);
    HeadedContentOpens(host, cfg, node, indent);
    OpensForestCons(content, "li");
    if DisplaysEvents(node.kind) && events != [] {
      assert content[1..] == [EventList(events)];
      OpensForestCons([EventList(events)], "li");
      assert [EventList(events)][1..] == [];
      OpensElement("ul", [("id", "course_events")], EventItems(events), "li");
      EventListOpens(events, "li");
    } else {
      assert content[1..] == [];
    }
  }

  lemma SingleOpens(h: Html, name: string)
    ensures Opens(ForestTokens([h]), name) == Opens(Tokens(h), name)
  {
    OpensForestCons([h], name);
    assert [h][1..] == [];
  }

  lemma {:induction false} ItemOpens(host: Host, cfg: Config, node: Node, indent: nat)
    ensures Opens(Tokens(ItemHtml(host, cfg, node, indent)), "li")
         == 1 + ShownFragments(host, node) + Listed(host, node.children)
    decreases node, 1
  {
    var content := Content(host, cfg, node, indent);
    var nested := if node.children == [] then [] else [TreeHtml(host, cfg, node.children, indent + 1)];
    assert ItemHtml(host, cfg, node, indent) == Element("li", ItemAttrs(cfg, node), content + nested);
    OpensElement("li", ItemAttrs(cfg, node), content + nested, "li");
    OpensForestAppend(content, nested, "li");
    ContentOpens(host, cfg, node, indent);
    if node.children != [] {
      NestedOpens(host, cfg, node.children, indent + 1);
      SingleOpens(TreeHtml(host, cfg, node.children, indent + 1), "li");
    }
  }

  lemma {:induction false} NestedOpens(host: Host, cfg: Config, nodes: seq<Node>, indent: nat)
    requires nodes != []
    ensures Opens(Tokens(TreeHtml(host, cfg, nodes, indent)), "li") == Listed(host, nodes)
    decreases nodes, 1
  {
    OpensElement("ul", [], Items(host, cfg, nodes, indent), "li");
    ItemsOpens(host, cfg, nodes, indent);
  }

  lemma {:induction false} ItemsOpens(host: Host, cfg: Config, nodes: seq<Node>, indent: nat)
    ensures Opens(ForestTokens(Items(host, cfg, nodes, indent)), "li") == Listed(host, nodes)
    decreases nodes, 0
  {
    var items := Items(host, cfg, nodes, indent);
    if nodes != [] {
      OpensForestCons(items, "li");
      assert items[1..] == Items(host, cfg, nodes[1..], indent);
      ItemOpens(host, cfg, nodes[0], indent);
      ItemsOpens(host, cfg, nodes[1..], indent);
    }
  }

  /**
   * A non-empty list holds exactly one item element per node at every depth,
   * plus one per fragment of each course or unit with events; an empty list
   * holds the single "nothing to display" item.
   */
  lemma TreeItemCount(host: Host, cfg: Config, nodes: seq<Node>, indent: nat)
    ensures Opens(Tokens(TreeHtml(host, cfg, nodes, indent)), "li")
         == if nodes == [] then 1 else Listed(host, nodes)
  {
    if nodes == [] {
      var item := Element("li", [], [Text(host.nothingToDisplay)]);
      OpensElement("ul", [], [item], "li");
      TextItemsOpens([item], "li");
    } else {
      NestedOpens(host, cfg, nodes, indent);
    }
  }
}
