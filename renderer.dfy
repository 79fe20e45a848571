/**
 * The block's renderer object: three settings that course_hierarchy assigns
 * before rendering, and the recursive walk that accumulates the markup of a
 * sequence of course nodes. Each method is proved to produce exactly the
 * rendering of the element tree that module Hierarchy describes.
 */
module BlockRenderer {
  import opened Markup
  import opened Trimmer
  import opened Hierarchy

  class Renderer {
    var showcode: int
    var trimmode: TrimMode
    var trimlength: nat

    /** The settings the renderer currently holds. */
    function Settings(): Config
      reads this
    {
      Config(showcode, trimmode, trimlength)
    }

    /** A new renderer holds the defaults: no course code, right trimming, 50 characters. */
    constructor ()
      ensures Settings() == Config(0, TrimRight, 50)
    {
      showcode := 0;
      trimmode := TrimRight;
      trimlength := 50;
    }

    /**
     * Stores the three settings and renders the hierarchy the tree builder
     * supplies (`courses`); `uniq` stands for the unique suffix of the
     * wrapper's id.
     */
    method CourseHierarchy(showcode: int, trimmode: TrimMode, trimlength: nat,
                           host: Host, courses: seq<Node>, uniq: string) returns (html: string)
      modifies this
      ensures Settings() == Config(showcode, trimmode, trimlength)
      ensures html == Render(Element("div", [("id", "course_hierarchy_" + uniq)],
                                     [TreeHtml(host, Config(showcode, trimmode, trimlength), courses, 0)]))
    {
      this.showcode := showcode;
      this.trimmode := trimmode;
      this.trimlength := trimlength;
      html := RenderCourseHierarchy(host, courses, uniq);
    }

    /** The hierarchy's list, wrapped in a div with a unique id. */
    method RenderCourseHierarchy(host: Host, courses: seq<Node>, uniq: string) returns (html: string)
      ensures html == Render(Element("div", [("id", "course_hierarchy_" + uniq)],
                                     [TreeHtml(host, Settings(), courses, 0)]))
    {
      var htmlid := "course_hierarchy_" + uniq;
      html := "<div id=\"" + htmlid + "\">";
      var tree := HtmllizeTree(host, courses, 0);
      html := html + tree;
      html := html + "</div>";
      RenderWrapped("div", [("id", htmlid)], TreeHtml(host, Settings(), courses, 0));
      DivMarkup(htmlid);
    }

    /**
     * The list of a sequence of nodes at depth `indent`: one item per node, in
     * order, each followed by the list of the node's children one level down.
     */
    method HtmllizeTree(host: Host, tree: seq<Node>, indent: nat) returns (result: string)
      ensures result == Render(TreeHtml(host, Settings(), tree, indent))
      decreases tree
    {
      ghost var start := StartTag("ul", []);
      result := StartTag("ul", []);
      if tree == [] {
        result := result + Tag("li", host.nothingToDisplay, []);
        result := result + EndTag("ul");
        EmptyTreeMarkup(host, Settings(), indent);
      } else {
        ghost var items := Items(host, Settings(), tree, indent);
        var i := 0;
        while i < |tree|
          invariant 0 <= i <= |tree|
          invariant result == start + RenderForest(items[..i])
        {
          var item := NodeItem(host, tree[i], indent);
          assert item == Render(items[i]);
          ghost var done := RenderForest(items[..i]);
          result := result + item;
          assert result == start + RenderForest(items[..i + 1]) by {
            AppendAssoc(start, done, item);
            RenderForestPrefix(items, i);
          }
          i := i + 1;
        }
        assert items[..|items|] == items;
        result := result + EndTag("ul");
        TreeMarkup(host, Settings(), tree, indent);
      }
    }

    /** One node's list item: its content, then the list of its children when it has any. */
    method NodeItem(host: Host, node: Node, indent: nat) returns (item: string)
      ensures item == Render(ItemHtml(host, Settings(), node, indent))
      decreases node
    {
      var content, attributes := NodeContent(host, node, indent);
      var children := node.children;
      if children == [] {
        item := Tag("li", content, attributes);
        LeafItemMarkup(host, Settings(), node, indent);
      } else {
        var nested := HtmllizeTree(host, children, indent + 1);
        item := Tag("li", content + nested, attributes);
        ItemMarkup(host, Settings(), node, indent);
      }
    }

    /**
     * The content and attributes of one node's list item: its trimmed label
     * as a link or in italics, as a heading at the top level, followed by its
     * course's events when it is a course or a unit.
     */
    method NodeContent(host: Host, node: Node, indent: nat) returns (content: string, attributes: seq<Attr>)
      ensures content == RenderForest(Content(host, Settings(), node, indent))
      ensures attributes == ItemAttrs(Settings(), node)
    {
      var displayTopLevel := false;
      var displayHeading, displayEvents;
      content, attributes, displayHeading, displayEvents := NodeLabel(host, node);

      if displayHeading {
        content := Tag("strong", content, []);
      }

      if indent == 0 {
        displayTopLevel := true;
      }

      if displayTopLevel {
        content := Tag("h2", content, []);
      }

      if displayEvents {
        var events := host.overview(node.courseId);
        if events != [] {
          var eventList := EventListMarkup(events);
          content := content + eventList;
        }
      }
      ContentMarkup(host, Settings(), node, indent);
      if !(DisplaysEvents(node.kind) && host.overview(node.courseId) != []) {
        assert content + "" == content;
      }
    }

    /**
     * A node's label markup before any heading: the trimmed name as a link
     * titled with it when the user is enrolled, otherwise in italics, with
     * the item's attributes and the two display flags its type sets (no node
     * type turns the strong heading on; courses and units show events).
     */
    method NodeLabel(host: Host, node: Node)
      returns (content: string, attributes: seq<Attr>, displayHeading: bool, displayEvents: bool)
      ensures content == Render(BaseContent(host, Settings(), node))
      ensures attributes == ItemAttrs(Settings(), node)
      ensures !displayHeading
      ensures displayEvents == DisplaysEvents(node.kind)
    {
      var name := node.fullname;
      if showcode == 1 {
        name := name + " (" + node.idnumber + ")";
      }
      var courseFullname := Trim(name, trimmode, trimlength);
      assert courseFullname == Label(Settings(), node);

      displayHeading := false;
      displayEvents := false;
      var typeClass: string;
      match node.kind {
        case Programme =>
          displayHeading := false;
          typeClass := "programme";
        case AllYears =>
          typeClass := "course_all_years";
        case Course =>
          displayEvents := true;
          typeClass := "course";
        case Unit =>
          displayEvents := true;
          typeClass := "unit";
      }

      attributes := [("class", typeClass)];
      content := Tag("div", courseFullname, attributes);

      assert typeClass == TypeClass(node.kind);
      if node.enrolled {
        attributes := attributes + [("title", courseFullname)];
        var moodleUrl := host.wwwroot + "/course/view.php?id=" + IntToString(node.courseId);
        content := Link(moodleUrl, courseFullname, attributes);
        assert attributes == [("class", TypeClass(node.kind)), ("title", Label(Settings(), node))];
      } else {
        content := Tag("i", content, []);
      }
      BaseContentMarkup(host, Settings(), node);
    }

    /** The course's events: one list holding one item per fragment, in order. */
    method EventListMarkup(events: seq<ModEvents>) returns (eventList: string)
      ensures eventList == Render(EventList(events))
    {
      ghost var start := StartTag("ul", [("id", "course_events")]);
      eventList := StartTag("ul", [("id", "course_events")]);
      var i := 0;
      while i < |events|
        invariant 0 <= i <= |events|
        invariant eventList == start + RenderForest(EventItems(events[..i]))
      {
        var modEvents := events[i];
        ghost var done := RenderForest(EventItems(events[..i]));
        EventItemsPrefix(events, i);
        if modEvents != [] {
          var items := EventGroupMarkup(modEvents);
          eventList := eventList + items;
          assert eventList == start + RenderForest(EventItems(events[..i + 1])) by {
            AppendAssoc(start, done, items);
            RenderForestAppend(EventItems(events[..i]), EventGroup(modEvents));
          }
        } else {
          assert EventItems(events[..i + 1]) == EventItems(events[..i]) + [];
          assert EventItems(events[..i + 1]) == EventItems(events[..i]);
        }
        i := i + 1;
      }
      assert events[..|events|] == events;
      eventList := eventList + EndTag("ul");
      RenderElement("ul", [("id", "course_events")], EventItems(events));
    }

    /** The items of one course's overview: one item per module type's fragment, in order. */
    method EventGroupMarkup(modEvents: ModEvents) returns (items: string)
      ensures items == RenderForest(EventGroup(modEvents))
    {
      ghost var group := EventGroup(modEvents);
      items := "";
      var j := 0;
      while j < |modEvents|
        invariant 0 <= j <= |modEvents|
        invariant items == RenderForest(group[..j])
      {
        items := items + Tag("li", modEvents[j], []);
        RenderTextElement("li", [], modEvents[j]);
        RenderForestPrefix(group, j);
        j := j + 1;
      }
      assert group[..|group|] == group;
    }
  }
}
