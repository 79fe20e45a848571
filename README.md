# Course-hierarchy renderer of the "My UAL Moodle" block

This project models the renderer of the Moodle block `block_ual_mymoodle`. The renderer turns the
block's course hierarchy into nested `<ul>`/`<li>` markup. It covers three behaviours:

- it has three settings (show the course code, trim mode, trim length), which `course_hierarchy` stores before rendering;
- `htmllize_tree` walks an ordered sequence of typed course nodes and emits one list per call, one item per node, and a nested list for each node's children one level down;
- `trim` shortens each label on the right, on the left or in the centre.

Each node's label is a link to its course page when the user is enrolled on it. Otherwise the label is not linked and is shown in italics (line 137).

The project has four modules:

- `Markup` stands in for `html_writer`:
  - string constructors for start tags, end tags, tags and links;
  - an element tree `Html` whose text leaves are opaque;
  - its token stream and rendering;
  - a stack check that the tokens are well formed.
- `Trimmer` is the label trimmer, a pure function of the text, the mode and the length.
- `Hierarchy` holds the data model:
  - node, course type, settings, and the host values the renderer reads;
  - element trees describing what one node, one event list and one list of nodes render as;
  - the properties of those trees.
- `BlockRenderer` holds class `Renderer`, with the three settings as fields. Its methods follow the source's imperative code: the loop that accumulates the list, the per-node flags, and the nested loops that build the event list. Each method is proved to return exactly the rendering of the matching `Hierarchy` tree.

## Model

| member | source | states |
|---|---|---|
| Trimmer.Trim | renderer.php:196-223 | A text of at most n + 3 characters comes back unchanged, and so does any text under an unrecognised mode. For longer texts: right gives n + 3 characters, a prefix of the text followed by "..."; left gives n + 3 characters, "..." followed by a suffix of the text; center gives ceil(n/2) + 3 + n characters: a prefix of ceil(n/2) characters, "...", then a suffix of n characters |
| Trimmer.Half | renderer.php:215 | ceil(n/2): twice the result is n or n + 1 |
| Trimmer.TrimChangesIffLong | renderer.php:200-210 | Under right and left trimming, a label changes exactly when it is longer than n + 3, and it never gets longer |
| Trimmer.TrimIdempotent | renderer.php:196-223 | Trimming a trimmed label again gives the same label, in every mode |
| Trimmer.CenterTrimLengthens | renderer.php:212-219 | Because the centre tail keeps n characters, centre trimming lengthens every label whose length lies strictly between n + 3 and ceil(n/2) + n + 3 |
| Hierarchy.DisplayName | renderer.php:87-90 | The untrimmed label starts with the full name. It equals the full name exactly when showcode is not 1, and otherwise is followed by " (code)" |
| Hierarchy.Label | renderer.php:91 | The shown label is the display name passed through the trimmer. It is the whole name when that is at most n + 3 characters or the mode is unrecognised, and right and left trimming never lengthen it |
| Hierarchy.ItemAttrs | renderer.php:124-131 | The attributes reused by the link and the li (lines 134, 176, 180) are the class first, then a title equal to the label exactly when the user is enrolled |
| Hierarchy.NatToString | renderer.php:132 | The decimal digits of a natural number, with no leading zero |
| Hierarchy.IntToString | renderer.php:132 | PHP's decimal form of the course id: the digits of the id without leading zeros, after a minus sign exactly for a negative id |
| Hierarchy.IntToStringRoundTrip | renderer.php:132 | Reading the decimal form back with an independent digit reader gives the original integer |
| Hierarchy.CourseUrl | renderer.php:132 | The address starts with the site root and /course/view.php?id=. The rest is exactly `IntToString` of the course id: decimal digits, after a minus sign only for a negative id, and reads back as the course id |
| Hierarchy.TypeClassInjective | renderer.php:105-121 | `TypeClass` (the switch) gives the four course types four distinct style classes |
| Hierarchy.BaseContentMarkup | renderer.php:124-138 | `BaseContent` (the content before any heading) renders as follows. An enrolled user gets a link to wwwroot/course/view.php?id=<course id>, with the class and a title equal to the trimmed label. Any other user gets the label in a classed div, in italics |
| Hierarchy.HeadingIffTopLevel | renderer.php:145-152 | In `Content`, a node's content is an h2 heading exactly when indent is 0, and it holds the link or the italic label |
| Hierarchy.EventsIffCourseWithOverview | renderer.php:154-157 | The content has a second part exactly when the node is a course or a unit whose overview is not empty, and that part is the node's event list |
| Hierarchy.EventItemsAreFragments | renderer.php:159-166 | The event list holds one item per fragment, in iteration order (course entries, then each course's module types), and each item holds exactly that fragment |
| Hierarchy.EventListOpens | renderer.php:159-167 | The event list's items open one li per fragment and no other element |
| Hierarchy.ContentMarkup | renderer.php:141-170 | A node's content is its link or label, inside h2 at indent 0, followed by its course_events list when it is a course or a unit with a non-empty overview |
| Hierarchy.ItemMarkup | renderer.php:173-181 | `ItemHtml` (a node's item) renders as an li with the link's attributes. It holds the content, followed by the list of the children at indent + 1 only when there are children |
| Hierarchy.LeafItemMarkup | renderer.php:175-176 | For a node without children, `ItemHtml` renders as an li holding only its content |
| Hierarchy.EmptyTreeMarkup | renderer.php:80-84 | `TreeHtml` (the list) of an empty sequence renders as exactly "<ul><li>" + the nothing-to-display string + "</li></ul>", the closing tag being the one at line 184 |
| Hierarchy.TreeMarkup | renderer.php:80-184 | `TreeHtml` (the list) of a non-empty sequence renders as one ul holding one li item per node, in input order |
| Hierarchy.TreeNames | renderer.php:141-152 | `TreeHtml` (the list) uses only ul, li, a, i, div and h2. An h2 appears only among the top-level items, and strong never appears, since the heading flag is never set |
| Hierarchy.TreeBalanced | renderer.php:77-187 | For `TreeHtml` (the list), with fragments and labels treated as atoms, the output is well formed at every depth, and ul and li opens equal their closes |
| Hierarchy.TreeItemCount | renderer.php:82-181 | In `TreeHtml` (the list), an empty list holds one li. A non-empty one holds one li per node at every depth, plus one per fragment of each course or unit that shows events |
| BlockRenderer.Renderer.constructor | renderer.php:35-37 | A new renderer has showcode 0, right trimming and length 50 |
| BlockRenderer.Renderer.CourseHierarchy | renderer.php:43-49 | Stores the three settings, then returns the hierarchy's list for those settings, wrapped in the div with the unique id |
| BlockRenderer.Renderer.RenderCourseHierarchy | renderer.php:61-64 | The result is the top-level list, inside a div whose id is "course_hierarchy_" followed by the unique suffix |
| Markup.DivMarkup | renderer.php:62-64 | The literal wrapper tags are the start and end tags of a div with that id |
| BlockRenderer.Renderer.HtmllizeTree | renderer.php:77-187 | The accumulated string equals the rendering of the list of the nodes at that indent, under the current settings |
| BlockRenderer.Renderer.NodeItem | renderer.php:173-181 | Returns one node's li, with the list of its children nested inside when there are any |
| BlockRenderer.Renderer.NodeContent | renderer.php:141-171 | Returns the item's content (heading at indent 0, then events) and its attributes |
| BlockRenderer.Renderer.NodeLabel | renderer.php:87-139 | Returns the link or italic label for the node, the class and title attributes, a heading flag that no type sets, and an events flag set exactly for courses and units |
| BlockRenderer.Renderer.EventListMarkup | renderer.php:154-170 | The nested loops build exactly the course_events list of the overview's fragments |
| BlockRenderer.Renderer.EventGroupMarkup | renderer.php:161-165 | The inner loop builds one li per entry of one course's overview (one fragment per module type), in order |

## Left out

- `print_overview` (lines 225-263) runs a database query, reads the user's last access times, and calls each activity module's overview function dynamically. It appears only as the host's `overview` function, which maps a course id to a sequence of per-course sequences of fragments. The array keys (course id, module type) are not used by the renderer, so they are not modelled.
- `uniqid()` is the parameter `uniq`. The tree builder `new course_hierarchy` is the parameter `courses`. `get_string('nothingtodisplay')` and `$CFG->wwwroot` are fields of `Host`.
- The `empty($tree)` branch of `render_course_hierarchy` (lines 58-59) is not modelled. Its argument is always a freshly built object, so the branch is never taken, and the `box`/`get_string('nocourses')` output it would give is absent.
- `html_writer` escaping of attribute values is not modelled, because that library is not part of this model. Attributes are written as ` name="value"` in insertion order, and `link` adds `href` last.
- Node types other than the four constants are not representable. The switch at lines 105-121 has no default, and `$type_class` is a local variable of the whole call, so such a node would take the class of the previous sibling, or read an undefined variable when it comes first.
- `showcode` is taken as an integer and a node's enrolment as a boolean. The source compares them loosely (`$this->showcode == 1` at line 88, `get_user_enrolled() == true` at line 130), so a stored `"1"`, `"1.0"` or `true` also switches the code on, and any truthy enrolment value links the node. The model takes each setting and flag by the numeric or boolean value it compares as.
- `$type_id` is never used, and `$display_link` is always true. Both are omitted, and the link branch is taken unconditionally.
- `Trimmer.Trim`: `trimlength` is a natural number here. A negative or non-numeric stored length is not modelled.
- The numeric values of the `TRIM_RIGHT`, `TRIM_LEFT` and `TRIM_CENTER` constants live in the block's library, which is not part of this model. Any other stored value is `Unrecognised`.
- The renderer never escapes labels or fragments. The well-formedness and count results therefore treat each label and fragment as one opaque text atom, and say nothing about markup inside them.
