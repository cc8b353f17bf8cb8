/** The syntax-tree nodes the scanner (src/parsing/index.js) pushes, and the
    HTML each kind of node carries as its `value`. */
module Nodes {
  import opened Strings
  import opened Html
  import opened Inline

  /** A bullet or numbered item: `{ token, value, tag }`. */
  datatype ListItem = ListItem(token: string, value: string, tag: string)

  /** A definition-list entry: `{ term, definition }`. */
  datatype Definition = Definition(term: string, definition: string)

  /** The `children` array of a node, by the kind of node that carries one. */
  datatype Children =
    | NoChildren
    | Items(items: seq<ListItem>)
    | Definitions(defs: seq<Definition>)
    | Rows(rows: seq<seq<string>>)

  /** `{ token, value, children?, language? }`. */
  datatype Node = Node(token: string, value: string, children: Children, language: Option<string>)

  /** Every value the scanner produces is one HTML element: it starts with `<`
      and ends with `>`, so in particular it is never empty. */
  predicate IsElement(v: string) {
    |v| >= 2 && v[0] == '<' && v[|v| - 1] == '>'
  }

  /** The text of `<p>…</p>`, `<li>…</li>`, `<dt>…</dt>` and the like:
      inline markup applied to the content. */
  function Wrap(open: string, content: string, close: string): string {
    open + ParseInline(content) + close
  }

  /** flushParagraph's node. */
  function ParagraphNode(text: string): (n: Node)
    ensures n.token == "paragraph" && IsElement(n.value)
  {
    Node("paragraph", Wrap("<p>", Trim(text), "</p>"), NoChildren, None)
  }

  /** One paragraph of a blockquote: line breaks become spaces, then trimmed. */
  function QuoteParagraph(p: string): string {
    "<p>" + ParseInline(Trim(ReplaceChar(p, '\n', " "))) + "</p>"
  }

  function QuoteParagraphs(ps: seq<string>): string {
    if ps == [] then [] else QuoteParagraph(ps[0]) + QuoteParagraphs(ps[1..])
  }

  /** flushBlockquote's node: the trimmed content cut at every blank line
      (`"\n\n"`), one `<p>` per piece. */
  function BlockquoteNode(content: string): (n: Node)
    ensures n.token == "blockquote" && IsElement(n.value)
  {
    Node("blockquote", "<blockquote>" + QuoteParagraphs(Split(Trim(content), "\n\n")) + "</blockquote>",
      NoChildren, None)
  }

  /** `items.map((p) => p.tag).join('')`. */
  function ItemTags(items: seq<ListItem>): string {
    if items == [] then [] else items[0].tag + ItemTags(items[1..])
  }

  /** A node of flushLists: the `list` element (`ul` or `ol`) of the items'
      tags, keeping the items as its children. */
  function ListGroupNode(token: string, list: string, items: seq<ListItem>): (n: Node)
    ensures n.token == token && IsElement(n.value) && n.children == Items(items)
  {
    Node(token, "<" + list + ">" + ItemTags(items) + "</" + list + ">", Items(items), None)
  }

  /** A bullet item: the rest of the line, trimmed, and its `<li>`. */
  function BulletItem(point: string): (item: ListItem)
    ensures item.token == "bullet" && item.value == Trim(point) && IsElement(item.tag)
  {
    ListItem("bullet", Trim(point), Wrap("<li>", Trim(point), "</li>"))
  }

  /** A numbered item: its value is the digit itself, not the text. */
  function NumberedItem(digit: char, point: string): (item: ListItem)
    ensures item.token == "number" && item.value == [digit] && IsElement(item.tag)
  {
    ListItem("number", [digit], Wrap("<li>", Trim(point), "</li>"))
  }

  /** `<dt>term</dt><dd>definition</dd>` for one entry. */
  function DefinitionHtml(item: Definition): string {
    Wrap("<dt>", item.term, "</dt>") + Wrap("<dd>", item.definition, "</dd>")
  }

  /** What the `forEach` of flushDefinitionList appends, entry after entry. */
  function DefinitionsHtml(defs: seq<Definition>): string
    decreases |defs|
  {
    if defs == [] then [] else DefinitionsHtml(defs[..|defs| - 1]) + DefinitionHtml(defs[|defs| - 1])
  }

  lemma AppendDefinitionStep(html: string, defs: seq<Definition>, k: nat)
    requires k < |defs|
    ensures html + DefinitionsHtml(defs[..k + 1]) ==
      ((html + DefinitionsHtml(defs[..k])) + Wrap("<dt>", defs[k].term, "</dt>")) + Wrap("<dd>", defs[k].definition, "</dd>")
  {
    assert defs[..k + 1][..k] == defs[..k];
  }

  /** flushDefinitionList's node. */
  function DefinitionListNode(defs: seq<Definition>): (n: Node)
    ensures n.token == "definition-list" && IsElement(n.value) && n.children == Definitions(defs)
  {
    Node("definition-list", "<dl>" + DefinitionsHtml(defs) + "</dl>", Definitions(defs), None)
  }

  /** The cells of one row, each in `<cell>…</cell>` (`th` or `td`). */
  function CellsHtml(row: seq<string>, cell: string): string
    decreases |row|
  {
    if row == [] then []
    else CellsHtml(row[..|row| - 1], cell) + Wrap("<" + cell + ">", row[|row| - 1], "</" + cell + ">")
  }

  /** Appending the next cell's element extends the markup of the cells before it. */
  lemma AppendCellStep(html: string, row: seq<string>, k: nat, cell: string)
    requires k < |row|
    ensures html + CellsHtml(row[..k + 1], cell) ==
      (html + CellsHtml(row[..k], cell)) + Wrap("<" + cell + ">", row[k], "</" + cell + ">")
  {
    assert row[..k + 1][..k] == row[..k];
  }

  /** A body row: `<tr>` of `<td>` cells. */
  function RowHtml(row: seq<string>): string {
    "<tr>" + CellsHtml(row, "td") + "</tr>"
  }

  function RowsHtml(rows: seq<seq<string>>): string
    decreases |rows|
  {
    if rows == [] then [] else RowsHtml(rows[..|rows| - 1]) + RowHtml(rows[|rows| - 1])
  }

  lemma AppendRowStep(html: string, rows: seq<seq<string>>, k: nat)
    requires k < |rows|
    ensures html + RowsHtml(rows[..k + 1]) == (html + RowsHtml(rows[..k])) + RowHtml(rows[k])
  {
    assert rows[..k + 1][..k] == rows[..k];
  }

  /** The header section: the first row, in `th` cells. */
  function HeaderHtml(row: seq<string>): string {
    "<thead><tr>" + CellsHtml(row, "th") + "</tr></thead>"
  }

  /** The body section. */
  function BodyHtml(rows: seq<seq<string>>): string {
    "<tbody>" + RowsHtml(rows) + "</tbody>"
  }

  /** flushTable's markup: a header from the first row when there is more
      than one row and a body when body rows remain; otherwise every row in
      the body. */
  function TableHtml(rows: seq<seq<string>>): string
    requires |rows| > 0
  {
    "<table>" +
    (if |rows| > 1 then HeaderHtml(rows[0]) + (if |rows[1..]| > 0 then BodyHtml(rows[1..]) else [])
     else BodyHtml(rows)) +
    "</table>"
  }

  function TableNode(rows: seq<seq<string>>): (n: Node)
    requires |rows| > 0
    ensures n.token == "table" && IsElement(n.value) && n.children == Rows(rows)
  {
    Node("table", TableHtml(rows), Rows(rows), None)
  }

  /** A fenced block: the trimmed content escaped, with no inline markup. */
  function FencedCodeNode(lang: string, content: string): (n: Node)
    ensures n.token == "code-block" && IsElement(n.value) && n.language == Some(lang)
  {
    Node("code-block", "<pre><code class=\"language-" + lang + "\">" + EscapeHtml(Trim(content)) + "</code></pre>",
      NoChildren, Some(lang))
  }

  /** An indented block: as a fenced one, without a language class. */
  function IndentedCodeNode(content: string): (n: Node)
    ensures n.token == "code-block" && IsElement(n.value) && n.language == Some("")
  {
    Node("code-block", "<pre><code>" + EscapeHtml(Trim(content)) + "</code></pre>", NoChildren, Some(""))
  }

  /** `h${level}`. */
  function HeadingToken(level: nat): (t: string)
    ensures |t| >= 2 && t[0] == 'h'
  {
    "h" + NatToString(level)
  }

  /** The token names the level: `h` and then the level's decimal digits. */
  lemma HeadingTokenLevel(level: nat)
    ensures var t := HeadingToken(level);
      && (forall k :: 1 <= k < |t| ==> IsDigit(t[k]))
      && DigitsValue(t[1..]) == level
  {
    NatToStringDigits(level);
    assert HeadingToken(level)[1..] == NatToString(level);
  }

  lemma HeadingTokenOneTwo()
    ensures HeadingToken(1) == "h1" && HeadingToken(2) == "h2"
  {
  }

  /** A heading node of the given level around inline-transformed text. */
  function HeadingNode(level: nat, text: string): (n: Node)
    ensures n.token == HeadingToken(level) && IsElement(n.value)
  {
    Node(HeadingToken(level), Tag(ParseInline(text), HeadingToken(level)), NoChildren, None)
  }

  const HrNode := Node("hr", "<hr />", NoChildren, None)

  /** Every node the scanner builds is one element. */
  predicate AllElements(tree: seq<Node>) {
    forall k :: 0 <= k < |tree| ==> IsElement(tree[k].value)
  }

  /** With two or more rows the first is the header and the others always
      follow in a body: the guard on an empty body never fails. */
  lemma TableWithHeader(rows: seq<seq<string>>)
    requires |rows| > 1
    ensures TableHtml(rows) == "<table>" + (HeaderHtml(rows[0]) + BodyHtml(rows[1..])) + "</table>"
  {
    assert |rows[1..]| > 0;
  }

  /** A single row is a body row of `td` cells, with no header. */
  lemma TableWithoutHeader(rows: seq<seq<string>>)
    requires |rows| == 1
    ensures TableHtml(rows) == "<table>" + ("<tbody>" + RowHtml(rows[0]) + "</tbody>") + "</table>"
  {
    assert rows[..0] == [];
    assert RowsHtml(rows) == [] + RowHtml(rows[0]);
    assert [] + RowHtml(rows[0]) == RowHtml(rows[0]);
  }

  /** Code is shown verbatim: content free of `& < > " '` appears trimmed and
      untouched, even where it holds inline markup such as `*` or `_`. */
  lemma CodeIsVerbatim(lang: string, content: string)
    requires forall k :: 0 <= k < |content| ==> content[k] != '&' && !IsMarkupChar(content[k])
    ensures FencedCodeNode(lang, content).value ==
      "<pre><code class=\"language-" + lang + "\">" + Trim(content) + "</code></pre>"
    ensures IndentedCodeNode(content).value == "<pre><code>" + Trim(content) + "</code></pre>"
  {
    TrimShape(content);
    var t := Trim(content);
    var off := |content| - |TrimStart(content)|;
    forall k | 0 <= k < |t| ensures t[k] != '&' && !IsMarkupChar(t[k]) {
      assert t[k] == content[off + k];
    }
    EscapeHtmlIdentity(t);
  }

  /** Escaped code never carries a tag of its own: between the opening and
      closing markup there is no `<` or `>`. */
  lemma CodeHasNoTags(content: string)
    ensures forall k :: 0 <= k < |EscapeHtml(Trim(content))| ==> !IsMarkupChar(EscapeHtml(Trim(content))[k])
  {
    EscapeHtmlNoMarkup(Trim(content));
  }
}
