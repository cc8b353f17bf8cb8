/** parser (src/parsing/index.js:3-453) as the program runs it: one object
    holds the `let` variables and the output array, the flush closures and the
    branches update them in place, and the cursor loop calls one iteration after
    another. Every method is proved to do what the matching function of
    Scanner does to a snapshot of the fields, so Parse returns ParseSpec. */
module Parsing {
  import opened Strings
  import opened Lines
  import opened Html
  import opened Inline
  import opened Identifier
  import opened Nodes
  import opened Scanner
  import ScannerFacts

  /** `html` followed by the cells of `row`, each wrapped in `cell` elements
      (one `row.forEach` of flushTable). */
  method AppendCells(html: string, row: seq<string>, cell: string) returns (out: string)
    ensures out == html + CellsHtml(row, cell)
  {
    out := html;
    var k := 0;
    while k < |row|
      invariant 0 <= k <= |row|
      invariant out == html + CellsHtml(row[..k], cell)
    {
      AppendCellStep(html, row, k, cell);
      out := out + Wrap("<" + cell + ">", row[k], "</" + cell + ">");
      k := k + 1;
    }
    assert row[..k] == row;
  }

  /** `html` followed by one body row: `<tr>`, its `td` cells, `</tr>`. */
  method AppendRow(html: string, row: seq<string>) returns (out: string)
    ensures out == html + RowHtml(row)
  {
    out := html + "<tr>";
    out := AppendCells(out, row, "td");
    out := out + "</tr>";
  }

  /** `html` followed by one `<tr>` of `td` cells per row (the `forEach` over
      the body rows of flushTable). */
  method AppendRows(html: string, rows: seq<seq<string>>) returns (out: string)
    ensures out == html + RowsHtml(rows)
  {
    out := html;
    var k := 0;
    while k < |rows|
      invariant 0 <= k <= |rows|
      invariant out == html + RowsHtml(rows[..k])
    {
      AppendRowStep(html, rows, k);
      out := AppendRow(out, rows[k]);
      k := k + 1;
    }
    assert rows[..k] == rows;
  }

  /** `html` followed by `<dt>` and `<dd>` for every entry (the `forEach` of
      flushDefinitionList). */
  method AppendDefinitions(html: string, defs: seq<Definition>) returns (out: string)
    ensures out == html + DefinitionsHtml(defs)
  {
    out := html;
    var k := 0;
    while k < |defs|
      invariant 0 <= k <= |defs|
      invariant out == html + DefinitionsHtml(defs[..k])
    {
      AppendDefinitionStep(html, defs, k);
      out := out + Wrap("<dt>", defs[k].term, "</dt>");
      out := out + Wrap("<dd>", defs[k].definition, "</dd>");
      k := k + 1;
    }
    assert defs[..k] == defs;
  }

  /** `html` followed by the header section: the first row in `th` cells. */
  method AppendHeader(html: string, row: seq<string>) returns (out: string)
    ensures out == html + HeaderHtml(row)
  {
    out := html + "<thead><tr>";
    out := AppendCells(out, row, "th");
    out := out + "</tr></thead>";
  }

  /** `html` followed by the body section. */
  method AppendBody(html: string, rows: seq<seq<string>>) returns (out: string)
    ensures out == html + BodyHtml(rows)
  {
    out := html + "<tbody>";
    out := AppendRows(out, rows);
    out := out + "</tbody>";
  }

  /** The markup flushTable builds, piece after piece, for a non-empty row set. */
  method BuildTable(rows: seq<seq<string>>) returns (html: string)
    requires |rows| > 0
    ensures html == TableHtml(rows)
  {
    html := "<table>";
    var hasHeader := |rows| > 1;
    if hasHeader {
      var headerRow, bodyRows := rows[0], rows[1..];
      html := AppendHeader(html, headerRow);
      if |bodyRows| > 0 {
        html := AppendBody(html, bodyRows);
      }
      assert html == "<table>" + (HeaderHtml(headerRow) + BodyHtml(bodyRows));
    } else {
      html := AppendBody(html, rows);
    }
    html := html + "</table>";
  }

  /** The `while (cursor < data.length && data[cursor] !== '\n')` loop the
      branches run to read the rest of a line: the characters up to the line
      end, and the cursor left on its line feed, or at the end. */
  method ReadLine(d: string, c: nat) returns (text: string, e: nat)
    ensures text == LineAt(d, c) && e == LineEnd(d, c)
  {
    text := [];
    e := c;
    while e < |d| && d[e] != '\n'
      invariant c <= e <= LineEnd(d, c)
      invariant LineEnd(d, e) == LineEnd(d, c)
      invariant text == if c < |d| then d[c..e] else []
    {
      text := text + [d[e]];
      e := e + 1;
    }
  }

  /** The opening fence's line (src/parsing/index.js:171-181): the rest of
      the line, trimmed, is the language, and the cursor ends past the line
      feed when there is one. */
  method ReadFenceLang(d: string, c: nat) returns (lang: string, e: nat)
    ensures lang == Trim(LineAt(d, c))
    ensures e == AfterLine(d, c)
  {
    var text;
    text, e := ReadLine(d, c);
    lang := Trim(text);
    if e < |d| && d[e] == '\n' {
      e := e + 1;
    }
  }

  /** The rest of a bullet line from `start` (src/parsing/index.js:400-410):
      the item, and the cursor left at the line end. */
  method ReadBullet(d: string, start: nat) returns (item: ListItem, e: nat)
    ensures item == BulletItem(LineAt(d, start)) && e == LineEnd(d, start)
  {
    var point;
    point, e := ReadLine(d, start);
    item := BulletItem(point);
  }

  /** A numbered line at `c` (src/parsing/index.js:419-431): the digit, and
      the rest of the line after the digit, the dot and the space. */
  method ReadNumbered(d: string, c: nat) returns (item: ListItem, e: nat)
    requires c < |d|
    ensures item == NumberedItem(d[c], LineAt(d, c + 3)) && e == LineEnd(d, c + 3)
  {
    var numberChar := d[c];
    var pointValue;
    pointValue, e := ReadLine(d, c + 3);
    item := NumberedItem(numberChar, pointValue);
  }

  /** The same loop when the characters are not kept (closing a fence). */
  method SkipRestOfLine(d: string, c: nat) returns (e: nat)
    ensures e == LineEnd(d, c)
  {
    e := c;
    while e < |d| && d[e] != '\n'
      invariant c <= e <= LineEnd(d, c)
      invariant LineEnd(d, e) == LineEnd(d, c)
    {
      e := e + 1;
    }
  }

  /** The `while (data[cursor] === '#')` loop of the heading branch: how many
      `#` there are, and the first index after them. */
  method ReadHashes(d: string, c: nat) returns (level: nat, e: nat)
    ensures e == HashRunEnd(d, c) && level == e - c
  {
    level, e := 0, c;
    while CharIs(d, e, '#')
      invariant e == c + level
      invariant HashRunEnd(d, e) == HashRunEnd(d, c)
      decreases |d| - e
    {
      level := level + 1;
      e := e + 1;
    }
  }

  /** The line of an ATX heading (src/parsing/index.js:270-281): the run of
      `#` is the level, one space after it is skipped, and the rest of the
      line, without closing `#` and trimmed, is the text. */
  method ReadHeading(d: string, c: nat) returns (level: nat, text: string, e: nat)
    requires c < |d| && d[c] == '#'
    ensures level == HashRunEnd(d, c) - c && text == HeadingText(d, HeadingStart(d, c))
    ensures e == LineEnd(d, HeadingStart(d, c))
  {
    var i;
    level, i := ReadHashes(d, c);
    if CharIs(d, i, ' ') {
      i := i + 1;
    }
    var heading;
    heading, e := ReadLine(d, i);
    heading := StripClosingHashes(heading);
    text := Trim(heading);
  }

  /** The two lines of a definition-list entry (src/parsing/index.js:327-335):
      the term line and the `: ` line after it. The guard already read the
      line skipToNextLine reaches, so the second test cannot fail. */
  method ReadDefinition(d: string, c: nat) returns (entry: Definition, e: nat)
    requires c < |d| && IsDefinitionStart(d, c)
    ensures entry == DefinitionAt(d, c) && e == NextLine(d, NextLine(d, c))
  {
    var line := GetLine(d, c);
    var term := Trim(line);
    e := SkipToNextLine(d, c);
    var defLine := GetLine(d, e);
    if !StartsWithAt(Trim(defLine), 0, ": ") {
      assert false;
    }
    var definition := Trim(defLine)[2..];
    entry := Definition(term, definition);
    e := SkipToNextLine(d, e);
  }

  /** The scan of the indented-code branch (src/parsing/index.js:212-230):
      indented lines lose their indentation, blank lines add a line feed, the
      first other line stops it. */
  method ScanIndented(d: string, c0: nat) returns (codeContent: string, c: nat)
    ensures Collected(codeContent, c) == IndentScan(d, c0, [])
  {
    codeContent, c := [], c0;
    while c < |d|
      invariant IndentScan(d, c, codeContent) == IndentScan(d, c0, [])
      decreases |d| - c
    {
      var currentLine := GetLine(d, c);
      if IsIndented(currentLine) {
        var cleanLine := Dedent(currentLine);
        codeContent := codeContent + (if codeContent != [] then "\n" else []) + cleanLine;
        c := SkipToNextLine(d, c);
      } else if Trim(currentLine) == [] {
        codeContent := codeContent + "\n";
        c := SkipToNextLine(d, c);
      } else {
        break;
      }
    }
  }

  /** The row scan of the table branch with its look-ahead cursor
      (src/parsing/index.js:346-383): blank lines and alignment rows are
      skipped, rows with some content are pushed, the first non-blank line
      without `|` stops it. */
  method ScanTable(d: string, t0: nat, rows0: seq<seq<string>>) returns (rows: seq<seq<string>>, t: nat)
    ensures Collected(rows, t) == TableScan(d, t0, rows0)
  {
    rows, t := rows0, t0;
    while t < |d|
      invariant TableScan(d, t, rows) == TableScan(d, t0, rows0)
      decreases |d| - t
    {
      var currentLine := GetLine(d, t);
      if Trim(currentLine) == [] {
        t := SkipToNextLine(d, t);
        continue;
      }
      if '|' !in currentLine {
        break;
      }
      if IsSeparatorRow(currentLine) {
        t := SkipToNextLine(d, t);
        continue;
      }
      var cells := RowCells(currentLine);
      if |cells| > 0 && HasContent(cells) {
        rows := rows + [cells];
      }
      t := SkipToNextLine(d, t);
    }
  }

  /** The guards after the horizontal rule's, on the line already read. */
  method ChooseRest(d: string, i: nat, inQuote: bool, line: string) returns (b: Branch)
    requires i < |d| && line == LineAt(d, i)
    ensures b == ClassifyRest(d, i, inQuote)
  {
    var c := d[i];
    if c == '>' && CharIs(d, i + 1, ' ') && !inQuote {
      return QuoteOpen;
    }
    if IsDefinitionStart(d, i) {
      return DefinitionLine;
    }
    if c == '|' && '|' in line {
      return TableLine;
    }
    if Identify([c]) == Some(Bullet) && AtLineStart(d, i) {
      return BulletLine;
    }
    if IsNumberedItem(d, i) {
      return NumberedLine;
    }
    if c == '\n' && CharIs(d, i + 1, '\n') {
      return BlankLine;
    }
    return TextChar;
  }

  /** The state of one call of parser. */
  class Parser {
    const data: string
    var syntaxTree: seq<Node>
    var cursor: nat
    var bulletPoints: seq<ListItem>
    var numberedPoints: seq<ListItem>
    var tableRows: seq<seq<string>>
    var inCodeBlock: bool
    var codeBlockLang: string
    var codeBlockContent: string
    var currentParagraph: string
    var inBlockquote: bool
    var blockquoteContent: string
    var definitionList: seq<Definition>
    var inDefinitionList: bool

    /** The fields as a Scanner state. */
    ghost function Snap(): State
      reads this
    {
      State(syntaxTree, cursor, bulletPoints, numberedPoints, tableRows, inCodeBlock, codeBlockLang,
        codeBlockContent, currentParagraph, inBlockquote, blockquoteContent, definitionList, inDefinitionList)
    }

    /** The declarations before the loop (src/parsing/index.js:4-16). */
    constructor(data: string)
      ensures this.data == data && Snap() == Init
    {
      this.data := data;
      syntaxTree := [];
      cursor := 0;
      bulletPoints := [];
      numberedPoints := [];
      tableRows := [];
      inCodeBlock := false;
      codeBlockLang := [];
      codeBlockContent := [];
      currentParagraph := [];
      inBlockquote := false;
      blockquoteContent := [];
      definitionList := [];
      inDefinitionList := false;
    }

    // ------------------------------------------------------------- flushes

    method FlushParagraph()
      modifies this
      ensures Snap() == Scanner.FlushParagraph(old(Snap()))
    {
      if Trim(currentParagraph) != [] {
        syntaxTree := syntaxTree + [ParagraphNode(currentParagraph)];
        currentParagraph := [];
      }
    }

    method FlushBlockquote()
      modifies this
      ensures Snap() == Scanner.FlushBlockquote(old(Snap()))
    {
      if Trim(blockquoteContent) != [] {
        syntaxTree := syntaxTree + [BlockquoteNode(blockquoteContent)];
        blockquoteContent := [];
        inBlockquote := false;
      }
    }

    method FlushLists()
      modifies this
      ensures Snap() == Scanner.FlushLists(old(Snap()))
    {
      if |bulletPoints| > 0 {
        syntaxTree := syntaxTree + [ListGroupNode("bullet-group", "ul", bulletPoints)];
        bulletPoints := [];
      }
      if |numberedPoints| > 0 {
        syntaxTree := syntaxTree + [ListGroupNode("numbered-group", "ol", numberedPoints)];
        numberedPoints := [];
      }
    }

    method FlushDefinitionList()
      modifies this
      ensures Snap() == Scanner.FlushDefinitionList(old(Snap()))
    {
      if |definitionList| > 0 {
        var dlHtml := AppendDefinitions("<dl>", definitionList);
        dlHtml := dlHtml + "</dl>";
        syntaxTree := syntaxTree + [Node("definition-list", dlHtml, Definitions(definitionList), None)];
        definitionList := [];
        inDefinitionList := false;
      }
    }

    method FlushTable()
      modifies this
      ensures Snap() == Scanner.FlushTable(old(Snap()))
    {
      if |tableRows| > 0 {
        var tableHtml := BuildTable(tableRows);
        syntaxTree := syntaxTree + [Node("table", tableHtml, Rows(tableRows), None)];
        tableRows := [];
      }
    }

    method FlushAll()
      modifies this
      ensures Snap() == Scanner.FlushAll(old(Snap()))
    {
      FlushParagraph();
      FlushBlockquote();
      FlushLists();
      FlushDefinitionList();
      FlushTable();
    }

    /** The flushes of the list branches: all but flushLists. */
    method FlushForItem()
      modifies this
      ensures Snap() == Scanner.FlushForItem(old(Snap()))
    {
      FlushParagraph();
      FlushBlockquote();
      FlushDefinitionList();
      FlushTable();
    }

    /** The flushes of the table branch: all but flushTable. */
    method FlushForTable()
      modifies this
      ensures Snap() == Scanner.FlushForTable(old(Snap()))
    {
      FlushParagraph();
      FlushBlockquote();
      FlushLists();
      FlushDefinitionList();
    }

    // ------------------------------------------------------------ branches

    /** `> text` inside an open quote (src/parsing/index.js:144-153). */
    method QuoteContinue()
      requires cursor + 1 < |data|
      modifies this
      ensures Snap() == Scanner.QuoteContinue(data, old(Snap()))
    {
      cursor := cursor + 2;
      var quoteLine;
      quoteLine, cursor := ReadLine(data, cursor);
      blockquoteContent := blockquoteContent + (if blockquoteContent != [] then "\n" else []) + quoteLine;
    }

    /** A fence line, after flushAll (src/parsing/index.js:171-200). */
    method Fence()
      requires cursor + 3 <= |data|
      modifies this
      ensures Snap() == Scanner.Fence(data, old(Snap()))
    {
      if !inCodeBlock {
        FenceOpen();
      } else {
        FenceClose();
      }
    }

    /** The opening fence: the rest of the line is the language. */
    method FenceOpen()
      requires cursor + 3 <= |data|
      modifies this
      ensures Snap() == Scanner.FenceOpen(data, old(Snap()))
    {
      var lang, e := ReadFenceLang(data, cursor + 3);
      OpenBlock(lang, e);
    }

    method OpenBlock(lang: string, c: nat)
      modifies this
      ensures Snap() == Scanner.OpenBlock(old(Snap()), lang, c)
    {
      codeBlockLang := lang;
      cursor := c;
      inCodeBlock := true;
      codeBlockContent := [];
    }

    /** The closing fence: the block becomes a node. */
    method FenceClose()
      requires cursor + 3 <= |data|
      modifies this
      ensures Snap() == Scanner.FenceClose(data, old(Snap()))
    {
      var e := SkipRestOfLine(data, cursor + 3);
      CloseBlock();
      cursor := e;
    }

    method CloseBlock()
      modifies this
      ensures Snap() == Scanner.CloseBlock(old(Snap()))
    {
      syntaxTree := syntaxTree + [FencedCodeNode(codeBlockLang, codeBlockContent)];
      inCodeBlock := false;
      codeBlockContent := [];
      codeBlockLang := [];
    }

    /** An indented code block, after flushAll (src/parsing/index.js:212-237). */
    method IndentedCode()
      requires cursor < |data| && IsIndented(LineAt(data, cursor))
      modifies this
      ensures Snap() == Scanner.IndentedCode(data, old(Snap()))
    {
      var codeContent, c := ScanIndented(data, cursor);
      syntaxTree := syntaxTree + [IndentedCodeNode(codeContent)];
      cursor := c;
    }

    /** A setext underline under a line of text (src/parsing/index.js:251-263). */
    method Setext()
      requires cursor < |data|
      modifies this
      ensures Snap() == Scanner.Setext(data, old(Snap()))
    {
      PromoteLast();
      cursor := SkipToNextLine(data, cursor);
    }

    /** The promotion of the last node (src/parsing/index.js:253-260). */
    method PromoteLast()
      requires cursor < |data|
      modifies this
      ensures Snap() == Scanner.PromoteLast(data, old(Snap()))
    {
      var n := |syntaxTree|;
      if n > 0 && syntaxTree[n - 1].token == "paragraph" {
        var headerText := StripParagraphTags(syntaxTree[n - 1].value);
        var level := if data[cursor] == '=' then 1 else 2;
        syntaxTree := syntaxTree[..n - 1] + [HeadingNode(level, headerText)];
      }
    }

    /** An ATX heading, after flushAll (src/parsing/index.js:270-287). */
    method AtxHeading()
      requires cursor < |data| && data[cursor] == '#'
      modifies this
      ensures Snap() == Scanner.AtxHeading(data, old(Snap()))
    {
      var headingLevel, heading;
      headingLevel, heading, cursor := ReadHeading(data, cursor);
      syntaxTree := syntaxTree + [HeadingNode(headingLevel, heading)];
    }

    /** A horizontal rule, after flushAll (src/parsing/index.js:289-298). */
    method HorizontalRule()
      requires cursor < |data|
      modifies this
      ensures Snap() == Scanner.HorizontalRule(data, old(Snap()))
    {
      syntaxTree := syntaxTree + [HrNode];
      cursor := SkipToNextLine(data, cursor);
    }

    /** `> text` outside a quote, after flushAll (src/parsing/index.js:304-312). */
    method QuoteStart()
      requires cursor + 1 < |data|
      modifies this
      ensures Snap() == Scanner.QuoteStart(data, old(Snap()))
    {
      cursor := cursor + 2;
      var quote;
      quote, cursor := ReadLine(data, cursor);
      blockquoteContent := quote;
      inBlockquote := true;
    }

    /** A term and its `: definition` line, after flushAll
        (src/parsing/index.js:327-337). */
    method DefinitionEntry()
      requires cursor < |data| && IsDefinitionStart(data, cursor)
      modifies this
      ensures Snap() == Scanner.DefinitionEntry(data, old(Snap()))
    {
      var entry;
      entry, cursor := ReadDefinition(data, cursor);
      definitionList := definitionList + [entry];
      inDefinitionList := true;
    }

    /** A table: flush everything else, collect rows with a look-ahead cursor,
        emit the table (src/parsing/index.js:341-388). */
    method Table()
      requires cursor < |data| && data[cursor] == '|'
      modifies this
      ensures Snap() == Scanner.Table(data, old(Snap()))
    {
      FlushForTable();
      CollectRows();
      FlushTable();
    }

    /** The row scan with its look-ahead cursor (src/parsing/index.js:347-383). */
    method CollectRows()
      modifies this
      ensures Snap() == Scanner.TableRows(data, old(Snap()))
    {
      var rows, tempCursor := ScanTable(data, cursor, tableRows);
      tableRows := rows;
      cursor := tempCursor;
    }

    /** A bullet item, after the other flushes (src/parsing/index.js:400-411). */
    method BulletEntry()
      modifies this
      ensures Snap() == Scanner.BulletEntry(data, old(Snap()))
    {
      var item, e := ReadBullet(data, cursor + 2);
      AddBullet(item, e);
    }

    method AddBullet(item: ListItem, c: nat)
      modifies this
      ensures Snap() == Scanner.AddBullet(old(Snap()), item, c)
    {
      bulletPoints := bulletPoints + [item];
      cursor := c;
    }

    /** A numbered item, after the other flushes (src/parsing/index.js:420-432). */
    method NumberedEntry()
      requires cursor < |data|
      modifies this
      ensures Snap() == Scanner.NumberedEntry(data, old(Snap()))
    {
      var item, e := ReadNumbered(data, cursor);
      AddNumbered(item, e);
    }

    method AddNumbered(item: ListItem, c: nat)
      modifies this
      ensures Snap() == Scanner.AddNumbered(old(Snap()), item, c)
    {
      numberedPoints := numberedPoints + [item];
      cursor := c;
    }

    /** One character of paragraph text (src/parsing/index.js:441-447). */
    method ParagraphChar()
      requires cursor < |data|
      modifies this
      ensures Snap() == Scanner.ParagraphChar(data, old(Snap()))
    {
      var c := data[cursor];
      if c != '\n' {
        currentParagraph := currentParagraph + [c];
      } else if Trim(currentParagraph) != [] {
        currentParagraph := currentParagraph + " ";
      }
      cursor := cursor + 1;
    }

    // ---------------------------------------------------------------- loop

    /** The guards of src/parsing/index.js:165-435, tried in order on the
        cursor's line (getLine) and, for an underline, the line before it
        (getPreviousLine). */
    method Choose() returns (b: Branch)
      requires cursor < |data|
      ensures b == Classify(data, cursor, inCodeBlock, inBlockquote)
    {
      var c := data[cursor];
      var line := GetLine(data, cursor);
      if IsFence(data, cursor) {
        return FenceLine;
      }
      if inCodeBlock {
        return CodeChar;
      }
      if IsIndented(line) {
        return IndentedBlock;
      }
      if IsUnderline(data, cursor) {
        var prevLine := GetPreviousLine(data, cursor);
        if prevLine.Some? && Trim(prevLine.value) != [] {
          return SetextUnderline;
        }
      }
      if Identify([c]) == Some(Heading) && AtLineStart(data, cursor) {
        return AtxLine;
      }
      if IsHorizontalRule(line) {
        return RuleLine;
      }
      b := ChooseRest(data, cursor, inBlockquote, line);
    }

    /** The branch the guards pick, with the flushes it runs first. */
    method Dispatch()
      requires cursor < |data|
      modifies this
      ensures Snap() == Scanner.Dispatch(data, old(Snap()))
    {
      var b := Choose();
      Act(b);
    }

    /** The action of the branch `b`. */
    method Act(b: Branch)
      requires cursor < |data| && b == Classify(data, cursor, inCodeBlock, inBlockquote)
      modifies this
      ensures Snap() == Scanner.Act(data, b, old(Snap()))
    {
      match b
      case FenceLine => OnFence();
      case CodeChar => OnCodeChar();
      case IndentedBlock => OnIndented();
      case SetextUnderline => OnSetext();
      case AtxLine => OnAtx();
      case RuleLine => OnRule();
      case QuoteOpen => OnQuoteOpen();
      case DefinitionLine => OnDefinition();
      case TableLine => OnTable();
      case BulletLine => OnBullet();
      case NumberedLine => OnNumbered();
      case BlankLine => OnBlank();
      case TextChar => OnText();
    }

    method OnFence()
      requires cursor < |data| && Classify(data, cursor, inCodeBlock, inBlockquote) == FenceLine
      modifies this
      ensures Snap() == Scanner.Act(data, FenceLine, old(Snap()))
    {
      FlushAll();
      Fence();
    }

    method OnCodeChar()
      requires cursor < |data| && Classify(data, cursor, inCodeBlock, inBlockquote) == CodeChar
      modifies this
      ensures Snap() == Scanner.Act(data, CodeChar, old(Snap()))
    {
      codeBlockContent := codeBlockContent + [data[cursor]];
      cursor := cursor + 1;
    }

    method OnIndented()
      requires cursor < |data| && Classify(data, cursor, inCodeBlock, inBlockquote) == IndentedBlock
      modifies this
      ensures Snap() == Scanner.Act(data, IndentedBlock, old(Snap()))
    {
      FlushAll();
      IndentedCode();
    }

    method OnSetext()
      requires cursor < |data| && Classify(data, cursor, inCodeBlock, inBlockquote) == SetextUnderline
      modifies this
      ensures Snap() == Scanner.Act(data, SetextUnderline, old(Snap()))
    {
      Setext();
    }

    method OnAtx()
      requires cursor < |data| && Classify(data, cursor, inCodeBlock, inBlockquote) == AtxLine
      modifies this
      ensures Snap() == Scanner.Act(data, AtxLine, old(Snap()))
    {
      FlushAll();
      AtxHeading();
    }

    method OnRule()
      requires cursor < |data| && Classify(data, cursor, inCodeBlock, inBlockquote) == RuleLine
      modifies this
      ensures Snap() == Scanner.Act(data, RuleLine, old(Snap()))
    {
      FlushAll();
      HorizontalRule();
    }

    method OnQuoteOpen()
      requires cursor < |data| && Classify(data, cursor, inCodeBlock, inBlockquote) == QuoteOpen
      modifies this
      ensures Snap() == Scanner.Act(data, QuoteOpen, old(Snap()))
    {
      FlushAll();
      QuoteStart();
    }

    method OnDefinition()
      requires cursor < |data| && Classify(data, cursor, inCodeBlock, inBlockquote) == DefinitionLine
      modifies this
      ensures Snap() == Scanner.Act(data, DefinitionLine, old(Snap()))
    {
      FlushAll();
      DefinitionEntry();
    }

    method OnTable()
      requires cursor < |data| && Classify(data, cursor, inCodeBlock, inBlockquote) == TableLine
      modifies this
      ensures Snap() == Scanner.Act(data, TableLine, old(Snap()))
    {
      Table();
    }

    method OnBullet()
      requires cursor < |data| && Classify(data, cursor, inCodeBlock, inBlockquote) == BulletLine
      modifies this
      ensures Snap() == Scanner.Act(data, BulletLine, old(Snap()))
    {
      FlushForItem();
      BulletEntry();
    }

    method OnNumbered()
      requires cursor < |data| && Classify(data, cursor, inCodeBlock, inBlockquote) == NumberedLine
      modifies this
      ensures Snap() == Scanner.Act(data, NumberedLine, old(Snap()))
    {
      FlushForItem();
      NumberedEntry();
    }

    method OnBlank()
      requires cursor < |data| && Classify(data, cursor, inCodeBlock, inBlockquote) == BlankLine
      modifies this
      ensures Snap() == Scanner.Act(data, BlankLine, old(Snap()))
    {
      FlushAll();
      Advance();
    }

    method Advance()
      modifies this
      ensures Snap() == Scanner.Advance(old(Snap()))
    {
      cursor := cursor + 1;
    }

    method OnText()
      requires cursor < |data| && Classify(data, cursor, inCodeBlock, inBlockquote) == TextChar
      modifies this
      ensures Snap() == Scanner.Act(data, TextChar, old(Snap()))
    {
      ParagraphChar();
    }

    /** One iteration of the cursor loop (src/parsing/index.js:139-447). */
    method Step()
      requires cursor < |data|
      modifies this
      ensures Snap() == Scanner.Step(data, old(Snap()))
    {
      var c := data[cursor];
      if inBlockquote && c == '>' && CharIs(data, cursor + 1, ' ') {
        QuoteContinue();
        return;
      }
      if inBlockquote && c == '>' && CharIs(data, cursor + 1, '\n') {
        QuoteBreak();
        return;
      }
      LeaveQuote();
      Dispatch();
    }

    /** `>` and a line feed inside a quote (src/parsing/index.js:155-159). */
    method QuoteBreak()
      modifies this
      ensures Snap() == Scanner.QuoteBreak(old(Snap()))
    {
      blockquoteContent := blockquoteContent + "\n\n";
      cursor := cursor + 2;
    }

    /** src/parsing/index.js:160-162. */
    method LeaveQuote()
      requires cursor < |data|
      modifies this
      ensures Snap() == Scanner.LeaveQuote(data, old(Snap()))
    {
      if inBlockquote && data[cursor] != '>' && data[cursor] != '\n' {
        FlushBlockquote();
      }
    }
  }

  /** parser: the loop until the cursor passes the end, then flushAll. The
      array it returns is ParseSpec, and each of its nodes is one element. */
  method Parse(data: string) returns (syntaxTree: seq<Node>)
    ensures syntaxTree == ParseSpec(data)
    ensures AllElements(syntaxTree)
  {
    var p := new Parser(data);
    while p.cursor < |data|
      invariant Run(data, p.Snap()) == Run(data, Init)
      decreases |data| - p.cursor
    {
      p.Step();
    }
    p.FlushAll();
    syntaxTree := p.syntaxTree;
    ScannerFacts.ParseSpecElements(data);
  }
}
