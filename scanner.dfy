/** The block scanner of src/parsing/index.js (parser, lines 3-453) as a state
    machine over values: the open buffers and the output array form a State,
    one iteration of the cursor loop is Step, the whole loop is Run, and
    ParseSpec is the array parser returns. The class in parser.dfy runs the same
    loop in place and is proved to compute exactly ParseSpec. */
module Scanner {
  import opened Strings
  import opened Lines
  import opened Html
  import opened Inline
  import opened Identifier
  import opened Nodes

  /** The `let` variables of parser with the output array: `tree` is
      syntaxTree, `bullets` bulletPoints, `numbered` numberedPoints, `rows`
      tableRows, `inCode`/`codeLang`/`codeContent` the fenced-code buffer,
      `paragraph` currentParagraph, `inQuote`/`quote` the blockquote buffer,
      `defs`/`inDefs` the definition list. */
  datatype State = State(
    tree: seq<Node>,
    cursor: nat,
    bullets: seq<ListItem>,
    numbered: seq<ListItem>,
    rows: seq<seq<string>>,
    inCode: bool,
    codeLang: string,
    codeContent: string,
    paragraph: string,
    inQuote: bool,
    quote: string,
    defs: seq<Definition>,
    inDefs: bool)

  /** The state before the loop (src/parsing/index.js:4-16). */
  const Init := State([], 0, [], [], [], false, [], [], [], false, [], [], false)

  // ---------------------------------------------------------------- flushes

  /** flushParagraph: a paragraph that is not whitespace only becomes one node
      and the buffer empties; a whitespace-only one stays where it is. */
  function FlushParagraph(st: State): (r: State)
    ensures r.cursor == st.cursor
    ensures r == st.(tree := r.tree, paragraph := r.paragraph)
    ensures Trim(st.paragraph) == [] ==> r == st
    ensures Trim(st.paragraph) != [] ==> r.tree == st.tree + [ParagraphNode(st.paragraph)] && r.paragraph == []
  {
    if Trim(st.paragraph) != [] then
      st.(tree := st.tree + [ParagraphNode(st.paragraph)], paragraph := [])
    else st
  }

  /** flushBlockquote: as flushParagraph, and it also closes the quote; a
      whitespace-only quote stays open. */
  function FlushBlockquote(st: State): (r: State)
    ensures r.cursor == st.cursor
    ensures r == st.(tree := r.tree, quote := r.quote, inQuote := r.inQuote)
    ensures Trim(st.quote) == [] ==> r == st
    ensures Trim(st.quote) != [] ==>
      r.tree == st.tree + [BlockquoteNode(st.quote)] && r.quote == [] && !r.inQuote
  {
    if Trim(st.quote) != [] then
      st.(tree := st.tree + [BlockquoteNode(st.quote)], quote := [], inQuote := false)
    else st
  }

  /** flushLists: at most one `<ul>` node, then at most one `<ol>` node. */
  function FlushLists(st: State): (r: State)
    ensures r.cursor == st.cursor
    ensures r == st.(tree := r.tree, bullets := [], numbered := [])
    ensures r.tree == st.tree
      + (if st.bullets != [] then [ListGroupNode("bullet-group", "ul", st.bullets)] else [])
      + (if st.numbered != [] then [ListGroupNode("numbered-group", "ol", st.numbered)] else [])
  {
    var s1 := if st.bullets != [] then st.(tree := st.tree + [ListGroupNode("bullet-group", "ul", st.bullets)], bullets := []) else st;
    if s1.numbered != [] then s1.(tree := s1.tree + [ListGroupNode("numbered-group", "ol", s1.numbered)], numbered := []) else s1
  }

  /** flushDefinitionList. */
  function FlushDefinitionList(st: State): (r: State)
    ensures r.cursor == st.cursor
    ensures st.defs == [] ==> r == st
    ensures st.defs != [] ==>
      r == st.(tree := st.tree + [DefinitionListNode(st.defs)], defs := [], inDefs := false)
  {
    if st.defs != [] then
      st.(tree := st.tree + [DefinitionListNode(st.defs)], defs := [], inDefs := false)
    else st
  }

  /** flushTable. */
  function FlushTable(st: State): (r: State)
    ensures r.cursor == st.cursor
    ensures st.rows == [] ==> r == st
    ensures st.rows != [] ==> r == st.(tree := st.tree + [TableNode(st.rows)], rows := [])
  {
    if st.rows != [] then st.(tree := st.tree + [TableNode(st.rows)], rows := []) else st
  }

  /** flushAll. */
  function FlushAll(st: State): (r: State)
    ensures r.cursor == st.cursor
  {
    FlushTable(FlushDefinitionList(FlushLists(FlushBlockquote(FlushParagraph(st)))))
  }

  /** The flushes the list branches run: everything but the lists themselves. */
  function FlushForItem(st: State): (r: State)
    ensures r.cursor == st.cursor
  {
    FlushTable(FlushDefinitionList(FlushBlockquote(FlushParagraph(st))))
  }

  /** The flushes of the table branch: everything but the table. */
  function FlushForTable(st: State): (r: State)
    ensures r.cursor == st.cursor
  {
    FlushDefinitionList(FlushLists(FlushBlockquote(FlushParagraph(st))))
  }

  // ------------------------------------------------------- line predicates

  /** Three backticks or three tildes at `i`. */
  predicate IsFence(d: string, i: nat) {
    (CharIs(d, i, '`') && CharIs(d, i + 1, '`') && CharIs(d, i + 2, '`')) ||
    (CharIs(d, i, '~') && CharIs(d, i + 1, '~') && CharIs(d, i + 2, '~'))
  }

  /** A line of indented code: four spaces or a tab first, and not blank. */
  predicate IsIndented(line: string) {
    (StartsWithAt(line, 0, "    ") || StartsWithAt(line, 0, "\t")) && Trim(line) != []
  }

  /** A setext underline from `i` on: `=` or `-` repeated to the end of the line. */
  predicate IsUnderline(d: string, i: nat)
    requires i < |d|
  {
    var t := Trim(LineAt(d, i));
    i > 0 && (d[i] == '=' || d[i] == '-') && t != [] && AllAre(t, d[i])
  }

  /** The line before the cursor's line exists and is not blank. */
  predicate FollowsText(d: string, i: nat) {
    var p := PreviousLine(d, i);
    p.Some? && Trim(p.value) != []
  }

  predicate AtLineStart(d: string, i: nat) {
    i == 0 || CharIs(d, i - 1, '\n')
  }

  /** The guard of the definition-list branch: a line without `:` that does not
      start with whitespace, and a next line that reads `: …` once trimmed. */
  predicate IsDefinitionStart(d: string, i: nat)
    requires i < |d|
  {
    var line := LineAt(d, i);
    d[i] != ' ' && d[i] != '\t' && d[i] != '\n' && ':' !in line && i + 1 < |d| &&
    StartsWithAt(Trim(LineAt(d, i + |line| + 1)), 0, ": ")
  }

  /** A numbered item: a digit, `.` and a space, anywhere in a line. */
  predicate IsNumberedItem(d: string, i: nat)
    requires i < |d|
  {
    IsDigit(d[i]) && CharIs(d, i + 1, '.') && CharIs(d, i + 2, ' ')
  }

  // ---------------------------------------------------------------- branches

  /** `> text` inside a quote: the rest of the line joins the quote on a new line. */
  function QuoteContinue(d: string, st: State): (r: State)
    requires st.cursor + 1 < |d|
    ensures r == st.(quote := r.quote, cursor := r.cursor) && r.cursor > st.cursor
  {
    var start := st.cursor + 2;
    st.(quote := st.quote + (if st.quote != [] then "\n" else []) + LineAt(d, start), cursor := LineEnd(d, start))
  }

  /** A fence outside a code block opens one: the rest of its line is the
      language, and the cursor moves past the line's line feed. */
  function FenceOpen(d: string, st: State): (r: State)
    requires st.cursor + 3 <= |d|
    ensures r.cursor > st.cursor && r.inCode
  {
    var start := st.cursor + 3;
    OpenBlock(st, Trim(LineAt(d, start)), AfterLine(d, start))
  }

  /** An open code block with its language and an empty buffer. */
  function OpenBlock(st: State, lang: string, c: nat): (r: State)
    ensures r.inCode && r.codeContent == [] && r.codeLang == lang && r.cursor == c
    ensures r.tree == st.tree && r.paragraph == st.paragraph && r.quote == st.quote
  {
    st.(codeLang := lang, cursor := c, inCode := true, codeContent := [])
  }

  /** A fence inside a code block closes it: the block becomes a node and the
      rest of the fence line is skipped. */
  function FenceClose(d: string, st: State): (r: State)
    requires st.cursor + 3 <= |d|
    ensures r.cursor > st.cursor && !r.inCode
  {
    CloseBlock(st).(cursor := LineEnd(d, st.cursor + 3))
  }

  /** The node of a closed fenced block, and the code buffers reset. */
  function CloseBlock(st: State): (r: State)
    ensures r.tree == st.tree + [FencedCodeNode(st.codeLang, st.codeContent)]
    ensures r == st.(tree := r.tree, inCode := false, codeContent := [], codeLang := [])
  {
    st.(tree := st.tree + [FencedCodeNode(st.codeLang, st.codeContent)], inCode := false, codeContent := [],
        codeLang := [])
  }

  /** A fence opens a code block or closes the open one. */
  function Fence(d: string, st: State): (r: State)
    requires st.cursor + 3 <= |d|
    ensures r.cursor > st.cursor && r.inCode == !st.inCode
  {
    if !st.inCode then FenceOpen(d, st) else FenceClose(d, st)
  }

  /** The result of a scan ahead over several lines: what it collected and
      where it stopped. */
  datatype Collected<T> = Collected(value: T, cursor: nat)

  /** An indented line without its indentation: four spaces or one tab. */
  function Dedent(line: string): string
    requires StartsWithAt(line, 0, "    ") || StartsWithAt(line, 0, "\t")
  {
    if StartsWithAt(line, 0, "    ") then line[4..] else line[1..]
  }

  /** The indented-code scan: indented lines lose their indentation and are
      joined with line feeds, blank lines add a line feed, and the first other
      line ends the block. */
  function IndentScan(d: string, c: nat, acc: string): (r: Collected<string>)
    ensures r.cursor >= c
    ensures c < |d| && IsIndented(LineAt(d, c)) ==> r.cursor > c
    ensures r.cursor < |d| ==> var l := LineAt(d, r.cursor); !IsIndented(l) && Trim(l) != []
    decreases |d| - c
  {
    if c >= |d| then Collected(acc, c)
    else
      var l := LineAt(d, c);
      if IsIndented(l) then IndentScan(d, NextLine(d, c), acc + (if acc != [] then "\n" else []) + Dedent(l))
      else if Trim(l) == [] then IndentScan(d, NextLine(d, c), acc + "\n")
      else Collected(acc, c)
  }

  /** The scan passes only indented and blank lines: the line it stops at is
      the first line from `c` on that is neither. */
  lemma {:induction false} IndentScanLines(d: string, c: nat, acc: string)
    ensures var e := IndentScan(d, c, acc).cursor;
      forall p :: c <= p < e && (p == c || CharIs(d, p - 1, '\n')) ==>
        IsIndented(LineAt(d, p)) || Trim(LineAt(d, p)) == []
    decreases |d| - c
  {
    if c < |d| {
      var l := LineAt(d, c);
      if IsIndented(l) || Trim(l) == [] {
        var next := NextLine(d, c);
        var acc' := if IsIndented(l) then acc + (if acc != [] then "\n" else []) + Dedent(l) else acc + "\n";
        assert IndentScan(d, c, acc) == IndentScan(d, next, acc');
        IndentScanLines(d, next, acc');
        var e := IndentScan(d, c, acc).cursor;
        forall p | c < p < e && CharIs(d, p - 1, '\n')
          ensures IsIndented(LineAt(d, p)) || Trim(LineAt(d, p)) == []
        {
          NextLineStart(d, c, p);
        }
      }
    }
  }

  /** An indented code block, from the cursor's line to the first line that is
      neither indented nor blank. */
  function IndentedCode(d: string, st: State): (r: State)
    requires st.cursor < |d| && IsIndented(LineAt(d, st.cursor))
    ensures r.cursor > st.cursor
  {
    var sc := IndentScan(d, st.cursor, []);
    st.(tree := st.tree + [IndentedCodeNode(sc.value)], cursor := sc.cursor)
  }

  /** A setext underline under a non-blank line: if the last node is a
      paragraph it becomes a heading, level 1 for `=` and 2 for `-`; the
      underline line is consumed either way. */
  function Setext(d: string, st: State): (r: State)
    requires st.cursor < |d|
    ensures r.cursor == NextLine(d, st.cursor)
  {
    PromoteLast(d, st).(cursor := NextLine(d, st.cursor))
  }

  /** The promotion itself: a last node that is a paragraph becomes a heading
      of the underline's level, its `<p>` tags stripped. */
  function PromoteLast(d: string, st: State): (r: State)
    requires st.cursor < |d|
    ensures r == st.(tree := r.tree)
  {
    var n := |st.tree|;
    if n > 0 && st.tree[n - 1].token == "paragraph" then
      var level := if d[st.cursor] == '=' then 1 else 2;
      st.(tree := st.tree[..n - 1] + [HeadingNode(level, StripParagraphTags(st.tree[n - 1].value))])
    else st
  }

  /** Setext promotion replaces the last node in place: the tree keeps its
      length and every node before the last; the last, when it was a
      paragraph, becomes `h1` for `=` and `h2` for `-`. Nothing else changes. */
  lemma SetextInPlace(d: string, st: State)
    requires st.cursor < |d|
    ensures var r := Setext(d, st);
      && r == st.(tree := r.tree, cursor := r.cursor)
      && |r.tree| == |st.tree|
    ensures var r := Setext(d, st);
      var n := |st.tree|;
      if n > 0 && st.tree[n - 1].token == "paragraph" then
        r.tree[..n - 1] == st.tree[..n - 1] && r.tree[n - 1].token == (if d[st.cursor] == '=' then "h1" else "h2")
      else r.tree == st.tree
  {
    var n := |st.tree|;
    if n > 0 && st.tree[n - 1].token == "paragraph" {
      HeadingTokenOneTwo();
      var r := Setext(d, st);
      assert r.tree[..n - 1] == st.tree[..n - 1];
    }
  }

  /** The first index at or after `i` that does not hold `#`. */
  function HashRunEnd(d: string, i: nat): (j: nat)
    ensures j >= i && !CharIs(d, j, '#')
    ensures forall k :: i <= k < j ==> CharIs(d, k, '#')
    decreases |d| - i
  {
    if CharIs(d, i, '#') then HashRunEnd(d, i + 1) else i
  }

  /** `s` without the copies of `c` at its end. */
  function DropTrailing(s: string, c: char): (r: string)
    ensures |r| <= |s| && r == s[..|r|]
    ensures forall k :: |r| <= k < |s| ==> s[k] == c
    ensures r != [] ==> r[|r| - 1] != c
  {
    if s != [] && s[|s| - 1] == c then DropTrailing(s[..|s| - 1], c) else s
  }

  /** `heading.replace(/\s*#+\s*$/, '')`: a closing run of `#`, with the
      whitespace around it, is removed; text that does not end in `#` (after
      trailing whitespace) is left alone. */
  function StripClosingHashes(h: string): (r: string)
    ensures |r| <= |h| && r == h[..|r|]
  {
    TrimEndShape(h);
    var t := TrimEnd(h);
    if t != [] && t[|t| - 1] == '#' then
      var u := DropTrailing(t, '#');
      TrimEndShape(u);
      assert u == h[..|u|];
      TrimEnd(u)
    else h
  }

  /** An ATX heading: the level is the number of `#`, without any cap; one
      space after them is skipped, and the rest of the line is the text. */
  function AtxHeading(d: string, st: State): (r: State)
    requires st.cursor < |d| && d[st.cursor] == '#'
    ensures r.cursor > st.cursor
  {
    var start := HeadingStart(d, st.cursor);
    st.(tree := st.tree + [HeadingNode(HashRunEnd(d, st.cursor) - st.cursor, HeadingText(d, start))],
        cursor := LineEnd(d, start))
  }

  /** Where the text of an ATX heading starts: after the run of `#` and one
      space, if there is one. */
  function HeadingStart(d: string, i: nat): (start: nat)
    requires i < |d| && d[i] == '#'
    ensures start > i
  {
    var j := HashRunEnd(d, i);
    if CharIs(d, j, ' ') then j + 1 else j
  }

  /** The heading text: the rest of the line without closing `#`, trimmed. */
  function HeadingText(d: string, start: nat): string {
    Trim(StripClosingHashes(LineAt(d, start)))
  }

  /** A horizontal rule: an `<hr />` node, and the line is consumed. */
  function HorizontalRule(d: string, st: State): (r: State)
    requires st.cursor < |d|
    ensures r.cursor > st.cursor
  {
    st.(tree := st.tree + [HrNode], cursor := NextLine(d, st.cursor))
  }

  /** `> text` outside a quote opens one. */
  function QuoteStart(d: string, st: State): (r: State)
    requires st.cursor + 1 < |d|
    ensures r.cursor > st.cursor
  {
    var start := st.cursor + 2;
    st.(quote := LineAt(d, start), inQuote := true, cursor := LineEnd(d, start))
  }

  /** The definition-list branch: the trimmed line is the term and the next
      line, trimmed and without its `: `, the definition. The guard looked
      ahead at `i + |line| + 1`, which is the line skipToNextLine reaches, so
      the second `: ` test (src/parsing/index.js:331) always holds: an entry is
      always added and two lines are always consumed, and the fall-through to
      the later branches never happens. */
  function DefinitionEntry(d: string, st: State): (r: State)
    requires st.cursor < |d| && IsDefinitionStart(d, st.cursor)
    ensures r == st.(defs := r.defs, inDefs := true, cursor := NextLine(d, NextLine(d, st.cursor)))
    ensures |r.defs| == |st.defs| + 1 && r.defs[..|st.defs|] == st.defs
  {
    st.(defs := st.defs + [DefinitionAt(d, st.cursor)], inDefs := true, cursor := NextLine(d, NextLine(d, st.cursor)))
  }

  /** The entry a definition line starts: the trimmed line is the term, the
      next line trimmed and without its `: ` the definition. */
  function DefinitionAt(d: string, i: nat): Definition
    requires i < |d| && IsDefinitionStart(d, i)
  {
    var defLine := Trim(LineAt(d, NextLine(d, i)));
    assert StartsWithAt(defLine, 0, ": ");
    Definition(Trim(LineAt(d, i)), defLine[2..])
  }

  /** The alignment row `/^\s*\|?[\s\-\|:]+\|?\s*$/`: one or more characters,
      each whitespace, `-`, `|` or `:`. */
  predicate IsSeparatorRow(line: string) {
    |line| >= 1 && forall k :: 0 <= k < |line| ==> IsSpace(line[k]) || line[k] == '-' || line[k] == '|' || line[k] == ':'
  }

  function TrimEach(parts: seq<string>): (r: seq<string>)
    ensures |r| == |parts| && forall k :: 0 <= k < |r| ==> r[k] == Trim(parts[k])
  {
    seq(|parts|, k requires 0 <= k < |parts| => Trim(parts[k]))
  }

  /** The cells of a table line: trimmed, one outer `|` removed at each end,
      cut at every `|`, each cell trimmed. */
  function RowCells(line: string): (cells: seq<string>)
    ensures |cells| >= 1
  {
    var t := Trim(line);
    var a := if StartsWithAt(t, 0, "|") then t[1..] else t;
    var b := if EndsWith(a, "|") then a[..|a| - 1] else a;
    TrimEach(Split(b, "|"))
  }

  /** `cells.some((cell) => cell)`. */
  predicate HasContent(cells: seq<string>) {
    exists k :: 0 <= k < |cells| && cells[k] != []
  }

  /** The table scan: blank lines and alignment rows are skipped, rows with only
      empty cells are dropped, and the first non-blank line without `|` stops it. */
  function TableScan(d: string, t: nat, rows: seq<seq<string>>): (r: Collected<seq<seq<string>>>)
    ensures r.cursor >= t
    ensures t < |d| && '|' in LineAt(d, t) ==> r.cursor > t
    ensures r.cursor < |d| ==> var l := LineAt(d, r.cursor); Trim(l) != [] && '|' !in l
    decreases |d| - t
  {
    if t >= |d| then Collected(rows, t)
    else
      var l := LineAt(d, t);
      if Trim(l) == [] then TableScan(d, NextLine(d, t), rows)
      else if '|' !in l then Collected(rows, t)
      else if IsSeparatorRow(l) then TableScan(d, NextLine(d, t), rows)
      else
        var cells := RowCells(l);
        TableScan(d, NextLine(d, t), if |cells| > 0 && HasContent(cells) then rows + [cells] else rows)
  }

  /** The row one table line contributes: its cells, when the line holds `|`,
      is not blank, is no alignment row and has a non-empty cell; else none. */
  function RowOf(l: string): seq<seq<string>> {
    if '|' in l && Trim(l) != [] && !IsSeparatorRow(l) && HasContent(RowCells(l)) then [RowCells(l)] else []
  }

  /** The rows of the lines from `t` on, up to the line that starts at `e`. */
  function RowsBetween(d: string, t: nat, e: nat): seq<seq<string>>
    decreases |d| - t
  {
    if t >= e || t >= |d| then [] else RowOf(LineAt(d, t)) + RowsBetween(d, NextLine(d, t), e)
  }

  /** One line of the scan: a blank line or one holding `|` adds its row,
      if any, and the scan goes on at the next line; any other line stops it. */
  lemma TableScanStep(d: string, t: nat, rows: seq<seq<string>>)
    requires t < |d|
    ensures var l := LineAt(d, t);
      if Trim(l) == [] || '|' in l then TableScan(d, t, rows) == TableScan(d, NextLine(d, t), rows + RowOf(l))
      else TableScan(d, t, rows) == Collected(rows, t)
  {
    var l := LineAt(d, t);
    if Trim(l) == [] || ('|' in l && IsSeparatorRow(l)) {
      assert rows + RowOf(l) == rows;
    } else if '|' in l && !HasContent(RowCells(l)) {
      assert rows + RowOf(l) == rows;
    }
  }

  lemma AppendAssoc<T>(a: seq<T>, b: seq<T>, c: seq<T>)
    ensures (a + b) + c == a + (b + c)
  {
  }

  lemma RowsBetweenStep(d: string, t: nat, e: nat)
    requires t < e && t < |d|
    ensures RowsBetween(d, t, e) == RowOf(LineAt(d, t)) + RowsBetween(d, NextLine(d, t), e)
  {
  }

  /** The scan adds exactly the rows of the lines it passes, in order. */
  lemma {:induction false} TableScanRowsOf(d: string, t: nat, rows: seq<seq<string>>)
    ensures var r := TableScan(d, t, rows); r.value == rows + RowsBetween(d, t, r.cursor)
    decreases |d| - t
  {
    var r := TableScan(d, t, rows);
    if t >= |d| {
      assert rows + [] == rows;
    } else {
      var l := LineAt(d, t);
      TableScanStep(d, t, rows);
      if Trim(l) == [] || '|' in l {
        var next := NextLine(d, t);
        var rows' := rows + RowOf(l);
        TableScanRowsOf(d, next, rows');
        RowsBetweenStep(d, t, r.cursor);
        AppendAssoc(rows, RowOf(l), RowsBetween(d, next, r.cursor));
      } else {
        assert rows + [] == rows;
      }
    }
  }

  /** The scan passes only blank lines and lines holding `|`: it stops at
      the first line from `t` on that is neither. */
  lemma {:induction false} TableScanLines(d: string, t: nat, rows: seq<seq<string>>)
    ensures var e := TableScan(d, t, rows).cursor;
      forall p :: t <= p < e && (p == t || CharIs(d, p - 1, '\n')) ==>
        Trim(LineAt(d, p)) == [] || '|' in LineAt(d, p)
    decreases |d| - t
  {
    if t < |d| {
      var l := LineAt(d, t);
      var next := NextLine(d, t);
      if Trim(l) == [] || '|' in l {
        var cells := RowCells(l);
        var rows' := if Trim(l) == [] || IsSeparatorRow(l) then rows
          else if |cells| > 0 && HasContent(cells) then rows + [cells] else rows;
        assert TableScan(d, t, rows) == TableScan(d, next, rows');
        TableScanLines(d, next, rows');
        var e := TableScan(d, t, rows).cursor;
        forall p | t < p < e && CharIs(d, p - 1, '\n')
          ensures Trim(LineAt(d, p)) == [] || '|' in LineAt(d, p)
        {
          NextLineStart(d, t, p);
        }
      }
    }
  }

  /** The table branch: flush everything else, scan the rows, emit the table. */
  function Table(d: string, st: State): (r: State)
    requires st.cursor < |d| && d[st.cursor] == '|'
    ensures r.cursor > st.cursor
  {
    assert LineAt(d, st.cursor)[0] == '|';
    FlushTable(TableRows(d, FlushForTable(st)))
  }

  /** The rows of a table, collected from the cursor on into `rows`. */
  function TableRows(d: string, st: State): (r: State)
    ensures r == st.(rows := r.rows, cursor := r.cursor)
    ensures st.cursor < |d| && '|' in LineAt(d, st.cursor) ==> r.cursor > st.cursor
  {
    var sc := TableScan(d, st.cursor, st.rows);
    st.(rows := sc.value, cursor := sc.cursor)
  }

  /** A bullet item: the two characters `-` and the one after it are skipped,
      and the rest of the line is the item. */
  function BulletEntry(d: string, st: State): (r: State)
    ensures r.cursor > st.cursor
  {
    var start := st.cursor + 2;
    AddBullet(st, BulletItem(LineAt(d, start)), LineEnd(d, start))
  }

  /** `bulletPoints.push(item)`, with the cursor left at the line end. */
  function AddBullet(st: State, item: ListItem, c: nat): (r: State)
    ensures r.bullets == st.bullets + [item] && r.cursor == c
    ensures r.tree == st.tree && r.numbered == st.numbered
  {
    st.(bullets := st.bullets + [item], cursor := c)
  }

  /** A numbered item: the digit is its value, the rest of the line its text. */
  function NumberedEntry(d: string, st: State): (r: State)
    requires st.cursor < |d|
    ensures r.cursor > st.cursor
  {
    var start := st.cursor + 3;
    AddNumbered(st, NumberedItem(d[st.cursor], LineAt(d, start)), LineEnd(d, start))
  }

  /** `numberedPoints.push(item)`, with the cursor left at the line end. */
  function AddNumbered(st: State, item: ListItem, c: nat): (r: State)
    ensures r.numbered == st.numbered + [item] && r.cursor == c
    ensures r.tree == st.tree && r.bullets == st.bullets
  {
    st.(numbered := st.numbered + [item], cursor := c)
  }

  /** One character of paragraph text; a line feed becomes a space, but only
      after some non-blank text. */
  function ParagraphChar(d: string, st: State): (r: State)
    requires st.cursor < |d|
    ensures r == st.(paragraph := r.paragraph, cursor := st.cursor + 1)
  {
    var c := d[st.cursor];
    var p := if c != '\n' then st.paragraph + [c]
             else if Trim(st.paragraph) != [] then st.paragraph + " "
             else st.paragraph;
    st.(paragraph := p, cursor := st.cursor + 1)
  }

  /** The branches after the blockquote checks, src/parsing/index.js:165-447. */
  datatype Branch =
    | FenceLine | CodeChar | IndentedBlock | SetextUnderline | AtxLine | RuleLine | QuoteOpen
    | DefinitionLine | TableLine | BulletLine | NumberedLine | BlankLine | TextChar

  /** Which branch an iteration takes, the guards tried in the order the loop
      tries them. Every guard reads only the document, the cursor and the two
      flags; the first that holds wins. */
  function Classify(d: string, i: nat, inCode: bool, inQuote: bool): (b: Branch)
    requires i < |d|
    ensures b == FenceLine ==> i + 3 <= |d|
    ensures b == IndentedBlock ==> IsIndented(LineAt(d, i))
    ensures b == AtxLine ==> d[i] == '#'
    ensures b == QuoteOpen ==> i + 1 < |d|
    ensures b == DefinitionLine ==> IsDefinitionStart(d, i)
    ensures b == TableLine ==> d[i] == '|'
    ensures b == CodeChar ==> inCode
  {
    var c := d[i];
    var line := LineAt(d, i);
    if IsFence(d, i) then FenceLine
    else if inCode then CodeChar
    else if IsIndented(line) then IndentedBlock
    else if IsUnderline(d, i) && FollowsText(d, i) then SetextUnderline
    else if Identify([c]) == Some(Heading) && AtLineStart(d, i) then AtxLine
    else if IsHorizontalRule(line) then RuleLine
    else ClassifyRest(d, i, inQuote)
  }

  /** The guards after the horizontal rule's; they never pick an earlier branch. */
  function ClassifyRest(d: string, i: nat, inQuote: bool): (b: Branch)
    requires i < |d|
    ensures !(b.FenceLine? || b.CodeChar? || b.IndentedBlock? || b.SetextUnderline? || b.AtxLine? || b.RuleLine?)
    ensures b == QuoteOpen ==> i + 1 < |d| && !inQuote
    ensures b == DefinitionLine ==> IsDefinitionStart(d, i)
    ensures b == TableLine ==> d[i] == '|'
  {
    var c := d[i];
    var line := LineAt(d, i);
    if c == '>' && CharIs(d, i + 1, ' ') && !inQuote then QuoteOpen
    else if IsDefinitionStart(d, i) then DefinitionLine
    else if c == '|' && '|' in line then TableLine
    else if Identify([c]) == Some(Bullet) && AtLineStart(d, i) then BulletLine
    else if IsNumberedItem(d, i) then NumberedLine
    else if c == '\n' && CharIs(d, i + 1, '\n') then BlankLine
    else TextChar
  }

  /** `cursor++` and nothing else. */
  function Advance(st: State): (r: State)
    ensures r == st.(cursor := r.cursor) && r.cursor == st.cursor + 1
  {
    st.(cursor := st.cursor + 1)
  }

  /** What a branch does, with the flushes it runs first. */
  function Act(d: string, b: Branch, st: State): (r: State)
    requires st.cursor < |d| && b == Classify(d, st.cursor, st.inCode, st.inQuote)
    ensures r.cursor > st.cursor
  {
    var i := st.cursor;
    match b
    case FenceLine => Fence(d, FlushAll(st))
    case CodeChar => st.(codeContent := st.codeContent + [d[i]], cursor := i + 1)
    case IndentedBlock => IndentedCode(d, FlushAll(st))
    case SetextUnderline => Setext(d, st)
    case AtxLine => AtxHeading(d, FlushAll(st))
    case RuleLine => HorizontalRule(d, FlushAll(st))
    case QuoteOpen => QuoteStart(d, FlushAll(st))
    case DefinitionLine => DefinitionEntry(d, FlushAll(st))
    case TableLine => Table(d, st)
    case BulletLine => BulletEntry(d, FlushForItem(st))
    case NumberedLine => NumberedEntry(d, FlushForItem(st))
    case BlankLine => Advance(FlushAll(st))
    case TextChar => ParagraphChar(d, st)
  }

  /** The branch the guards pick, and its action. */
  function Dispatch(d: string, st: State): (r: State)
    requires st.cursor < |d|
    ensures r.cursor > st.cursor
  {
    Act(d, Classify(d, st.cursor, st.inCode, st.inQuote), st)
  }

  /** One iteration of the loop (src/parsing/index.js:139-447). */
  function Step(d: string, st: State): (r: State)
    requires st.cursor < |d|
    ensures r.cursor > st.cursor
  {
    var i := st.cursor;
    var c := d[i];
    if st.inQuote && c == '>' && CharIs(d, i + 1, ' ') then QuoteContinue(d, st)
    else if st.inQuote && c == '>' && CharIs(d, i + 1, '\n') then QuoteBreak(st)
    else Dispatch(d, LeaveQuote(d, st))
  }

  /** `>` alone on a line inside a quote: a blank line in the quote's text. */
  function QuoteBreak(st: State): (r: State)
    ensures r == st.(quote := r.quote, cursor := st.cursor + 2)
    ensures r.quote == st.quote + "\n\n"
  {
    st.(quote := st.quote + "\n\n", cursor := st.cursor + 2)
  }

  /** Text that is neither `>` nor a line feed ends an open quote. */
  function LeaveQuote(d: string, st: State): (r: State)
    requires st.cursor < |d|
    ensures r.cursor == st.cursor
    ensures st.inQuote && d[st.cursor] != '>' && d[st.cursor] != '\n' ==> r == FlushBlockquote(st)
    ensures !(st.inQuote && d[st.cursor] != '>' && d[st.cursor] != '\n') ==> r == st
  {
    if st.inQuote && d[st.cursor] != '>' && d[st.cursor] != '\n' then FlushBlockquote(st) else st
  }

  /** The loop from a given state on: it ends once the cursor reaches or
      passes the end, which it must, as every step moves it forward. */
  function Run(d: string, st: State): (r: State)
    ensures r.cursor >= |d| && r.cursor >= st.cursor
    decreases |d| - st.cursor
  {
    if st.cursor >= |d| then st else Run(d, Step(d, st))
  }

  /** parser: the loop, the closing flushAll, and the output array. */
  function ParseSpec(d: string): seq<Node> {
    FlushAll(Run(d, Init)).tree
  }
}
