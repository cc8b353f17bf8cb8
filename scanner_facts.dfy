/** What the scanner of src/parsing/index.js guarantees across iterations: the
    buffer invariants every step keeps, that every node it emits is one HTML
    element (and so what interpreter makes of the tree), what the closing
    flushAll leaves behind. */
module ScannerFacts {
  import opened Strings
  import opened Lines
  import opened Inline
  import opened Nodes
  import opened Interpreter
  import opened Scanner

  /** The invariants between two iterations of the loop: inDefinitionList is
      set exactly when definitionList holds entries, tableRows is empty (the
      table branch empties it before it continues), text sits in the quote
      buffer only while a quote is open, the code buffer is empty outside a
      fenced block, and every committed node is one HTML element. */
  predicate Valid(st: State) {
    && (st.inDefs <==> st.defs != [])
    && st.rows == []
    && (!st.inQuote ==> st.quote == [])
    && (!st.inCode ==> st.codeContent == [] && st.codeLang == [])
    && AllElements(st.tree)
  }

  lemma InitValid()
    ensures Valid(Init)
  {
  }

  lemma AppendElement(tree: seq<Node>, n: Node)
    requires AllElements(tree) && IsElement(n.value)
    ensures AllElements(tree + [n])
  {
    var t := tree + [n];
    forall k | 0 <= k < |t| ensures IsElement(t[k].value) {
      if k < |tree| {
        assert t[k] == tree[k];
      }
    }
  }

  // ------------------------------------------------------------- flushes

  lemma FlushParagraphValid(st: State)
    requires Valid(st)
    ensures Valid(FlushParagraph(st))
  {
    if Trim(st.paragraph) != [] {
      AppendElement(st.tree, ParagraphNode(st.paragraph));
    }
  }

  lemma FlushBlockquoteValid(st: State)
    requires Valid(st)
    ensures Valid(FlushBlockquote(st))
  {
    if Trim(st.quote) != [] {
      AppendElement(st.tree, BlockquoteNode(st.quote));
    }
  }

  lemma FlushListsValid(st: State)
    requires Valid(st)
    ensures Valid(FlushLists(st))
  {
    var t1 := st.tree + (if st.bullets != [] then [ListGroupNode("bullet-group", "ul", st.bullets)] else []);
    if st.bullets != [] {
      AppendElement(st.tree, ListGroupNode("bullet-group", "ul", st.bullets));
    }
    if st.numbered != [] {
      AppendElement(t1, ListGroupNode("numbered-group", "ol", st.numbered));
    }
  }

  lemma FlushDefinitionListValid(st: State)
    requires Valid(st)
    ensures Valid(FlushDefinitionList(st))
  {
    if st.defs != [] {
      AppendElement(st.tree, DefinitionListNode(st.defs));
    }
  }

  /** flushTable closes whatever rows a scan collected. */
  lemma FlushTableValid(st: State)
    requires Valid(st.(rows := []))
    ensures Valid(FlushTable(st))
  {
    if st.rows != [] {
      AppendElement(st.tree, TableNode(st.rows));
    }
  }

  lemma FlushAllValid(st: State)
    requires Valid(st)
    ensures Valid(FlushAll(st)) && Valid(FlushForItem(st)) && Valid(FlushForTable(st))
  {
    var s1 := FlushParagraph(st);
    FlushParagraphValid(st);
    var s2 := FlushBlockquote(s1);
    FlushBlockquoteValid(s1);
    var s3 := FlushLists(s2);
    FlushListsValid(s2);
    FlushDefinitionListValid(s3);
    FlushTableValid(FlushDefinitionList(s3));
    FlushDefinitionListValid(s2);
    FlushTableValid(FlushDefinitionList(s2));
  }

  // ------------------------------------------------------------ branches

  lemma QuoteContinueValid(d: string, st: State)
    requires st.cursor + 1 < |d| && st.inQuote && Valid(st)
    ensures Valid(QuoteContinue(d, st))
  {
  }

  lemma FenceValid(d: string, st: State)
    requires st.cursor + 3 <= |d| && Valid(st)
    ensures Valid(Fence(d, st))
  {
    if st.inCode {
      AppendElement(st.tree, FencedCodeNode(st.codeLang, st.codeContent));
    }
  }

  lemma IndentedCodeValid(d: string, st: State)
    requires st.cursor < |d| && IsIndented(LineAt(d, st.cursor)) && Valid(st)
    ensures Valid(IndentedCode(d, st))
  {
    AppendElement(st.tree, IndentedCodeNode(IndentScan(d, st.cursor, []).value));
  }

  lemma SetextValid(d: string, st: State)
    requires st.cursor < |d| && Valid(st)
    ensures Valid(Setext(d, st))
  {
    var n := |st.tree|;
    if n > 0 && st.tree[n - 1].token == "paragraph" {
      var level := if d[st.cursor] == '=' then 1 else 2;
      var h := HeadingNode(level, StripParagraphTags(st.tree[n - 1].value));
      var pre := st.tree[..n - 1];
      assert AllElements(pre) by {
        forall k | 0 <= k < |pre| ensures IsElement(pre[k].value) {
          assert pre[k] == st.tree[k];
        }
      }
      AppendElement(pre, h);
    }
  }

  lemma AtxHeadingValid(d: string, st: State)
    requires st.cursor < |d| && d[st.cursor] == '#' && Valid(st)
    ensures Valid(AtxHeading(d, st))
  {
    AppendElement(st.tree, HeadingNode(HashRunEnd(d, st.cursor) - st.cursor, HeadingText(d, HeadingStart(d, st.cursor))));
  }

  lemma TableValid(d: string, st: State)
    requires st.cursor < |d| && d[st.cursor] == '|' && Valid(st)
    ensures Valid(Table(d, st))
  {
    FlushAllValid(st);
    FlushTableValid(TableRows(d, FlushForTable(st)));
  }

  lemma BulletEntryValid(d: string, st: State)
    requires Valid(st)
    ensures Valid(BulletEntry(d, st))
  {
  }

  lemma NumberedEntryValid(d: string, st: State)
    requires st.cursor < |d| && Valid(st)
    ensures Valid(NumberedEntry(d, st))
  {
  }

  /** Every branch keeps the invariants. */
  lemma DispatchValid(d: string, st: State)
    requires st.cursor < |d| && Valid(st)
    ensures Valid(Dispatch(d, st))
  {
    FlushAllValid(st);
    var s := FlushAll(st);
    match Classify(d, st.cursor, st.inCode, st.inQuote)
    case FenceLine => FenceValid(d, s);
    case CodeChar =>
    case IndentedBlock => IndentedCodeValid(d, s);
    case SetextUnderline => SetextValid(d, st);
    case AtxLine => AtxHeadingValid(d, s);
    case RuleLine => AppendElement(s.tree, HrNode);
    case QuoteOpen =>
    case DefinitionLine =>
    case TableLine => TableValid(d, st);
    case BulletLine => BulletEntryValid(d, FlushForItem(st));
    case NumberedLine => NumberedEntryValid(d, FlushForItem(st));
    case BlankLine =>
    case TextChar =>
  }

  /** One iteration keeps the invariants. */
  lemma StepValid(d: string, st: State)
    requires st.cursor < |d| && Valid(st)
    ensures Valid(Step(d, st))
  {
    var i := st.cursor;
    var c := d[i];
    if st.inQuote && c == '>' && CharIs(d, i + 1, ' ') {
      QuoteContinueValid(d, st);
    } else if !(st.inQuote && c == '>' && CharIs(d, i + 1, '\n')) {
      var s1 := if st.inQuote && c != '>' && c != '\n' then FlushBlockquote(st) else st;
      FlushBlockquoteValid(st);
      DispatchValid(d, s1);
    }
  }

  /** So does the whole loop. */
  lemma {:induction false} RunValid(d: string, st: State)
    requires Valid(st)
    ensures Valid(Run(d, st))
    decreases |d| - st.cursor
  {
    if st.cursor < |d| {
      StepValid(d, st);
      RunValid(d, Step(d, st));
    }
  }

  /** Every node of parser's output is one HTML element. */
  lemma ParseSpecElements(d: string)
    ensures AllElements(ParseSpec(d))
  {
    InitValid();
    RunValid(d, Init);
    FlushAllValid(Run(d, Init));
  }

  /** interpreter, given parser's output as the children of a root object,
      returns the values of the nodes joined in order: each node's own value
      wins over its children. */
  lemma ParseSpecSerializes(d: string)
    ensures Interpret(Document(ParseSpec(d))) == Concat(Values(ParseSpec(d)))
  {
    ParseSpecElements(d);
    InterpretDocument(ParseSpec(d));
  }
}
