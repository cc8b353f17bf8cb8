# A verified model of a small markdown-to-HTML converter

This project models the core of a JavaScript markdown converter in Dafny:

- the block scanner `parser(data)` of `src/parsing/index.js`;
- its inline transformer `parseInlineElements`;
- its line helpers `getLine`, `getPreviousLine` and `skipToNextLine`;
- the small helpers `isHorizontalRule`, `tag` and `escapeHtml`;
- the character classifier `identifier`;
- the tree printer `interpreter`.

The scanner walks a cursor through the document. It holds its state in thirteen
local variables: the output array, the cursor, and the buffers of an open
paragraph, quote, code block, list, table or definition list. Each iteration
tries a fixed sequence of guards. The first guard that holds picks a branch;
the branch flushes some of the buffers into nodes of the syntax tree `{ token,
value, children?, language? }` and moves the cursor on.

The model follows that structure in two layers:

- `Scanner` (scanner.dfy) is a functional specification of the scanner.
  - `State` holds the thirteen variables.
  - There is one function per flush and one per branch.
  - `Classify` states the guard order.
  - `Step` is one iteration, `Run` the loop, and `ParseSpec` the whole call.
- `Parsing.Parser` (parser.dfy) is the imperative scanner: a class whose
  fields are those variables.
  - Its flush and branch methods update the fields in place. Each one is
    proved to leave the fields equal to its Scanner counterpart applied to
    the old fields (`Snap() == Scanner.X(data, old(Snap()))`).
  - The character loops of the branches (reading a line, counting `#`,
    scanning indented lines or table rows, building table markup) are
    `while` loops with invariants. They sit in field-free methods of the
    same module.
  - `Parsing.Parse` runs the loop under the invariant
    `Run(data, Snap()) == Run(data, Init)`, so its result is `ParseSpec(data)`.

On top of the specification, `ScannerFacts` proves:

- an invariant that every iteration keeps: the buffers of closed constructs
  are empty, and `inDefinitionList` is set exactly when entries wait;
- that every node the scanner emits is one HTML element;
- that `interpreter`, given the output as the children of a root object,
  prints the concatenation of the node values.

`Inline` writes each regular expression of `parseInlineElements` as a `Rule`
matched by hand at one position. `Apply` is the global `replace`: leftmost
match, resume after it. For this machinery the model proves:

- that passes run in source order;
- that text with no pattern's lead character passes through unchanged;
- that `.*?` is lazy: no line terminator and no earlier closing delimiter.

`Html` proves that `escapeHtml`'s five chained replacements escape each
character once (`&` first, so nothing is escaped twice) and leave no markup
character behind. `Strings` proves `trim`, `split`/`join` and decimal
formatting facts. `Lines` proves the line helpers.

Behaviour that the code has and this model keeps:

- A setext underline such as `====` promotes the last node only when that node
  is an already committed paragraph. The text on the line above is still in
  the paragraph buffer when the underline is reached. The underline line is
  skipped all the same, so `Title\n=====` becomes the paragraph `<p>Title</p>`,
  with no heading and no trace of the underline.
- A fenced code block still open at the end of the input is dropped:
  `flushAll` does not flush the code buffer.
- `identifier` takes one argument (the bullet branch passes a second one,
  which is ignored); only `-` is a bullet, and `*` and `+` are not.
- A numbered item needs a digit, `.` and a space. Nothing requires it to start
  a line.
- The heading level is the number of `#` in the run, and is not capped at 6.
- A paragraph or quote buffer that holds only whitespace is not reset by its
  flush: the text stays in the buffer.
- The definition branch's second check (src/parsing/index.js:331) always
  holds, because its guard already looked at the same line. Its fall-through
  is unreachable, and `Parsing.ReadDefinition` proves this (`assert false`
  in that branch).

## Model

| member | source | states |
|---|---|---|
| Strings.StartsWithAtSlice | src/parsing/index.js:209 | `startsWith` at an index holds exactly when the slice there equals the prefix |
| Strings.TrimStartShape | src/parsing/index.js:19 | the leading trim keeps a suffix; everything cut is whitespace; the rest starts with non-whitespace |
| Strings.TrimEndShape | src/parsing/index.js:19 | the trailing trim keeps a prefix; everything cut is whitespace; the rest ends with non-whitespace |
| Strings.TrimShape | src/parsing/index.js:19 | `trim()` is one contiguous slice of its input, and neither starts nor ends with whitespace |
| Strings.TrimEmptyIffAllSpace | src/parsing/index.js:19 | `if (s.trim())` fails exactly when the string is all whitespace |
| Strings.ReplaceCharAppend | src/parsing/index.js:32 | replacing a character distributes over concatenation |
| Strings.ReplaceCharAbsent | src/parsing/index.js:32 | replacing a character that does not occur changes nothing |
| Strings.IndexOf | src/parsing/index.js:30 | the first position at or after `i` where the separator starts, or the end |
| Strings.Split | src/parsing/index.js:30 | `split` always yields at least one part |
| Strings.SplitFirst | src/parsing/index.js:30 | `split` peels off the text before the first separator and splits the rest |
| Strings.SplitJoin | src/parsing/index.js:30 | joining the parts with the separator gives back the string |
| Strings.SplitPartsFree | src/parsing/index.js:30 | no part of a split contains the separator |
| Strings.ConcatAppend | src/interpreter/index.js:6 | `join('')` of two concatenated arrays is the concatenation of the joins |
| Strings.ConcatOfEmpties | src/interpreter/index.js:6 | joining empty strings gives the empty string |
| Strings.NatToString | src/parsing/index.js:284 | a level's decimal text is never empty |
| Strings.NatToStringDigits | src/parsing/index.js:284 | a level's decimal text is all digits, and those digits read back as the level |
| Lines.LineEnd | src/parsing/index.js:489 | the index of the line feed that ends the line, or the end of the document; a cursor past the end stays put |
| Lines.LineEndScan | src/parsing/index.js:489 | there is no line feed between the cursor and its line end |
| Lines.LineAt | src/parsing/index.js:486-494 | the line's length is the distance to the line end |
| Lines.LineAtShape | src/parsing/index.js:486-494 | `getLine` is the slice up to the line feed, and holds none |
| Lines.NextLine | src/parsing/index.js:513-518 | `skipToNextLine` always moves the cursor forward |
| Lines.AfterLine | src/parsing/index.js:178-180 | stepping over an optional line feed never moves the cursor back |
| Lines.NextLineStart | src/parsing/index.js:513-518 | a line that starts after the cursor starts at or after the line `skipToNextLine` reaches, so no line start is skipped |
| Lines.GetLine | src/parsing/index.js:486-494 | the loop collects exactly the rest of the line |
| Lines.SkipToNextLine | src/parsing/index.js:513-518 | the loop returns one past the line end |
| Lines.LineStart | src/parsing/index.js:497-500 | the start of the cursor's line is at or before it, at 0 or just after a line feed |
| Lines.LineStartScan | src/parsing/index.js:497-500 | no line feed lies between a line's start and the cursor |
| Lines.PreviousLine | src/parsing/index.js:496-511 | there is no previous line exactly when the cursor is on the first line |
| Lines.PreviousLineShape | src/parsing/index.js:504-510 | the previous line is the slice between the two line starts before the line feed, and holds no line feed |
| Lines.GetPreviousLine | src/parsing/index.js:496-511 | the two backward loops return the previous line, or null on the first line |
| Html.EscapeHtml | src/parsing/index.js:529-536 | the five chained `replace` calls, `&` first; its meaning is given by EscapeHtmlIsPerChar (equal to the per-character reference EscapeEach), EscapeHtmlNoMarkup and EscapeHtmlIdentity |
| Html.EscapeHtmlAppend | src/parsing/index.js:529-536 | escaping distributes over concatenation |
| Html.EscapeHtmlOneChar | src/parsing/index.js:529-536 | one character becomes its entity; `&` is replaced first, so no entity is escaped twice |
| Html.EscapeHtmlIsPerChar | src/parsing/index.js:529-536 | the five chained replacements equal escaping each character on its own |
| Html.EscapeHtmlNoMarkup | src/parsing/index.js:529-536 | escaped text holds no `<`, `>`, `"` or `'` |
| Html.EscapeHtmlIdentity | src/parsing/index.js:529-536 | text without `&` and markup characters is left as it is |
| Html.Tag | src/parsing/index.js:525-527 | `<t>v</t>` adds the two tags around the value, and starts with `<` and ends with `>` |
| Html.IsHorizontalRule | src/parsing/index.js:520-523 | the three anchored tests on the trimmed line; HorizontalRuleShape states which lines pass |
| Html.HorizontalRuleShape | src/parsing/index.js:520-523 | a line is a rule exactly when, trimmed, it is three or more of one of `-`, `*`, `_` |
| Inline.FindFrom | src/parsing/index.js:456 | where a `[^c]+` run stops: the first `c` at or after `i`, or the end |
| Inline.LazyClose | src/parsing/index.js:461-467 | `(.*?)` closes at the first delimiter, with no line terminator before it; no close exactly when the delimiter occurs nowhere before the first line terminator (or the end) |
| Inline.LazyPair | src/parsing/index.js:461-467 | a delimited match ends after its start, inside the text |
| Inline.Match | src/parsing/index.js:456-481 | every pattern's match at a position consumes at least one character and stays inside the text |
| Inline.ReplaceFrom | src/parsing/index.js:455-483 | the global `replace` from one position: the leftmost match is replaced and the scan resumes after it, otherwise one character is copied; ReplaceFromPlain, ReplaceFromNoStar and StrongSpanStep state what it does to plain text and to matches |
| Inline.Apply | src/parsing/index.js:455-483 | one `text.replace(pattern, replacement)` with the `g` flag, over the whole text; StrongTwoSpans and ReplaceThenIsReplaceFrom state its results |
| Inline.ReplaceThenIsReplaceFrom | src/parsing/index.js:455-483 | the fused scan equals one complete `replace` pass followed by the remaining passes |
| Inline.ApplyAllStep | src/parsing/index.js:455-483 | the passes run in order, first pass first |
| Inline.NoTriggerNoMatch | src/parsing/index.js:456-481 | no pattern matches at a character that starts none of them |
| Inline.ReplaceFromPlainRun | src/parsing/index.js:455-483 | a run of such characters is copied unchanged |
| Inline.ReplaceFromPlain | src/parsing/index.js:455-483 | one pass leaves text without lead characters unchanged |
| Inline.ApplyAllPlain | src/parsing/index.js:455-483 | any sequence of passes leaves such text unchanged |
| Inline.ParseInline | src/parsing/index.js:455-484 | the fifteen passes of `parseInlineElements` in source order; ApplyAllStep and InlinePlainIdentity state their effect |
| Inline.InlinePlainIdentity | src/parsing/index.js:455-484 | `parseInlineElements` returns plain text as it is |
| Inline.StrongIsLazy | src/parsing/index.js:461 | a `**` match is the shortest, holds no line terminator and becomes `<strong>` around the inner text |
| Inline.DoubleStarAt | src/parsing/index.js:461 | `**` starts at a position exactly when two `*` stand there |
| Inline.StrongClosesAtFirst | src/parsing/index.js:461 | conversely, a `**` whose next `**` follows on the same line matches up to that next `**` and becomes `<strong>` around the text between |
| Inline.StrongSpanStep | src/parsing/index.js:461 | the global replace turns such a span into `<strong>` and resumes after its closing `**` |
| Inline.ReplaceFromNoStar | src/parsing/index.js:461 | text without `*` is copied unchanged by the `**` pass |
| Inline.StrongLastSpan | src/parsing/index.js:461 | a bold span that ends the text becomes its last `<strong>` element |
| Inline.StrongPlainThenLast | src/parsing/index.js:461 | plain text followed by a final bold span is copied, then the span is replaced |
| Inline.StrongTwoSpansIn | src/parsing/index.js:461 | two bold spans with plain text between are replaced separately, each closing at its own first `**` |
| Inline.StrongTwoSpans | src/parsing/index.js:461 | `**a**m**b**` with star-free `a`, `m`, `b` (no line terminator in `a` or `b`) becomes `<strong>a</strong>m<strong>b</strong>`: two spans, not one reaching the last `**` |
| Nodes.ParagraphNode | src/parsing/index.js:18-26 | the paragraph node's value is one HTML element |
| Nodes.BlockquoteNode | src/parsing/index.js:28-42 | the blockquote node's value is one HTML element |
| Nodes.ListGroupNode | src/parsing/index.js:44-60 | the `<ul>` node of the bullets and the `<ol>` node of the numbered items, one definition for both: an element that keeps its items as children |
| Nodes.BulletItem | src/parsing/index.js:406-410 | a bullet's value is its trimmed text and its tag an `<li>` element |
| Nodes.NumberedItem | src/parsing/index.js:427-431 | a numbered item's value is the digit alone, not its text |
| Nodes.DefinitionListNode | src/parsing/index.js:63-80 | the `<dl>` node is an element that keeps its entries as children |
| Nodes.TableNode | src/parsing/index.js:82-128 | the table node is an element that keeps its rows as children |
| Nodes.FencedCodeNode | src/parsing/index.js:186-190 | a fenced block's node is an element carrying its language |
| Nodes.IndentedCodeNode | src/parsing/index.js:232-236 | an indented block's node is an element with the empty language |
| Nodes.HeadingToken | src/parsing/index.js:284 | `h${level}` is `h` followed by at least one character |
| Nodes.HeadingTokenLevel | src/parsing/index.js:284 | the token's characters after `h` are digits whose value is the level |
| Nodes.HeadingTokenOneTwo | src/parsing/index.js:256-258 | levels 1 and 2 give the tokens `h1` and `h2`, the two a setext underline can produce |
| Nodes.HeadingNode | src/parsing/index.js:283-286 | a heading node carries its level's token and an element value |
| Nodes.TableWithHeader | src/parsing/index.js:86-106 | with two or more rows the first is the header and the rest are always a body: the guard on an empty body never fails |
| Nodes.TableWithoutHeader | src/parsing/index.js:107-117 | a single row is one `td` row in a body, with no header |
| Nodes.CodeIsVerbatim | src/parsing/index.js:186-190 | code without `&` or markup characters appears trimmed and untouched, with no inline markup applied |
| Nodes.CodeHasNoTags | src/parsing/index.js:188 | escaped code contains no markup character |
| Identifier.Identify | src/identifier/index.js:1-11 | `heading` exactly for `#`, `bullet` exactly for `-`, `number` exactly when a digit occurs, otherwise undefined |
| Identifier.IdentifyChar | src/identifier/index.js:1-11 | the same, for the single characters the scanner passes |
| Interpreter.Interpret | src/interpreter/index.js:1-11 | the three cases of `interpreter`: a truthy value, else the children mapped and joined, else the empty string; Unfold, ValueHidesChildren, ChildrenConcatenate and InterpretDocument state its results |
| Interpreter.Unfold | src/interpreter/index.js:5-7 | without a value, the result is the children's results joined |
| Interpreter.ValueHidesChildren | src/interpreter/index.js:2-4 | a non-empty value wins over any children |
| Interpreter.ChildrenConcatenate | src/interpreter/index.js:5-7 | the result over two child lists is the concatenation of the results |
| Interpreter.BlankChildren | src/interpreter/index.js:1-11 | children without value or children print as nothing |
| Interpreter.InterpretNode | src/interpreter/index.js:2-4 | a node whose value is an element prints as that value |
| Interpreter.InterpretItems | src/interpreter/index.js:5-7 | a list of items prints as their values joined |
| Interpreter.InterpretDocument | src/interpreter/index.js:1-11 | a root object over element nodes prints as the node values joined in order |
| Scanner.FlushParagraph | src/parsing/index.js:18-26 | a whitespace-only paragraph changes nothing, not even the buffer; otherwise its node is pushed and the buffer cleared; nothing else changes |
| Scanner.FlushBlockquote | src/parsing/index.js:28-42 | the same for the quote buffer, which also clears `inBlockquote` |
| Scanner.FlushLists | src/parsing/index.js:44-61 | pushes the `<ul>` node, then the `<ol>` node, each only if its list is non-empty, and empties both lists |
| Scanner.FlushDefinitionList | src/parsing/index.js:63-80 | with entries, pushes the `<dl>` node, empties the list and clears `inDefinitionList`; otherwise changes nothing |
| Scanner.FlushTable | src/parsing/index.js:82-128 | with rows, pushes the table node and empties the rows; otherwise changes nothing |
| Scanner.FlushAll | src/parsing/index.js:130-136 | the five flushes never move the cursor |
| Scanner.FlushForItem | src/parsing/index.js:395-398 | the list branches' flushes never move the cursor |
| Scanner.FlushForTable | src/parsing/index.js:341-344 | the table branch's flushes never move the cursor |
| Scanner.QuoteContinue | src/parsing/index.js:144-153 | `> text` inside a quote changes only the quote buffer and moves the cursor forward |
| Scanner.FenceOpen | src/parsing/index.js:171-184 | an opening fence opens a code block and moves the cursor forward |
| Scanner.OpenBlock | src/parsing/index.js:178-183 | the code block is open with its language and an empty buffer; tree, paragraph and quote are kept |
| Scanner.FenceClose | src/parsing/index.js:185-198 | a closing fence closes the block and moves the cursor forward |
| Scanner.CloseBlock | src/parsing/index.js:186-193 | the code node is pushed and the three code fields reset; nothing else changes |
| Scanner.Fence | src/parsing/index.js:164-200 | a fence flips `inCodeBlock` and moves the cursor forward |
| Scanner.IndentScan | src/parsing/index.js:212-230 | the scan consumes at least the first indented line and stops at the end or at a non-blank line that is not indented |
| Scanner.IndentScanLines | src/parsing/index.js:212-230 | every line the scan passes is indented or blank, so the line it stops at is the first one from the start that is neither |
| Scanner.IndentedCode | src/parsing/index.js:209-237 | an indented block moves the cursor forward |
| Scanner.Setext | src/parsing/index.js:249-263 | an underline under text moves the cursor to the next line |
| Scanner.PromoteLast | src/parsing/index.js:251-261 | the promotion changes only the tree |
| Scanner.SetextInPlace | src/parsing/index.js:251-262 | a committed paragraph as the last node becomes an `h1` (for `=`) or `h2` heading in its place, and every other node is unchanged; otherwise the tree is unchanged |
| Scanner.HashRunEnd | src/parsing/index.js:271-274 | the end of the run of `#`: every index from the start up to it holds `#` and the one at it does not, with no cap on the length |
| Scanner.DropTrailing | src/parsing/index.js:281 | removes exactly the trailing run of one character |
| Scanner.StripClosingHashes | src/parsing/index.js:281 | removing the closing `#`s with their whitespace leaves a prefix of the heading text |
| Scanner.AtxHeading | src/parsing/index.js:267-288 | an ATX heading moves the cursor forward |
| Scanner.HeadingStart | src/parsing/index.js:270-275 | the heading text starts past the first `#` of the line |
| Scanner.HorizontalRule | src/parsing/index.js:290-299 | a rule moves the cursor forward |
| Scanner.QuoteStart | src/parsing/index.js:301-313 | opening a quote moves the cursor forward |
| Scanner.DefinitionAt | src/parsing/index.js:327-333 | the term is the trimmed line and the definition the trimmed next line after its `: `; Parsing.ReadDefinition proves the loop computes it |
| Scanner.DefinitionEntry | src/parsing/index.js:325-336 | one entry is appended after the others, `inDefinitionList` is set, the cursor moves two lines on, and nothing else changes |
| Scanner.RowCells | src/parsing/index.js:366-376 | a row line always splits into at least one cell |
| Scanner.IsSeparatorRow | src/parsing/index.js:359 | the alignment-row pattern: a non-empty line of whitespace, `-`, `|` and `:` only; RowOf and TableScanRowsOf state that such lines give no row |
| Scanner.TableScan | src/parsing/index.js:346-383 | the row scan consumes at least the first line holding `|` and stops at the end or at a non-blank line without `|` |
| Scanner.RowOf | src/parsing/index.js:346-380 | the row one line adds: its cells when it holds `|`, is not blank, is no alignment row and has a non-empty cell; otherwise none |
| Scanner.RowsBetween | src/parsing/index.js:346-383 | the rows of the lines from one line start up to another, in order |
| Scanner.TableScanStep | src/parsing/index.js:346-383 | one line of the scan: a blank line or a `|` line adds its row, if any, and the scan goes on at the next line; any other line stops it with the rows unchanged |
| Scanner.RowsBetweenStep | src/parsing/index.js:346-383 | the rows of a range are the first line's row followed by the rest |
| Scanner.TableScanRowsOf | src/parsing/index.js:346-383 | the scan returns its given rows followed by exactly the rows of the lines it passed, in order: alignment rows, blank lines and rows of empty cells add nothing |
| Scanner.TableScanLines | src/parsing/index.js:346-352 | every line the scan passes is blank or holds `|`, so it stops at the first line from the start that is neither |
| Scanner.Table | src/parsing/index.js:340-389 | a table moves the cursor forward |
| Scanner.TableRows | src/parsing/index.js:346-385 | collecting rows changes only the rows and the cursor, and moves the cursor forward on a `|` line |
| Scanner.BulletEntry | src/parsing/index.js:400-411 | a bullet item moves the cursor forward |
| Scanner.AddBullet | src/parsing/index.js:406-410 | the item is appended to the bullets; the tree and the numbered list are kept |
| Scanner.NumberedEntry | src/parsing/index.js:420-432 | a numbered item moves the cursor forward |
| Scanner.AddNumbered | src/parsing/index.js:427-431 | the item is appended to the numbered list; the tree and the bullets are kept |
| Scanner.ParagraphChar | src/parsing/index.js:441-447 | a text character changes only the paragraph buffer and advances the cursor by one |
| Scanner.Classify | src/parsing/index.js:164-446 | whichever guard wins, what its branch reads is in bounds (a fence has three characters, a table line starts with `|`, and so on) |
| Scanner.ClassifyRest | src/parsing/index.js:301-446 | the later guards never pick an earlier branch, and a quote opens only outside a quote |
| Scanner.Advance | src/parsing/index.js:436 | `cursor++` changes the cursor alone |
| Scanner.Act | src/parsing/index.js:164-447 | every branch moves the cursor forward |
| Scanner.Dispatch | src/parsing/index.js:164-447 | so does every guarded iteration |
| Scanner.Step | src/parsing/index.js:139-447 | every iteration, quote continuations included, moves the cursor forward, so the loop ends |
| Scanner.QuoteBreak | src/parsing/index.js:155-159 | `>` alone inside a quote appends a blank line to the quote; only the quote and the cursor change |
| Scanner.LeaveQuote | src/parsing/index.js:160-162 | text other than `>` or a line feed flushes an open quote; otherwise nothing changes |
| Scanner.Run | src/parsing/index.js:138-448 | the loop stops with the cursor at or past the end of the document |
| Scanner.ParseSpec | src/parsing/index.js:3-453 | the loop from the initial state, then flushAll, and the tree it leaves; Parsing.Parse computes it, and ParseSpecElements and ParseSpecSerializes state its properties |
| ScannerFacts.InitValid | src/parsing/index.js:4-16 | the initial declarations satisfy the loop invariant |
| ScannerFacts.FlushParagraphValid | src/parsing/index.js:18-26 | flushParagraph keeps the invariant |
| ScannerFacts.FlushBlockquoteValid | src/parsing/index.js:28-42 | flushBlockquote keeps the invariant |
| ScannerFacts.FlushListsValid | src/parsing/index.js:44-61 | flushLists keeps the invariant |
| ScannerFacts.FlushDefinitionListValid | src/parsing/index.js:63-80 | flushDefinitionList keeps the invariant |
| ScannerFacts.FlushTableValid | src/parsing/index.js:82-128 | flushTable restores the invariant from any rows the table scan collected |
| ScannerFacts.FlushAllValid | src/parsing/index.js:130-136 | flushAll and the partial flushes of the list and table branches keep the invariant |
| ScannerFacts.QuoteContinueValid | src/parsing/index.js:144-153 | a quote continuation keeps the invariant |
| ScannerFacts.FenceValid | src/parsing/index.js:164-200 | opening or closing a fence keeps the invariant |
| ScannerFacts.IndentedCodeValid | src/parsing/index.js:209-237 | an indented block keeps the invariant |
| ScannerFacts.SetextValid | src/parsing/index.js:240-264 | a setext promotion keeps the invariant |
| ScannerFacts.AtxHeadingValid | src/parsing/index.js:267-288 | an ATX heading keeps the invariant |
| ScannerFacts.TableValid | src/parsing/index.js:340-389 | a table keeps the invariant |
| ScannerFacts.BulletEntryValid | src/parsing/index.js:400-411 | a bullet item keeps the invariant |
| ScannerFacts.NumberedEntryValid | src/parsing/index.js:420-432 | a numbered item keeps the invariant |
| ScannerFacts.DispatchValid | src/parsing/index.js:164-447 | every guarded branch keeps the invariant |
| ScannerFacts.StepValid | src/parsing/index.js:139-447 | every iteration keeps the invariant |
| ScannerFacts.RunValid | src/parsing/index.js:138-448 | the whole loop keeps the invariant |
| ScannerFacts.ParseSpecElements | src/parsing/index.js:3-453 | every node of parser's output has a value that is one HTML element |
| ScannerFacts.ParseSpecSerializes | src/interpreter/index.js:1-11 | interpreter over parser's output, as the children of a root object, is the node values joined in order |
| Parsing.AppendCells | src/parsing/index.js:100-102 | the cell loop appends exactly the cells' markup |
| Parsing.AppendRow | src/parsing/index.js:99-103 | one body row's markup is appended |
| Parsing.AppendRows | src/parsing/index.js:98-104 | the row loop appends exactly the rows' markup |
| Parsing.AppendDefinitions | src/parsing/index.js:66-69 | the `forEach` appends exactly the entries' `<dt>`/`<dd>` markup |
| Parsing.AppendHeader | src/parsing/index.js:90-94 | the header row's markup is appended |
| Parsing.AppendBody | src/parsing/index.js:97-105 | the body's markup is appended |
| Parsing.BuildTable | src/parsing/index.js:84-119 | flushTable's string building yields exactly the table markup of its rows |
| Parsing.ReadLine | src/parsing/index.js:277-280 | the reading loop collects the rest of the line and stops on its line feed |
| Parsing.ReadFenceLang | src/parsing/index.js:171-181 | the language is the trimmed rest of the fence line, and the cursor passes a line feed if there is one |
| Parsing.ReadBullet | src/parsing/index.js:400-405 | the rest of a bullet line becomes its item; the cursor stops at the line end |
| Parsing.ReadNumbered | src/parsing/index.js:419-426 | the digit and the rest of the line after `d. ` become the item |
| Parsing.SkipRestOfLine | src/parsing/index.js:194-197 | the skipping loop stops at the line end |
| Parsing.ReadHashes | src/parsing/index.js:270-274 | the level is the number of `#` read |
| Parsing.ReadHeading | src/parsing/index.js:270-281 | level, text and final cursor of an ATX heading line |
| Parsing.ReadDefinition | src/parsing/index.js:327-335 | the term, the definition after `: `, and a cursor two lines on; the fall-through cannot happen |
| Parsing.ScanIndented | src/parsing/index.js:212-230 | the indented-block loop computes the content and stopping point of the specification's scan |
| Parsing.ScanTable | src/parsing/index.js:346-383 | the table loop computes the rows and stopping point of the specification's scan |
| Parsing.Parser.constructor | src/parsing/index.js:4-16 | the declarations give the initial state |
| Parsing.Parser.FlushParagraph | src/parsing/index.js:18-26 | updates the fields as flushParagraph's specification says |
| Parsing.Parser.FlushBlockquote | src/parsing/index.js:28-42 | updates the fields as flushBlockquote's specification says |
| Parsing.Parser.FlushLists | src/parsing/index.js:44-61 | updates the fields as flushLists' specification says |
| Parsing.Parser.FlushDefinitionList | src/parsing/index.js:63-80 | updates the fields as flushDefinitionList's specification says |
| Parsing.Parser.FlushTable | src/parsing/index.js:82-128 | updates the fields as flushTable's specification says |
| Parsing.Parser.FlushAll | src/parsing/index.js:130-136 | the five flushes in order |
| Parsing.Parser.FlushForItem | src/parsing/index.js:395-398 | the four flushes of the list branches |
| Parsing.Parser.FlushForTable | src/parsing/index.js:341-344 | the four flushes of the table branch |
| Parsing.Parser.QuoteContinue | src/parsing/index.js:144-153 | a quote continuation, in place |
| Parsing.Parser.Fence | src/parsing/index.js:170-200 | a fence opens or closes a block, in place |
| Parsing.Parser.FenceOpen | src/parsing/index.js:171-184 | an opening fence, in place |
| Parsing.Parser.OpenBlock | src/parsing/index.js:178-183 | the fields of an open code block |
| Parsing.Parser.FenceClose | src/parsing/index.js:185-198 | a closing fence, in place |
| Parsing.Parser.CloseBlock | src/parsing/index.js:186-193 | the code node pushed and the code fields reset |
| Parsing.Parser.IndentedCode | src/parsing/index.js:212-237 | an indented block, in place |
| Parsing.Parser.Setext | src/parsing/index.js:249-263 | a setext underline, in place |
| Parsing.Parser.PromoteLast | src/parsing/index.js:251-261 | the `pop` and `push` of the promotion |
| Parsing.Parser.AtxHeading | src/parsing/index.js:270-287 | an ATX heading, in place |
| Parsing.Parser.HorizontalRule | src/parsing/index.js:293-298 | a rule, in place |
| Parsing.Parser.QuoteStart | src/parsing/index.js:304-312 | opening a quote, in place |
| Parsing.Parser.DefinitionEntry | src/parsing/index.js:327-336 | a definition entry, in place |
| Parsing.Parser.Table | src/parsing/index.js:340-389 | a table, in place |
| Parsing.Parser.CollectRows | src/parsing/index.js:346-385 | the row scan, with the cursor taken from it |
| Parsing.Parser.BulletEntry | src/parsing/index.js:400-411 | a bullet item, in place |
| Parsing.Parser.AddBullet | src/parsing/index.js:406-410 | the push onto bulletPoints |
| Parsing.Parser.NumberedEntry | src/parsing/index.js:419-432 | a numbered item, in place |
| Parsing.Parser.AddNumbered | src/parsing/index.js:427-431 | the push onto numberedPoints |
| Parsing.Parser.ParagraphChar | src/parsing/index.js:441-447 | one paragraph character, in place |
| Parsing.Parser.Choose | src/parsing/index.js:164-446 | the guards, tried in the loop's order, pick the specification's branch |
| Parsing.Parser.Dispatch | src/parsing/index.js:164-447 | the guarded branches, in place |
| Parsing.Parser.Act | src/parsing/index.js:164-447 | the chosen branch with its flushes |
| Parsing.Parser.OnFence | src/parsing/index.js:164-200 | the fence branch |
| Parsing.Parser.OnCodeChar | src/parsing/index.js:203-207 | a character inside a code block is appended to the code buffer |
| Parsing.Parser.OnIndented | src/parsing/index.js:209-238 | the indented-code branch |
| Parsing.Parser.OnSetext | src/parsing/index.js:240-265 | the setext branch |
| Parsing.Parser.OnAtx | src/parsing/index.js:267-288 | the ATX heading branch |
| Parsing.Parser.OnRule | src/parsing/index.js:290-299 | the rule branch |
| Parsing.Parser.OnQuoteOpen | src/parsing/index.js:301-313 | the quote branch |
| Parsing.Parser.OnDefinition | src/parsing/index.js:315-338 | the definition branch |
| Parsing.Parser.OnTable | src/parsing/index.js:340-389 | the table branch |
| Parsing.Parser.OnBullet | src/parsing/index.js:391-411 | the bullet branch |
| Parsing.Parser.OnNumbered | src/parsing/index.js:414-432 | the numbered branch |
| Parsing.Parser.OnBlank | src/parsing/index.js:434-438 | a blank line flushes everything and steps over one line feed |
| Parsing.Parser.Advance | src/parsing/index.js:437 | `cursor++` |
| Parsing.Parser.OnText | src/parsing/index.js:441-447 | the paragraph fall-through |
| Parsing.Parser.Step | src/parsing/index.js:139-447 | one iteration of the loop, in place |
| Parsing.Parser.QuoteBreak | src/parsing/index.js:155-159 | `>` alone inside a quote, in place |
| Parsing.Parser.LeaveQuote | src/parsing/index.js:160-162 | the flush of an open quote on ordinary text |
| Parsing.Parse | src/parsing/index.js:3-453 | the loop and the closing flushAll return the specification's tree, and every node's value is one HTML element |

## Left out

- `src/main.js` and `src/initialize`: the command-line entry point, file reading and writing. These are I/O around `parser` and `interpreter`.
- General regular expressions: each pattern of `parseInlineElements`, the closing-hash pattern (src/parsing/index.js:281) and the separator-row pattern (src/parsing/index.js:359) is written out by hand for that one pattern. There is no regular-expression engine.
- Unicode: `trim()` and `\s` are modelled on the ASCII whitespace set (space, tab, line feed, carriage return). JavaScript also trims other Unicode spaces. Strings are sequences of Dafny characters, not UTF-16 code units.
- `prevChar` (src/parsing/index.js:141) is computed and never used. `identifier`'s second argument (src/parsing/index.js:392) is ignored by `identifier` itself. Neither is modelled.
- `interpreter`'s argument is modelled as an object with an optional string `value` and an optional list of `children`. JavaScript truthiness is reduced to "non-empty string" for values and "present" for children.
- Object identity: nodes hold their children arrays as values. The source shares the arrays, but it never mutates an array after it is placed in a node, so no output depends on the sharing.
- Scanner.FlushAll: its own contract states only that the cursor stays where it is. Its effect on the other fields follows from the contracts of the five flushes it composes (`Scanner.FlushParagraph`, `FlushBlockquote`, `FlushLists`, `FlushDefinitionList`, `FlushTable`, in that order), which `Parsing.Parser.FlushAll` runs one after another, and from `ScannerFacts.FlushAllValid`.
- Scanner.Act: its own contract states only that the cursor moves forward. Its effect is given by the `Parsing.Parser.On*` methods and by `ScannerFacts.DispatchValid`.
- Scanner.Dispatch: its own contract states only that the cursor moves forward. Its effect is given by `Parsing.Parser.Dispatch` and by `ScannerFacts.DispatchValid`.
