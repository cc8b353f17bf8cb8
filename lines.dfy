/** Line navigation over the document (src/parsing/index.js, getLine,
    getPreviousLine, skipToNextLine). A cursor may lie past the end of the
    document; reading there yields an empty line, as `data[i]` is `undefined`. */
module Lines {
  import opened Strings

  /** The index of the first line feed at or after `c`, or `|d|` when the rest
      of the document has none; a cursor at or past the end stays where it is. */
  function LineEnd(d: string, c: nat): (k: nat)
    ensures c <= k
    ensures c <= |d| ==> k <= |d|
    ensures c >= |d| ==> k == c
    ensures k < |d| ==> d[k] == '\n'
    decreases |d| - c
  {
    if c >= |d| || d[c] == '\n' then c else LineEnd(d, c + 1)
  }

  /** No line feed lies between the cursor and the end of its line. */
  lemma {:induction false} LineEndScan(d: string, c: nat)
    ensures forall j :: c <= j < LineEnd(d, c) ==> j < |d| && d[j] != '\n'
    decreases |d| - c
  {
    if !(c >= |d| || d[c] == '\n') {
      LineEndScan(d, c + 1);
      assert LineEnd(d, c) == LineEnd(d, c + 1);
      forall j | c <= j < LineEnd(d, c) ensures j < |d| && d[j] != '\n' {
        if j > c {
          assert c + 1 <= j < LineEnd(d, c + 1);
        }
      }
    } else {
      assert LineEnd(d, c) == c;
    }
  }

  /** The characters from `c` up to, not including, the next line feed. */
  function LineAt(d: string, c: nat): (line: string)
    ensures |line| == LineEnd(d, c) - c
  {
    if c < |d| then d[c..LineEnd(d, c)] else []
  }

  /** A line is the slice of the document up to its line feed, and holds none. */
  lemma LineAtShape(d: string, c: nat)
    ensures '\n' !in LineAt(d, c)
    ensures c < |d| ==> LineAt(d, c) == d[c..LineEnd(d, c)]
  {
    LineEndScan(d, c);
    var line := LineAt(d, c);
    forall k | 0 <= k < |line| ensures line[k] != '\n' {
      assert line[k] == d[c + k];
    }
  }

  /** The cursor `skipToNextLine` returns: one past the line feed that ends the line. */
  function NextLine(d: string, c: nat): (r: nat)
    ensures r > c
  {
    LineEnd(d, c) + 1
  }

  /** A line that starts after `t` starts at or after the line following `t`'s. */
  lemma NextLineStart(d: string, t: nat, p: nat)
    requires t < p && CharIs(d, p - 1, '\n')
    ensures NextLine(d, t) <= p
  {
    LineEndScan(d, t);
  }

  /** The end of the line, and one past its line feed when there is one. */
  function AfterLine(d: string, c: nat): (r: nat)
    ensures r >= c
  {
    var e := LineEnd(d, c);
    if e < |d| then e + 1 else e
  }

  /** getLine: collect characters until a line feed or the end. */
  method GetLine(d: string, c: nat) returns (line: string)
    ensures line == LineAt(d, c)
  {
    line := [];
    var i := c;
    while i < |d| && d[i] != '\n'
      invariant c <= i <= LineEnd(d, c)
      invariant LineEnd(d, i) == LineEnd(d, c)
      invariant line == if c < |d| then d[c..i] else []
    {
      line := line + [d[i]];
      i := i + 1;
    }
  }

  /** skipToNextLine: move to the end of the line, then one step further. */
  method SkipToNextLine(d: string, c: nat) returns (r: nat)
    ensures r == NextLine(d, c)
  {
    r := c;
    while r < |d| && d[r] != '\n'
      invariant c <= r <= LineEnd(d, c)
      invariant LineEnd(d, r) == LineEnd(d, c)
    {
      r := r + 1;
    }
    r := r + 1;
  }

  /** The start of the line that holds `c`: the nearest index at or before `c`
      that is 0 or follows a line feed. */
  function LineStart(d: string, c: nat): (j: nat)
    ensures j <= c
    ensures j == 0 || CharIs(d, j - 1, '\n')
    decreases c
  {
    if c == 0 || CharIs(d, c - 1, '\n') then c else LineStart(d, c - 1)
  }

  /** No line feed lies between a line's start and the cursor in it. */
  lemma {:induction false} LineStartScan(d: string, c: nat)
    ensures forall k :: LineStart(d, c) <= k < c ==> !CharIs(d, k, '\n')
    decreases c
  {
    if !(c == 0 || CharIs(d, c - 1, '\n')) {
      LineStartScan(d, c - 1);
    }
  }

  /** What getPreviousLine returns: nothing when the cursor's line is the first
      one; otherwise the whole preceding line. */
  function PreviousLine(d: string, c: nat): (r: Option<string>)
    ensures r.None? <==> LineStart(d, c) == 0
  {
    var ls := LineStart(d, c);
    if ls == 0 then None
    else
      var ps := LineStart(d, ls - 1);
      Some(d[ps..ls - 1])
  }

  /** The previous line is the text between the start of the line before the
      cursor's and the line feed that ends it: it holds no line feed and starts
      at the document start or after a line feed. */
  lemma PreviousLineShape(d: string, c: nat)
    requires PreviousLine(d, c).Some?
    ensures PreviousLine(d, c).value == d[LineStart(d, LineStart(d, c) - 1)..LineStart(d, c) - 1]
    ensures '\n' !in PreviousLine(d, c).value
    ensures 0 < LineStart(d, c) <= |d| && d[LineStart(d, c) - 1] == '\n'
    ensures var ps := LineStart(d, LineStart(d, c) - 1); ps == 0 || d[ps - 1] == '\n'
  {
    var ls := LineStart(d, c);
    var ps := LineStart(d, ls - 1);
    LineStartScan(d, ls - 1);
    var p := d[ps..ls - 1];
    forall k | 0 <= k < |p| ensures p[k] != '\n' {
      assert !CharIs(d, ps + k, '\n');
    }
  }

  /** getPreviousLine: walk back to the start of the cursor's line, then walk
      back over the preceding line. */
  method GetPreviousLine(d: string, c: nat) returns (r: Option<string>)
    ensures r == PreviousLine(d, c)
  {
    var lineStart: nat := c;
    while lineStart > 0 && !CharIs(d, lineStart - 1, '\n')
      invariant lineStart <= c
      invariant LineStart(d, lineStart) == LineStart(d, c)
    {
      lineStart := lineStart - 1;
    }
    assert lineStart == LineStart(d, c);
    if lineStart == 0 {
      return None;
    }
    assert CharIs(d, lineStart - 1, '\n');
    var prevLineStart: int := lineStart - 2;
    while prevLineStart >= 0 && d[prevLineStart] != '\n'
      invariant -1 <= prevLineStart <= lineStart - 2
      invariant LineStart(d, prevLineStart + 1) == LineStart(d, lineStart - 1)
      decreases prevLineStart + 1
    {
      prevLineStart := prevLineStart - 1;
    }
    prevLineStart := prevLineStart + 1;
    assert prevLineStart == LineStart(d, lineStart - 1);
    r := Some(d[prevLineStart..lineStart - 1]);
  }
}
