/** Small HTML helpers of the scanner (src/parsing/index.js): escapeHtml, tag
    and isHorizontalRule. */
module Html {
  import opened Strings

  /** escapeHtml: five global single-character replacements, `&` first. */
  function EscapeHtml(t: string): string
  {
    ReplaceChar(ReplaceChar(ReplaceChar(ReplaceChar(ReplaceChar(
      t, '&', "&amp;"), '<', "&lt;"), '>', "&gt;"), '"', "&quot;"), '\'', "&#39;")
  }

  /** The entity each character becomes; a reference definition of escaping
      one character at a time. */
  function EscapeChar(c: char): string
  {
    if c == '&' then "&amp;"
    else if c == '<' then "&lt;"
    else if c == '>' then "&gt;"
    else if c == '"' then "&quot;"
    else if c == '\'' then "&#39;"
    else [c]
  }

  function EscapeEach(t: string): string
  {
    if t == [] then [] else EscapeChar(t[0]) + EscapeEach(t[1..])
  }

  /** The characters escaping removes from text. */
  predicate IsMarkupChar(c: char) {
    c == '<' || c == '>' || c == '"' || c == '\''
  }

  lemma EscapeHtmlAppend(a: string, b: string)
    ensures EscapeHtml(a + b) == EscapeHtml(a) + EscapeHtml(b)
  {
    var s1a, s1b := ReplaceChar(a, '&', "&amp;"), ReplaceChar(b, '&', "&amp;");
    ReplaceCharAppend(a, b, '&', "&amp;");
    var s2a, s2b := ReplaceChar(s1a, '<', "&lt;"), ReplaceChar(s1b, '<', "&lt;");
    ReplaceCharAppend(s1a, s1b, '<', "&lt;");
    var s3a, s3b := ReplaceChar(s2a, '>', "&gt;"), ReplaceChar(s2b, '>', "&gt;");
    ReplaceCharAppend(s2a, s2b, '>', "&gt;");
    var s4a, s4b := ReplaceChar(s3a, '"', "&quot;"), ReplaceChar(s3b, '"', "&quot;");
    ReplaceCharAppend(s3a, s3b, '"', "&quot;");
    ReplaceCharAppend(s4a, s4b, '\'', "&#39;");
  }

  lemma ReplaceCharSingle(c: char, x: char, rep: string)
    ensures ReplaceChar([c], x, rep) == if c == x then rep else [c]
  {
    assert [c][1..] == [];
  }

  /** The passes after the one that produced `e` leave it alone. */
  lemma LaterPassesKeep(e: string, from: nat)
    requires 1 <= from <= 5
    requires from <= 1 ==> '<' !in e
    requires from <= 2 ==> '>' !in e
    requires from <= 3 ==> '"' !in e
    requires from <= 4 ==> '\'' !in e
    ensures from <= 1 ==> ReplaceChar(e, '<', "&lt;") == e
    ensures from <= 2 ==> ReplaceChar(e, '>', "&gt;") == e
    ensures from <= 3 ==> ReplaceChar(e, '"', "&quot;") == e
    ensures from <= 4 ==> ReplaceChar(e, '\'', "&#39;") == e
  {
    if from <= 1 { ReplaceCharAbsent(e, '<', "&lt;"); }
    if from <= 2 { ReplaceCharAbsent(e, '>', "&gt;"); }
    if from <= 3 { ReplaceCharAbsent(e, '"', "&quot;"); }
    if from <= 4 { ReplaceCharAbsent(e, '\'', "&#39;"); }
  }

  lemma EscapeHtmlOneChar(c: char)
    ensures EscapeHtml([c]) == EscapeChar(c)
  {
    ReplaceCharSingle(c, '&', "&amp;");
    if c == '&' {
      LaterPassesKeep("&amp;", 1);
    } else {
      ReplaceCharSingle(c, '<', "&lt;");
      if c == '<' {
        LaterPassesKeep("&lt;", 2);
      } else {
        ReplaceCharSingle(c, '>', "&gt;");
        if c == '>' {
          LaterPassesKeep("&gt;", 3);
        } else {
          ReplaceCharSingle(c, '"', "&quot;");
          if c == '"' {
            LaterPassesKeep("&quot;", 4);
          } else {
            ReplaceCharSingle(c, '\'', "&#39;");
          }
        }
      }
    }
  }

  /** The five sequential passes escape each character independently: `&` goes
      first, so no entity introduced by a later pass is escaped again. */
  lemma {:induction false} EscapeHtmlIsPerChar(t: string)
    ensures EscapeHtml(t) == EscapeEach(t)
  {
    if t != [] {
      assert t == [t[0]] + t[1..];
      EscapeHtmlAppend([t[0]], t[1..]);
      EscapeHtmlOneChar(t[0]);
      EscapeHtmlIsPerChar(t[1..]);
    } else {
      assert EscapeHtml(t) == [];
    }
  }

  lemma {:induction false} EscapeEachNoMarkup(t: string)
    ensures forall k :: 0 <= k < |EscapeEach(t)| ==> !IsMarkupChar(EscapeEach(t)[k])
  {
    if t != [] {
      EscapeEachNoMarkup(t[1..]);
      var e := EscapeChar(t[0]);
      assert forall k :: 0 <= k < |e| ==> !IsMarkupChar(e[k]);
      var r := EscapeEach(t);
      assert r == e + EscapeEach(t[1..]);
      forall k | 0 <= k < |r| ensures !IsMarkupChar(r[k]) {
        if k >= |e| {
          assert r[k] == EscapeEach(t[1..])[k - |e|];
        }
      }
    }
  }

  /** Escaped text contains none of `<`, `>`, `"`, `'`. */
  lemma EscapeHtmlNoMarkup(t: string)
    ensures forall k :: 0 <= k < |EscapeHtml(t)| ==> !IsMarkupChar(EscapeHtml(t)[k])
  {
    EscapeHtmlIsPerChar(t);
    EscapeEachNoMarkup(t);
  }

  /** Text without `&`, `<`, `>`, `"` and `'` is left as it is. */
  lemma {:induction false} EscapeHtmlIdentity(t: string)
    requires forall k :: 0 <= k < |t| ==> t[k] != '&' && !IsMarkupChar(t[k])
    ensures EscapeHtml(t) == t
  {
    EscapeHtmlIsPerChar(t);
    EscapeEachIdentity(t);
  }

  lemma {:induction false} EscapeEachIdentity(t: string)
    requires forall k :: 0 <= k < |t| ==> t[k] != '&' && !IsMarkupChar(t[k])
    ensures EscapeEach(t) == t
  {
    if t != [] {
      assert forall k :: 0 <= k < |t[1..]| ==> t[1..][k] == t[k + 1];
      EscapeEachIdentity(t[1..]);
      assert t == [t[0]] + t[1..];
    }
  }

  /** tag(value, name): wrap a value in an element. */
  function Tag(value: string, name: string): (r: string)
    ensures |r| == |value| + 2 * |name| + 5
    ensures r[0] == '<' && r[|r| - 1] == '>'
  {
    "<" + name + ">" + value + "</" + name + ">"
  }

  /** isHorizontalRule: the trimmed line is `-{3,}`, `\*{3,}` or `_{3,}`. */
  predicate IsHorizontalRule(line: string)
  {
    var t := Trim(line);
    (|t| >= 3 && AllAre(t, '-')) || (|t| >= 3 && AllAre(t, '*')) || (|t| >= 3 && AllAre(t, '_'))
  }

  /** A horizontal rule is a trimmed line of three or more copies of one
      character taken from `-`, `*`, `_`. */
  lemma HorizontalRuleShape(line: string)
    ensures IsHorizontalRule(line) <==>
      var t := Trim(line);
      |t| >= 3 && (t[0] == '-' || t[0] == '*' || t[0] == '_') && AllAre(t, t[0])
  {
  }
}
