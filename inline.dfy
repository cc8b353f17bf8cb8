/** The inline transformer, parseInlineElements (src/parsing/index.js), and the
    `<\/?p>` strip used by setext promotion. Each regular expression of the
    source is a Rule whose matching at one position is written out by hand
    (`Match`); `Apply` is JavaScript's global `String.prototype.replace`:
    scan left to right, replace the leftmost match, resume after it. */
module Inline {
  import opened Strings

  datatype Rule =
    | Footnote          // /\[\^([^\]]+)\]/g
    | DisplayMath       // /\$\$([^$]+)\$\$/g
    | InlineMath        // /\$([^$]+)\$/g
    | StrongStar        // /\*\*(.*?)\*\*/g
    | StrongUnderscore  // /__(.*?)__/g
    | EmStar            // /\*(.*?)\*/g
    | EmUnderscore      // /_(.*?)_/g
    | Strike            // /~~(.*?)~~/g
    | Code              // /`([^`]+)`/g
    | Link              // /\[([^\]]+)\]\(([^)]+)\)/g
    | Image             // /!\[([^\]]*)\]\(([^)]+)\)/g
    | Autolink          // /<(https?:\/\/[^>]+)>/g
    | EmDash            // /---/g
    | EnDash            // /--/g
    | Ellipsis          // /\.\.\./g
    | ParagraphTag      // /<\/?p>/g

  /** A match: where it ends and the text that replaces it. */
  datatype Hit = Hit(end: nat, out: string)

  /** The characters `.` does not match in a JavaScript regular expression. */
  predicate IsLineTerminator(c: char) {
    c == '\n' || c == '\r' || c == '\U{2028}' || c == '\U{2029}'
  }

  /** The first index at or after `i` holding `c`, or `|s|`: where a greedy
      `[^c]+` run starting at `i` stops. */
  function FindFrom(s: string, i: nat, c: char): (j: nat)
    requires i <= |s|
    ensures i <= j <= |s|
    ensures j < |s| ==> s[j] == c
    ensures forall k :: i <= k < j ==> s[k] != c
    decreases |s| - i
  {
    if i == |s| || s[i] == c then i else FindFrom(s, i + 1, c)
  }

  /** Where a lazy `(.*?)delim` starting at `k` closes: the first occurrence
      of `delim` at or after `k`, provided no line terminator comes before it;
      None exactly when `delim` occurs nowhere before the first line
      terminator at or after `k` (or the end). */
  function LazyClose(s: string, k: nat, delim: string): (r: Option<nat>)
    requires k <= |s|
    ensures r.Some? ==> k <= r.value && StartsWithAt(s, r.value, delim)
    ensures r.Some? ==> forall j :: k <= j < r.value ==> !StartsWithAt(s, j, delim) && !IsLineTerminator(s[j])
    ensures r.None? ==> forall j :: k <= j <= |s| && (forall m :: k <= m < j ==> !IsLineTerminator(s[m])) ==>
      !StartsWithAt(s, j, delim)
    decreases |s| - k
  {
    if StartsWithAt(s, k, delim) then Some(k)
    else if k < |s| && !IsLineTerminator(s[k]) then LazyClose(s, k + 1, delim)
    else None
  }

  /** `open(.*?)close` with the same delimiter on both sides, wrapped in `name`. */
  function LazyPair(s: string, i: nat, delim: string, name: string): (h: Option<Hit>)
    requires i < |s| && delim != []
    ensures h.Some? ==> i < h.value.end <= |s|
  {
    if StartsWithAt(s, i, delim) then
      match LazyClose(s, i + |delim|, delim)
      case Some(k) => Some(Hit(k + |delim|, "<" + name + ">" + s[i + |delim|..k] + "</" + name + ">"))
      case None => None
    else None
  }

  /** Whether rule `r` matches at position `i`, and how. */
  function Match(r: Rule, s: string, i: nat): (h: Option<Hit>)
    requires i < |s|
    ensures h.Some? ==> i < h.value.end <= |s|
  {
    match r
    case Footnote =>
      if StartsWithAt(s, i, "[^") then
        var j := FindFrom(s, i + 2, ']');
        if i + 2 < j < |s| then
          var id := s[i + 2..j];
          Some(Hit(j + 1, "<sup><a href=\"#fn" + id + "\">" + id + "</a></sup>"))
        else None
      else None
    case DisplayMath =>
      if StartsWithAt(s, i, "$$") then
        var j := FindFrom(s, i + 2, '$');
        if i + 2 < j && StartsWithAt(s, j, "$$") then
          Some(Hit(j + 2, "<div class=\"math-display\">" + s[i + 2..j] + "</div>"))
        else None
      else None
    case InlineMath =>
      if s[i] == '$' then
        var j := FindFrom(s, i + 1, '$');
        if i + 1 < j < |s| then
          Some(Hit(j + 1, "<span class=\"math-inline\">" + s[i + 1..j] + "</span>"))
        else None
      else None
    case StrongStar => LazyPair(s, i, "**", "strong")
    case StrongUnderscore => LazyPair(s, i, "__", "strong")
    case EmStar => LazyPair(s, i, "*", "em")
    case EmUnderscore => LazyPair(s, i, "_", "em")
    case Strike => LazyPair(s, i, "~~", "del")
    case Code =>
      if s[i] == '`' then
        var j := FindFrom(s, i + 1, '`');
        if i + 1 < j < |s| then
          Some(Hit(j + 1, "<code>" + s[i + 1..j] + "</code>"))
        else None
      else None
    case Link =>
      if s[i] == '[' then
        var j := FindFrom(s, i + 1, ']');
        if i + 1 < j && j + 1 < |s| && s[j + 1] == '(' then
          var m := FindFrom(s, j + 2, ')');
          if j + 2 < m < |s| then
            Some(Hit(m + 1, "<a href=\"" + s[j + 2..m] + "\">" + s[i + 1..j] + "</a>"))
          else None
        else None
      else None
    case Image =>
      if StartsWithAt(s, i, "![") then
        var j := FindFrom(s, i + 2, ']');
        if j + 1 < |s| && s[j + 1] == '(' then
          var m := FindFrom(s, j + 2, ')');
          if j + 2 < m < |s| then
            Some(Hit(m + 1, "<img src=\"" + s[j + 2..m] + "\" alt=\"" + s[i + 2..j] + "\" />"))
          else None
        else None
      else None
    case Autolink =>
      if s[i] == '<' && StartsWithAt(s, i + 1, "http") then
        // `s?` then `:\/\/`: with an `s` after "http" only the longer form can match
        var p := if CharIs(s, i + 5, 's') then i + 6 else i + 5;
        if StartsWithAt(s, p, "://") then
          var j := FindFrom(s, p + 3, '>');
          if p + 3 < j < |s| then
            var url := s[i + 1..j];
            Some(Hit(j + 1, "<a href=\"" + url + "\">" + url + "</a>"))
          else None
        else None
      else None
    case EmDash => if StartsWithAt(s, i, "---") then Some(Hit(i + 3, "&mdash;")) else None
    case EnDash => if StartsWithAt(s, i, "--") then Some(Hit(i + 2, "&ndash;")) else None
    case Ellipsis => if StartsWithAt(s, i, "...") then Some(Hit(i + 3, "&hellip;")) else None
    case ParagraphTag =>
      if StartsWithAt(s, i, "<p>") then Some(Hit(i + 3, []))
      else if StartsWithAt(s, i, "</p>") then Some(Hit(i + 4, []))
      else None
  }

  /** The global replacement from position `i` on. */
  function ReplaceFrom(r: Rule, s: string, i: nat): string
    decreases |s| - i
  {
    if i >= |s| then []
    else match Match(r, s, i)
      case Some(h) => h.out + ReplaceFrom(r, s, h.end)
      case None => [s[i]] + ReplaceFrom(r, s, i + 1)
  }

  /** `s.replace(regex, replacement)` for the global regex of rule `r`. */
  function Apply(r: Rule, s: string): string {
    ReplaceFrom(r, s, 0)
  }

  /** Apply the rules in order, each to the output of the one before. The pass
      of `rules[0]` runs in ReplaceThen, which hands its output on to the
      remaining rules (ApplyAllStep gives the pass-by-pass reading); Pass only
      starts it, so that one unfolding of a chain never reaches Match. */
  function ApplyAll(rules: seq<Rule>, s: string): string
    decreases |rules|, 2, 0
  {
    if rules == [] then s else Pass(rules, s)
  }

  /** The pass of `rules[0]` over the whole of `s`, then the remaining ones. */
  function Pass(rules: seq<Rule>, s: string): string
    requires rules != []
    decreases |rules|, 1, 0
  {
    ReplaceThen(rules, s, 0, [])
  }

  /** The pass of `rules[0]` from position `i` on, `out` holding what it has
      produced so far; at the end of `s` the remaining passes run over `out`. */
  function ReplaceThen(rules: seq<Rule>, s: string, i: nat, out: string): string
    requires rules != []
    decreases |rules|, 0, |s| - i
  {
    if i >= |s| then ApplyAll(rules[1..], out)
    else match Match(rules[0], s, i)
      case Some(h) => ReplaceThen(rules, s, h.end, out + h.out)
      case None => ReplaceThen(rules, s, i + 1, out + [s[i]])
  }

  lemma {:induction false} ReplaceThenIsReplaceFrom(rules: seq<Rule>, s: string, i: nat, out: string)
    requires rules != []
    ensures ReplaceThen(rules, s, i, out) == ApplyAll(rules[1..], out + ReplaceFrom(rules[0], s, i))
    decreases |s| - i
  {
    if i >= |s| {
      assert out + [] == out;
    } else {
      match Match(rules[0], s, i)
      case Some(h) =>
        ReplaceThenIsReplaceFrom(rules, s, h.end, out + h.out);
        assert (out + h.out) + ReplaceFrom(rules[0], s, h.end) == out + (h.out + ReplaceFrom(rules[0], s, h.end));
      case None =>
        ReplaceThenIsReplaceFrom(rules, s, i + 1, out + [s[i]]);
        assert (out + [s[i]]) + ReplaceFrom(rules[0], s, i + 1) == out + ([s[i]] + ReplaceFrom(rules[0], s, i + 1));
    }
  }

  /** The passes run one after the other, each a global replacement over the
      whole output of the one before. */
  lemma ApplyAllStep(rules: seq<Rule>, s: string)
    requires rules != []
    ensures ApplyAll(rules, s) == ApplyAll(rules[1..], Apply(rules[0], s))
  {
    ReplaceThenIsReplaceFrom(rules, s, 0, []);
    assert [] + Apply(rules[0], s) == Apply(rules[0], s);
  }

  /** The passes of parseInlineElements, in the order the source runs them. */
  const InlinePasses: seq<Rule> :=
    [Footnote, DisplayMath, InlineMath, StrongStar, StrongUnderscore, EmStar, EmUnderscore,
     Strike, Code, Link, Image, Autolink, EmDash, EnDash, Ellipsis]

  /** parseInlineElements. */
  function ParseInline(text: string): string {
    ApplyAll(InlinePasses, text)
  }

  /** `value.replace(/<\/?p>/g, '')`, as a one-pass chain. */
  function StripParagraphTags(value: string): string {
    ApplyAll([ParagraphTag], value)
  }

  /** The characters some inline pass needs to see before it can match. */
  predicate IsInlineTrigger(c: char) {
    c == '[' || c == '$' || c == '*' || c == '_' || c == '~' || c == '`' || c == '<' || c == '-' || c == '.'
  }

  predicate NoInlineTrigger(s: string) {
    forall k :: 0 <= k < |s| ==> !IsInlineTrigger(s[k])
  }

  lemma StartsWithAtHead(s: string, i: nat, p: string)
    ensures StartsWithAt(s, i, p) && |p| > 0 ==> s[i] == p[0]
    ensures StartsWithAt(s, i, p) && |p| > 1 ==> s[i + 1] == p[1]
  {
    if StartsWithAt(s, i, p) && |p| > 1 {
      assert StartsWithAt(s, i + 1, p[1..]);
    }
  }

  /** No rule matches at a character that is not a trigger, unless it is
      the `!` of an image. */
  lemma NoTriggerNoMatch(r: Rule, s: string, i: nat)
    requires i < |s| && !IsInlineTrigger(s[i]) && !StartsWithAt(s, i, "![")
    ensures Match(r, s, i).None?
  {
    StartsWithAtHead(s, i, "[^");
    StartsWithAtHead(s, i, "$$");
    StartsWithAtHead(s, i, "**");
    StartsWithAtHead(s, i, "__");
    StartsWithAtHead(s, i, "*");
    StartsWithAtHead(s, i, "_");
    StartsWithAtHead(s, i, "~~");
    StartsWithAtHead(s, i, "---");
    StartsWithAtHead(s, i, "--");
    StartsWithAtHead(s, i, "...");
    StartsWithAtHead(s, i, "<p>");
    StartsWithAtHead(s, i, "</p>");
  }

  /** No rule can start at `i`: the character is no trigger and `![` does
      not start there. */
  predicate PlainAt(s: string, i: nat)
    requires i < |s|
  {
    !IsInlineTrigger(s[i]) && !StartsWithAt(s, i, "![")
  }

  /** A plain character is copied and the scan moves on by one. */
  lemma PlainStep(r: Rule, s: string, i: nat)
    requires i < |s| && PlainAt(s, i)
    ensures ReplaceFrom(r, s, i) == [s[i]] + ReplaceFrom(r, s, i + 1)
  {
    NoTriggerNoMatch(r, s, i);
  }

  /** A stretch where no rule can start is copied unchanged. */
  lemma {:induction false} ReplaceFromPlainRun(r: Rule, s: string, i: nat, j: nat)
    requires i <= j <= |s|
    requires forall k :: i <= k < j ==> PlainAt(s, k)
    ensures ReplaceFrom(r, s, i) == s[i..j] + ReplaceFrom(r, s, j)
    decreases j - i
  {
    if i < j {
      PlainStep(r, s, i);
      ReplaceFromPlainRun(r, s, i + 1, j);
      ConsSlice(s, i, j, ReplaceFrom(r, s, j));
    }
  }

  lemma ConsSlice(s: string, i: nat, j: nat, t: string)
    requires i < j <= |s|
    ensures [s[i]] + (s[i + 1..j] + t) == s[i..j] + t
  {
    assert s[i..j] == [s[i]] + s[i + 1..j];
  }

  lemma ReplaceFromPlain(r: Rule, s: string)
    requires NoInlineTrigger(s)
    ensures ReplaceFrom(r, s, 0) == s
  {
    forall k | 0 <= k < |s| ensures PlainAt(s, k) {
      StartsWithAtHead(s, k, "![");
      if k + 1 < |s| {
        assert !IsInlineTrigger(s[k + 1]);
      }
    }
    ReplaceFromPlainRun(r, s, 0, |s|);
    assert s[0..|s|] == s;
  }

  lemma {:induction false} ApplyAllPlain(rules: seq<Rule>, s: string)
    requires NoInlineTrigger(s)
    ensures ApplyAll(rules, s) == s
    decreases |rules|
  {
    if rules != [] {
      ApplyAllStep(rules, s);
      ReplaceFromPlain(rules[0], s);
      ApplyAllPlain(rules[1..], s);
    }
  }

  /** Text containing none of `[ $ * _ ~ \` < - .` comes back unchanged. */
  lemma InlinePlainIdentity(text: string)
    requires NoInlineTrigger(text)
    ensures ParseInline(text) == text
  {
    ApplyAllPlain(InlinePasses, text);
  }

  /** Bold is non-greedy: a `**` match closes at the first `**` after the
      opening one, its content holds no `**` and no line break, and it is
      wrapped in one `<strong>` element. */
  lemma StrongIsLazy(s: string, i: nat)
    requires i < |s| && Match(StrongStar, s, i).Some?
    ensures var h := Match(StrongStar, s, i).value;
      && i + 4 <= h.end
      && StartsWithAt(s, i, "**") && StartsWithAt(s, h.end - 2, "**")
      && h.out == "<strong>" + s[i + 2..h.end - 2] + "</strong>"
      && forall j :: i + 2 <= j < h.end - 2 ==> !StartsWithAt(s, j, "**") && !IsLineTerminator(s[j])
  {
  }

  /** `**` starts at `i` exactly when two `*` do. */
  lemma DoubleStarAt(s: string, i: nat)
    ensures StartsWithAt(s, i, "**") <==> i + 1 < |s| && s[i] == '*' && s[i + 1] == '*'
  {
    assert "**"[1..] == "*";
    assert "*"[1..] == [];
  }

  /** The converse of StrongIsLazy: a `**` matches whenever another `**`
      follows it on its line, and it closes at the first one. */
  lemma StrongClosesAtFirst(s: string, i: nat, j: nat)
    requires i + 2 <= j && StartsWithAt(s, i, "**") && StartsWithAt(s, j, "**")
    requires forall m :: i + 2 <= m < j ==> !StartsWithAt(s, m, "**") && !IsLineTerminator(s[m])
    ensures i < |s| && Match(StrongStar, s, i) == Some(Hit(j + 2, "<strong>" + s[i + 2..j] + "</strong>"))
  {
    var c := LazyClose(s, i + 2, "**");
    assert c.Some? && c.value == j;
    assert Match(StrongStar, s, i).Some?;
    StrongIsLazy(s, i);
  }

  /** A bold span is replaced and the scan resumes after its closing `**`. */
  lemma StrongSpanStep(s: string, i: nat, j: nat, text: string)
    requires i + 2 <= j && StartsWithAt(s, i, "**") && StartsWithAt(s, j, "**")
    requires forall m :: i + 2 <= m < j ==> !StartsWithAt(s, m, "**") && !IsLineTerminator(s[m])
    requires text == s[i + 2..j]
    ensures ReplaceFrom(StrongStar, s, i) == ("<strong>" + text + "</strong>") + ReplaceFrom(StrongStar, s, j + 2)
  {
    StrongClosesAtFirst(s, i, j);
  }

  /** Text without `*` is copied by the bold pass. */
  lemma {:induction false} ReplaceFromNoStar(s: string, i: nat, j: nat)
    requires i <= j <= |s|
    requires forall k :: i <= k < j ==> s[k] != '*'
    ensures ReplaceFrom(StrongStar, s, i) == s[i..j] + ReplaceFrom(StrongStar, s, j)
    decreases j - i
  {
    if i < j {
      DoubleStarAt(s, i);
      assert Match(StrongStar, s, i).None?;
      ReplaceFromNoStar(s, i + 1, j);
      ConsSlice(s, i, j, ReplaceFrom(StrongStar, s, j));
    }
  }

  /** Two bold spans at `[0, i1 + 2)` and `[i2, i3 + 2)` of `s` with plain
      text between them: the bold pass replaces both and copies the rest. */
  lemma StrongTwoSpansIn(s: string, i1: nat, i2: nat, i3: nat, a: string, m: string, b: string)
    requires 2 <= i1 && i1 + 2 <= i2 && i2 + 2 <= i3 && i3 + 2 == |s|
    requires StartsWithAt(s, 0, "**") && StartsWithAt(s, i1, "**") && StartsWithAt(s, i2, "**") && StartsWithAt(s, i3, "**")
    requires a == s[2..i1] && m == s[i1 + 2..i2] && b == s[i2 + 2..i3]
    requires forall k :: 2 <= k < i1 ==> !StartsWithAt(s, k, "**") && !IsLineTerminator(s[k])
    requires forall k :: i1 + 2 <= k < i2 ==> s[k] != '*'
    requires forall k :: i2 + 2 <= k < i3 ==> !StartsWithAt(s, k, "**") && !IsLineTerminator(s[k])
    ensures ReplaceFrom(StrongStar, s, 0) == ("<strong>" + a + "</strong>") + (m + ("<strong>" + b + "</strong>"))
  {
    StrongPlainThenLast(s, i1 + 2, i2, i3, m, b);
    StrongSpanStep(s, 0, i1, a);
  }

  /** Text without `*`, then a bold span that ends the text. */
  lemma StrongPlainThenLast(s: string, p: nat, i: nat, j: nat, m: string, b: string)
    requires p <= i && i + 2 <= j && j + 2 == |s| && StartsWithAt(s, i, "**") && StartsWithAt(s, j, "**")
    requires forall k :: p <= k < i ==> s[k] != '*'
    requires forall k :: i + 2 <= k < j ==> !StartsWithAt(s, k, "**") && !IsLineTerminator(s[k])
    requires m == s[p..i] && b == s[i + 2..j]
    ensures ReplaceFrom(StrongStar, s, p) == m + ("<strong>" + b + "</strong>")
  {
    StrongLastSpan(s, i, j, b);
    ReplaceFromNoStar(s, p, i);
  }

  /** A bold span that ends the text is the whole of what the pass gives from its start. */
  lemma StrongLastSpan(s: string, i: nat, j: nat, text: string)
    requires i + 2 <= j && j + 2 == |s| && StartsWithAt(s, i, "**") && StartsWithAt(s, j, "**")
    requires forall m :: i + 2 <= m < j ==> !StartsWithAt(s, m, "**") && !IsLineTerminator(s[m])
    requires text == s[i + 2..j]
    ensures ReplaceFrom(StrongStar, s, i) == "<strong>" + text + "</strong>"
  {
    var t := "<strong>" + text + "</strong>";
    StrongSpanStep(s, i, j, text);
    assert ReplaceFrom(StrongStar, s, j + 2) == [];
    assert t + [] == t;
  }

  /** `**a** m **b**`: with no `*` in the three texts and no line break in
      the two spans, the bold pass gives two `<strong>` elements and keeps
      the text between them. */
  lemma StrongTwoSpans(a: string, m: string, b: string)
    requires '*' !in a && '*' !in m && '*' !in b
    requires forall k :: 0 <= k < |a| ==> !IsLineTerminator(a[k])
    requires forall k :: 0 <= k < |b| ==> !IsLineTerminator(b[k])
    ensures Apply(StrongStar, "**" + a + "**" + m + "**" + b + "**")
      == ("<strong>" + a + "</strong>") + (m + ("<strong>" + b + "</strong>"))
  {
    var s := "**" + a + "**" + m + "**" + b + "**";
    var i1 := 2 + |a|;
    var i2 := i1 + 2 + |m|;
    var i3 := i2 + 2 + |b|;
    assert s[2..i1] == a && s[i1 + 2..i2] == m && s[i2 + 2..i3] == b;
    DoubleStarAt(s, 0);
    DoubleStarAt(s, i1);
    DoubleStarAt(s, i2);
    DoubleStarAt(s, i3);
    forall k | 2 <= k < i1 ensures !StartsWithAt(s, k, "**") && !IsLineTerminator(s[k]) {
      assert s[k] == a[k - 2];
      DoubleStarAt(s, k);
    }
    forall k | i1 + 2 <= k < i2 ensures s[k] != '*' {
      assert s[k] == m[k - i1 - 2];
    }
    forall k | i2 + 2 <= k < i3 ensures !StartsWithAt(s, k, "**") && !IsLineTerminator(s[k]) {
      assert s[k] == b[k - i2 - 2];
      DoubleStarAt(s, k);
    }
    StrongTwoSpansIn(s, i1, i2, i3, a, m, b);
  }

}
