/** The character classifier, identifier (src/identifier/index.js). The
    argument is a string of any length compared whole, as `===` compares, while
    the digit test looks for a digit anywhere in it, as `/\d/.test` does. */
module Identifier {
  import opened Strings

  datatype Kind = Heading | Bullet | Number

  predicate HasDigit(s: string) {
    exists k :: 0 <= k < |s| && IsDigit(s[k])
  }

  /** identifier: `'heading'`, `'bullet'`, `'number'` or `undefined`, the checks
      made in that order. */
  function Identify(s: string): (r: Option<Kind>)
    ensures r == Some(Heading) <==> s == "#"
    ensures r == Some(Bullet) <==> s == "-"
    ensures r == Some(Number) <==> HasDigit(s)
    ensures r == None <==> s != "#" && s != "-" && !HasDigit(s)
  {
    if s == "#" then Some(Heading)
    else if s == "-" then Some(Bullet)
    else if HasDigit(s) then Some(Number)
    else None
  }

  /** The scanner calls identifier on one character. Then `#` is a heading,
      `-` (and neither `*` nor `+`) a bullet, the ASCII digits are numbers, and
      every other character is unclassified. The scanner's call at
      src/parsing/index.js:392 passes a second character, which this
      one-parameter function never sees. */
  lemma IdentifyChar(c: char)
    ensures Identify([c]) == Some(Heading) <==> c == '#'
    ensures Identify([c]) == Some(Bullet) <==> c == '-'
    ensures Identify([c]) == Some(Number) <==> IsDigit(c)
    ensures Identify([c]) == None <==> c != '#' && c != '-' && !IsDigit(c)
  {
    assert [c][0] == c;
    if IsDigit(c) {
      assert HasDigit([c]);
    }
  }
}
