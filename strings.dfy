/** String primitives of JavaScript that the converter relies on, written out
    over `seq<char>`: a string is a sequence of Dafny characters, not of UTF-16
    code units.
    Whitespace is the fixed ASCII set space, tab, line feed and carriage return. */
module Strings {

  datatype Option<+T> = None | Some(value: T)

  /** The characters `String.prototype.trim` and `\s` treat as whitespace here. */
  predicate IsSpace(c: char) {
    c == ' ' || c == '\t' || c == '\n' || c == '\r'
  }

  predicate AllSpace(s: string) {
    forall k :: 0 <= k < |s| ==> IsSpace(s[k])
  }

  /** `d[i] === c`, where an index outside the string reads `undefined`. */
  predicate CharIs(d: string, i: int, c: char) {
    0 <= i < |d| && d[i] == c
  }

  /** `s.startsWith(p, i)`, compared one character at a time. */
  predicate StartsWithAt(s: string, i: nat, p: string)
    ensures StartsWithAt(s, i, p) ==> i + |p| <= |s|
    decreases |p|
  {
    if |p| == 0 then i <= |s| else i < |s| && s[i] == p[0] && StartsWithAt(s, i + 1, p[1..])
  }

  /** The character-wise test is the slice comparison. */
  lemma {:induction false} StartsWithAtSlice(s: string, i: nat, p: string)
    ensures StartsWithAt(s, i, p) <==> i + |p| <= |s| && s[i..i + |p|] == p
    decreases |p|
  {
    if |p| > 0 {
      StartsWithAtSlice(s, i + 1, p[1..]);
      assert i + |p| <= |s| ==> s[i..i + |p|] == [s[i]] + s[i + 1..i + |p|];
      assert p == [p[0]] + p[1..];
    }
  }

  predicate EndsWith(s: string, p: string) {
    |p| <= |s| && s[|s| - |p|..] == p
  }

  /** Every character of `s` is `c`. */
  predicate AllAre(s: string, c: char) {
    forall k :: 0 <= k < |s| ==> s[k] == c
  }

  /** Leading whitespace removed: the longest suffix that does not start with whitespace. */
  function TrimStart(s: string): (r: string)
    ensures |r| <= |s|
  {
    if s != [] && IsSpace(s[0]) then TrimStart(s[1..]) else s
  }

  lemma {:induction false} TrimStartShape(s: string)
    ensures var r := TrimStart(s);
      && r == s[|s| - |r|..]
      && (forall k :: 0 <= k < |s| - |r| ==> IsSpace(s[k]))
      && (r != [] ==> !IsSpace(r[0]))
  {
    if s != [] && IsSpace(s[0]) {
      TrimStartShape(s[1..]);
      var r := TrimStart(s);
      assert s[1..][|s| - 1 - |r|..] == s[|s| - |r|..];
      forall k | 0 <= k < |s| - |r| ensures IsSpace(s[k]) {
        if k > 0 {
          assert s[k] == s[1..][k - 1];
        }
      }
    }
  }

  /** Trailing whitespace removed: the longest prefix that does not end with whitespace. */
  function TrimEnd(s: string): (r: string)
    ensures |r| <= |s|
  {
    if s != [] && IsSpace(s[|s| - 1]) then TrimEnd(s[..|s| - 1]) else s
  }

  lemma {:induction false} TrimEndShape(s: string)
    ensures var r := TrimEnd(s);
      && r == s[..|r|]
      && (forall k :: |r| <= k < |s| ==> IsSpace(s[k]))
      && (r != [] ==> !IsSpace(r[|r| - 1]))
  {
    if s != [] && IsSpace(s[|s| - 1]) {
      TrimEndShape(s[..|s| - 1]);
      var r := TrimEnd(s);
      assert s[..|s| - 1][..|r|] == s[..|r|];
      forall k | |r| <= k < |s| ensures IsSpace(s[k]) {
        if k < |s| - 1 {
          assert s[k] == s[..|s| - 1][k];
        }
      }
    }
  }

  /** `s.trim()`. */
  function Trim(s: string): string {
    TrimEnd(TrimStart(s))
  }

  /** A string trims to the empty string exactly when it is all whitespace, so
      `if (s.trim())` tests "not whitespace-only". */
  lemma TrimEmptyIffAllSpace(s: string)
    ensures Trim(s) == [] <==> AllSpace(s)
  {
    var t := TrimStart(s);
    TrimStartShape(s);
    TrimEndShape(t);
    if Trim(s) == [] {
      assert |t| == 0;
    } else {
      var r := Trim(s);
      assert r[0] == t[0];
      assert t[0] == s[|s| - |t|];
    }
  }

  /** A trimmed string neither starts nor ends with whitespace, and is the
      piece of the original that starts after its leading whitespace. */
  lemma TrimShape(s: string)
    ensures Trim(s) != [] ==> !IsSpace(Trim(s)[0]) && !IsSpace(Trim(s)[|Trim(s)| - 1])
    ensures |s| - |TrimStart(s)| + |Trim(s)| <= |s|
    ensures Trim(s) == s[|s| - |TrimStart(s)|..|s| - |TrimStart(s)| + |Trim(s)|]
  {
    var t := TrimStart(s);
    TrimStartShape(s);
    TrimEndShape(t);
    var r := TrimEnd(t);
    var off := |s| - |t|;
    assert t == s[off..];
    assert r == t[..|r|];
    assert r == s[off..off + |r|];
    if r != [] {
      assert r[0] == t[0];
    }
  }

  /** `s.replace(/c/g, rep)` for a single character `c`. */
  function ReplaceChar(s: string, c: char, rep: string): (r: string)
  {
    if s == [] then [] else (if s[0] == c then rep else [s[0]]) + ReplaceChar(s[1..], c, rep)
  }

  lemma {:induction false} ReplaceCharAppend(a: string, b: string, c: char, rep: string)
    ensures ReplaceChar(a + b, c, rep) == ReplaceChar(a, c, rep) + ReplaceChar(b, c, rep)
  {
    if a != [] {
      assert (a + b)[1..] == a[1..] + b;
      ReplaceCharAppend(a[1..], b, c, rep);
    } else {
      assert a + b == b;
    }
  }

  /** Replacing a character that does not occur changes nothing. */
  lemma {:induction false} ReplaceCharAbsent(s: string, c: char, rep: string)
    requires c !in s
    ensures ReplaceChar(s, c, rep) == s
  {
    if s != [] {
      assert s[1..] == s[1..];
      assert c !in s[1..] by {
        forall k | 0 <= k < |s[1..]| ensures s[1..][k] != c {
          assert s[1..][k] == s[k + 1];
        }
      }
      ReplaceCharAbsent(s[1..], c, rep);
      assert s == [s[0]] + s[1..];
    }
  }

  /** The first index at or after `i` at which `sep` occurs, or `|s|` when it does not occur. */
  function IndexOf(s: string, sep: string, i: nat): (j: nat)
    requires sep != [] && i <= |s|
    ensures i <= j <= |s|
    ensures j < |s| ==> StartsWithAt(s, j, sep)
    ensures forall k :: i <= k < j ==> !StartsWithAt(s, k, sep)
    decreases |s| - i
  {
    if i + |sep| > |s| then |s|
    else if StartsWithAt(s, i, sep) then i
    else IndexOf(s, sep, i + 1)
  }

  /** `parts.join(sep)`. */
  function Join(parts: seq<string>, sep: string): string
  {
    if |parts| == 0 then []
    else if |parts| == 1 then parts[0]
    else parts[0] + sep + Join(parts[1..], sep)
  }

  /** `parts.join('')`. */
  function Concat(parts: seq<string>): string
  {
    if parts == [] then [] else parts[0] + Concat(parts[1..])
  }

  lemma {:induction false} ConcatAppend(a: seq<string>, b: seq<string>)
    ensures Concat(a + b) == Concat(a) + Concat(b)
  {
    if a == [] {
      assert a + b == b;
    } else {
      assert (a + b)[1..] == a[1..] + b;
      ConcatAppend(a[1..], b);
    }
  }

  lemma {:induction false} ConcatOfEmpties(parts: seq<string>)
    requires forall k :: 0 <= k < |parts| ==> parts[k] == []
    ensures Concat(parts) == []
  {
    if parts != [] {
      ConcatOfEmpties(parts[1..]);
    }
  }

  /** `s.split(sep)` for a non-empty string separator: cut at each occurrence,
      scanning left to right without overlaps. */
  function Split(s: string, sep: string): (parts: seq<string>)
    requires sep != []
    ensures |parts| >= 1
    decreases |s|
  {
    var j := IndexOf(s, sep, 0);
    if j == |s| then [s] else [s[..j]] + Split(s[j + |sep|..], sep)
  }

  /** The first cut: the piece before the first separator, the separator, and
      what follows it. */
  lemma SplitFirst(s: string, sep: string)
    requires sep != [] && IndexOf(s, sep, 0) < |s|
    ensures var j := IndexOf(s, sep, 0);
      && j + |sep| <= |s|
      && s == s[..j] + sep + s[j + |sep|..]
      && Split(s, sep) == [s[..j]] + Split(s[j + |sep|..], sep)
  {
    var j := IndexOf(s, sep, 0);
    StartsWithAtSlice(s, j, sep);
    assert s[j..j + |sep|] == sep;
  }

  /** Joining the pieces with the separator gives back the string. */
  lemma {:induction false} SplitJoin(s: string, sep: string)
    requires sep != []
    ensures Join(Split(s, sep), sep) == s
    decreases |s|
  {
    var j := IndexOf(s, sep, 0);
    if j < |s| {
      var rest := s[j + |sep|..];
      SplitFirst(s, sep);
      SplitJoin(rest, sep);
      var parts := Split(s, sep);
      assert parts[0] == s[..j] && parts[1..] == Split(rest, sep);
    }
  }

  /** No piece contains the separator. */
  lemma {:induction false} SplitPartsFree(s: string, sep: string)
    requires sep != []
    ensures forall p :: p in Split(s, sep) ==> IndexOf(p, sep, 0) == |p|
    decreases |s|
  {
    var j := IndexOf(s, sep, 0);
    if j < |s| {
      var rest := s[j + |sep|..];
      SplitFirst(s, sep);
      SplitPartsFree(rest, sep);
      PrefixHasNoSeparator(s, sep, j, 0);
    }
  }

  lemma {:induction false} PrefixHasNoSeparator(s: string, sep: string, j: nat, i: nat)
    requires sep != [] && i <= j <= |s|
    requires forall k :: i <= k < j ==> !StartsWithAt(s, k, sep)
    ensures IndexOf(s[..j], sep, i) == j
    decreases j - i
  {
    if i + |sep| <= j {
      assert s[..j][i..i + |sep|] == s[i..i + |sep|];
      assert !StartsWithAt(s, i, sep);
      StartsWithAtSlice(s, i, sep);
      StartsWithAtSlice(s[..j], i, sep);
      assert IndexOf(s[..j], sep, i) == IndexOf(s[..j], sep, i + 1);
      PrefixHasNoSeparator(s, sep, j, i + 1);
    }
  }

  function DigitChar(n: nat): char
    requires n < 10
  {
    ['0', '1', '2', '3', '4', '5', '6', '7', '8', '9'][n]
  }

  predicate IsDigit(c: char) {
    '0' <= c <= '9'
  }

  /** The decimal text of `n`, as in a template literal `${n}`. */
  function NatToString(n: nat): (r: string)
    ensures |r| >= 1
  {
    if n < 10 then [DigitChar(n)] else NatToString(n / 10) + [DigitChar(n % 10)]
  }

  /** The value of a string of decimal digits. */
  function DigitsValue(s: string): nat
    requires forall k :: 0 <= k < |s| ==> IsDigit(s[k])
  {
    if s == [] then 0
    else
      assert IsDigit(s[|s| - 1]);
      10 * DigitsValue(s[..|s| - 1]) + (s[|s| - 1] as int - '0' as int)
  }

  /** The decimal text is all digits and reads back as the number. */
  lemma {:induction false} NatToStringDigits(n: nat)
    ensures forall k :: 0 <= k < |NatToString(n)| ==> IsDigit(NatToString(n)[k])
    ensures DigitsValue(NatToString(n)) == n
  {
    var r := NatToString(n);
    if n >= 10 {
      NatToStringDigits(n / 10);
      assert r[..|r| - 1] == NatToString(n / 10);
    }
  }
}
