/** The string operations of JavaScript that the pages use, on `seq<char>`:
    `trim`, `split` on one character and on whitespace runs, `join`,
    `toLowerCase` (ASCII, Latin-1 and Latin Extended-A capitals), `includes`,
    decimal rendering of integers and the digit prefixes read by regular expressions and `parseInt`. */
module Text {

  import opened Base

  /** A LineTerminator of ECMAScript; `.` in a regular expression does not
      match these. */
  predicate IsLineTerminator(c: char)
  {
    c == '\n' || c == '\r' || c == '\U{2028}' || c == '\U{2029}'
  }

  /** WhiteSpace or LineTerminator of ECMAScript: what `trim` removes and
      what `\s` matches. */
  predicate IsSpace(c: char)
  {
    || IsLineTerminator(c)
    || c == ' ' || c == '\t' || c == '\U{B}' || c == '\U{C}'
    || c == '\U{A0}' || c == '\U{FEFF}' || c == '\U{1680}'
    || ('\U{2000}' <= c <= '\U{200A}')
    || c == '\U{202F}' || c == '\U{205F}' || c == '\U{3000}'
  }

  predicate IsDigit(c: char)
  {
    '0' <= c <= '9'
  }

  predicate AllDigits(s: string)
  {
    forall i :: 0 <= i < |s| ==> IsDigit(s[i])
  }

  // ---------------------------------------------------------------- trim

  function TrimStart(s: string): (r: string)
    ensures |r| <= |s| && r == s[|s| - |r|..]
    ensures r == [] || !IsSpace(r[0])
    ensures forall i :: 0 <= i < |s| - |r| ==> IsSpace(s[i])
  {
    if |s| > 0 && IsSpace(s[0]) then TrimStart(s[1..]) else s
  }

  function TrimEnd(s: string): (r: string)
    ensures |r| <= |s| && r == s[..|r|]
    ensures r == [] || !IsSpace(r[|r| - 1])
    ensures forall i :: |r| <= i < |s| ==> IsSpace(s[i])
  {
    if |s| > 0 && IsSpace(s[|s| - 1]) then TrimEnd(s[..|s| - 1]) else s
  }

  /** `String.prototype.trim`. */
  function Trim(s: string): (r: string)
    ensures |r| <= |s| && forall c :: c in r ==> c in s
    ensures r != [] ==> !IsSpace(r[0]) && !IsSpace(r[|r| - 1])
  {
    TrimEnds(s);
    TrimEnd(TrimStart(s))
  }

  /** Trimming both ends keeps only characters of `s` and leaves no space at
      either end. */
  lemma TrimEnds(s: string)
    ensures var r := TrimEnd(TrimStart(s));
            |r| <= |s| && (forall c :: c in r ==> c in s) && (r != [] ==> !IsSpace(r[0]) && !IsSpace(r[|r| - 1]))
  {
    var t := TrimStart(s);
    var r := TrimEnd(t);
    SliceChars(s, |s| - |t|, |s|);
    SliceChars(t, 0, |r|);
    assert r != [] ==> r[0] == t[0];
  }

  /** A slice holds only characters of the whole. */
  lemma SliceChars(s: string, i: int, j: int)
    requires 0 <= i <= j <= |s|
    ensures forall c :: c in s[i..j] ==> c in s
  {
    forall c | c in s[i..j]
      ensures c in s
    {
      var k :| i <= k < j && s[k] == c;
    }
  }

  predicate Trimmed(s: string)
  {
    s == [] || (!IsSpace(s[0]) && !IsSpace(s[|s| - 1]))
  }

  lemma TrimOfTrimmed(s: string)
    requires Trimmed(s)
    ensures Trim(s) == s
  {
  }

  /** Blanks in front of a trimmed string are exactly what `trim` removes. */
  lemma TrimAfterBlanks(pad: string, s: string)
    requires forall i :: 0 <= i < |pad| ==> IsSpace(pad[i])
    requires s != [] && Trimmed(s)
    ensures Trim(pad + s) == s
  {
    if pad != [] {
      assert (pad + s)[1..] == pad[1..] + s;
      TrimAfterBlanks(pad[1..], s);
    } else {
      assert pad + s == s;
    }
  }

  // ------------------------------------------------------------ lowercase

  /** The lower-case form of a capital of ASCII, Latin-1 or Latin
      Extended-A; every other character is kept. U+0130, whose lower-case
      form is two characters long, is kept too. */
  function LowerChar(c: char): char
  {
    if 'A' <= c <= 'Z' || ('\U{C0}' <= c <= '\U{DE}' && c != '\U{D7}') then
      (c as int + 32) as char
    else if || ('\U{100}' <= c <= '\U{137}' && c != '\U{130}' && c as int % 2 == 0)
            || ('\U{139}' <= c <= '\U{148}' && c as int % 2 == 1)
            || ('\U{14A}' <= c <= '\U{177}' && c as int % 2 == 0)
            || ('\U{179}' <= c <= '\U{17E}' && c as int % 2 == 1) then
      (c as int + 1) as char
    else if c == '\U{178}' then '\U{FF}'
    else c
  }

  /** Only a period lower-cases to a period. */
  lemma LowerCharOfPeriod(c: char)
    ensures LowerChar(c) == '.' <==> c == '.'
  {
  }

  /** Lower-casing twice is lower-casing once. */
  lemma LowerCharTwice(c: char)
    ensures LowerChar(LowerChar(c)) == LowerChar(c)
  {
  }

  /** `toLowerCase`, on the capitals `LowerChar` knows. */
  function Lower(s: string): (r: string)
    ensures |r| == |s|
    ensures forall i :: 0 <= i < |s| ==> r[i] == LowerChar(s[i])
  {
    if s == [] then [] else [LowerChar(s[0])] + Lower(s[1..])
  }

  lemma LowerTwice(s: string)
    ensures Lower(Lower(s)) == Lower(s)
  {
    forall i | 0 <= i < |s| ensures Lower(Lower(s))[i] == Lower(s)[i] {
      LowerCharTwice(s[i]);
    }
  }

  lemma LowerAppend(a: string, b: string)
    ensures Lower(a + b) == Lower(a) + Lower(b)
  {
    var l, r := Lower(a + b), Lower(a) + Lower(b);
    forall i | 0 <= i < |l|
      ensures l[i] == r[i]
    {
      if i < |a| {
        assert (a + b)[i] == a[i];
      } else {
        assert (a + b)[i] == b[i - |a|];
      }
    }
  }

  // -------------------------------------------------------------- includes

  /** `s.includes(t)`. */
  predicate Contains(s: string, t: string)
  {
    t <= s || (s != [] && Contains(s[1..], t))
  }

  // ----------------------------------------------------------------- split

  /** `s.split(c)` for a one-character separator: the pieces between the
      occurrences of `c`, so there is always one more piece than there are
      separators. */
  function Split(s: string, c: char): (r: seq<string>)
    ensures |r| >= 1
    ensures c !in s ==> r == [s]
  {
    if s == [] then [""]
    else if s[0] == c then [""] + Split(s[1..], c)
    else
      var rest := Split(s[1..], c);
      assert [s[0]] + s[1..] == s;
      [[s[0]] + rest[0]] + rest[1..]
  }

  lemma {:induction false} SplitAtFirst(a: string, c: char, b: string)
    requires c !in a
    ensures Split(a + [c] + b, c) == [a] + Split(b, c)
  {
    if a == [] {
      assert a + [c] + b == [c] + b;
    } else {
      assert (a + [c] + b)[1..] == a[1..] + [c] + b;
      SplitAtFirst(a[1..], c, b);
      assert [a[0]] + a[1..] == a;
    }
  }

  lemma {:induction false} SplitAfterPrefix(p: string, c: char, t: string)
    requires c !in p
    ensures Split(p + t, c) == [p + Split(t, c)[0]] + Split(t, c)[1..]
  {
    if p != [] {
      assert (p + t)[1..] == p[1..] + t;
      SplitAfterPrefix(p[1..], c, t);
      assert [p[0]] + (p[1..] + Split(t, c)[0]) == p + Split(t, c)[0];
    } else {
      assert p + t == t;
      assert p + Split(t, c)[0] == Split(t, c)[0];
      assert Split(t, c) == [Split(t, c)[0]] + Split(t, c)[1..];
    }
  }

  // ------------------------------------------------------------------ join

  /** `xs.join(sep)`. */
  function Join(xs: seq<string>, sep: string): string
  {
    if xs == [] then ""
    else if |xs| == 1 then xs[0]
    else xs[0] + sep + Join(xs[1..], sep)
  }

  /** Splitting a joined list on the separator's first character gives the
      pieces back, every piece after the first carrying the rest of the
      separator in front: `"a, b".split(",")` is `["a", " b"]`. */
  lemma {:induction false} SplitJoin(xs: seq<string>, c: char, pad: string)
    requires |xs| >= 1
    requires c !in pad
    requires forall i :: 0 <= i < |xs| ==> c !in xs[i]
    ensures |Split(Join(xs, [c] + pad), c)| == |xs|
    ensures Split(Join(xs, [c] + pad), c)[0] == xs[0]
    ensures forall i :: 1 <= i < |xs| ==> Split(Join(xs, [c] + pad), c)[i] == pad + xs[i]
  {
    var sep := [c] + pad;
    if |xs| > 1 {
      var tail := Join(xs[1..], sep);
      SplitJoin(xs[1..], c, pad);
      assert Join(xs, sep) == xs[0] + [c] + (pad + tail);
      SplitAtFirst(xs[0], c, pad + tail);
      SplitAfterPrefix(pad, c, tail);
      var r, rest := Split(Join(xs, sep), c), Split(tail, c);
      assert r == [xs[0]] + ([pad + rest[0]] + rest[1..]);
      PiecesStep(xs, pad, r, rest);
    }
  }

  /** The index bookkeeping of one step of `SplitJoin`. */
  lemma PiecesStep(xs: seq<string>, pad: string, r: seq<string>, rest: seq<string>)
    requires |xs| > 1 && |rest| == |xs| - 1 && rest[0] == xs[1]
    requires forall i :: 1 <= i < |rest| ==> rest[i] == pad + xs[1..][i]
    requires r == [xs[0]] + ([pad + rest[0]] + rest[1..])
    ensures |r| == |xs| && r[0] == xs[0]
    ensures forall i :: 1 <= i < |xs| ==> r[i] == pad + xs[i]
  {
    forall i | 1 <= i < |xs|
      ensures r[i] == pad + xs[i]
    {
      if i > 1 {
        assert r[i] == rest[i - 1] && xs[1..][i - 1] == xs[i];
      }
    }
  }

  // ----------------------------------------------------- whitespace splits

  /** `s.split(/\s+/)`: the pieces between maximal runs of whitespace. */
  function SplitRuns(s: string): (r: seq<string>)
    ensures |r| >= 1
    decreases |s|
  {
    if s == [] then [""]
    else if IsSpace(s[0]) then
      var t := TrimStart(s[1..]);
      [""] + SplitRuns(t)
    else
      var rest := SplitRuns(s[1..]);
      [[s[0]] + rest[0]] + rest[1..]
  }

  lemma SplitRunsAtSpace(s: string)
    requires s != [] && IsSpace(s[0])
    ensures SplitRuns(s) == [""] + SplitRuns(TrimStart(s[1..]))
  {
  }

  lemma SplitRunsAtWord(s: string)
    requires s != [] && !IsSpace(s[0])
    ensures SplitRuns(s) == [[s[0]] + SplitRuns(s[1..])[0]] + SplitRuns(s[1..])[1..]
  {
  }

  /** A word: non-empty and free of whitespace. */
  predicate IsWord(w: string)
  {
    w != [] && forall i :: 0 <= i < |w| ==> !IsSpace(w[i])
  }

  predicate NoSpace(s: string)
  {
    forall i :: 0 <= i < |s| ==> !IsSpace(s[i])
  }

  lemma {:induction false} SplitRunsOfWord(w: string)
    requires NoSpace(w)
    ensures SplitRuns(w) == [w]
  {
    if w != [] {
      SplitRunsOfWord(w[1..]);
      assert [w[0]] + w[1..] == w;
    }
  }

  /** Every character of the pieces `r` is a character of `s` and is not
      whitespace. */
  predicate PiecesOf(s: string, r: seq<string>)
  {
    forall k, j :: 0 <= k < |r| && 0 <= j < |r[k]| ==> r[k][j] in s && !IsSpace(r[k][j])
  }

  /** The pieces of a string contain only characters of the string, and
      no whitespace. */
  lemma SplitRunsChars(s: string, k: int, j: int)
    requires 0 <= k < |SplitRuns(s)| && 0 <= j < |SplitRuns(s)[k]|
    ensures SplitRuns(s)[k][j] in s
    ensures !IsSpace(SplitRuns(s)[k][j])
  {
    SplitRunsPieces(s);
  }

  lemma {:induction false} SplitRunsPieces(s: string)
    ensures PiecesOf(s, SplitRuns(s))
    decreases |s|
  {
    if s == [] {
    } else if IsSpace(s[0]) {
      var t := TrimStart(s[1..]);
      SplitRunsAtSpace(s);
      SplitRunsPieces(t);
      PiecesAfterSpace(s, t, SplitRuns(t));
    } else {
      SplitRunsAtWord(s);
      SplitRunsPieces(s[1..]);
      PiecesInWord(s, SplitRuns(s[1..]));
    }
  }

  /** Pieces of a suffix, behind an empty first piece. */
  lemma PiecesAfterSpace(s: string, t: string, y: seq<string>)
    requires |t| <= |s| && t == s[|s| - |t|..] && PiecesOf(t, y)
    ensures PiecesOf(s, [""] + y)
  {
    var x := [""] + y;
    forall k, j | 0 <= k < |x| && 0 <= j < |x[k]|
      ensures x[k][j] in s && !IsSpace(x[k][j])
    {
      assert x[k][j] == y[k - 1][j];
      InTail(s, t, y[k - 1][j]);
    }
  }

  /** Pieces of the rest, with the first character put in front of the
      first piece. */
  lemma PiecesInWord(s: string, y: seq<string>)
    requires s != [] && !IsSpace(s[0]) && |y| >= 1 && PiecesOf(s[1..], y)
    ensures PiecesOf(s, [[s[0]] + y[0]] + y[1..])
  {
    var x := [[s[0]] + y[0]] + y[1..];
    forall k, j | 0 <= k < |x| && 0 <= j < |x[k]|
      ensures x[k][j] in s && !IsSpace(x[k][j])
    {
      if k == 0 && j == 0 {
        assert x[k][j] == s[0];
      } else {
        var k', j' := if k == 0 then 0 else k, if k == 0 then j - 1 else j;
        assert x[k][j] == y[k'][j'];
        InTail(s, s[1..], y[k'][j']);
      }
    }
  }

  lemma InTail(s: string, t: string, c: char)
    requires |t| <= |s| && t == s[|s| - |t|..] && c in t
    ensures c in s
  {
    var i :| 0 <= i < |t| && t[i] == c;
    assert s[|s| - |t| + i] == c;
  }

  /** A string that does not start with whitespace has a non-empty first
      piece; one that does not end with whitespace has a non-empty last
      piece. */
  lemma SplitRunsEnds(s: string)
    requires s != []
    ensures !IsSpace(s[0]) ==> SplitRuns(s)[0] != []
    ensures !IsSpace(s[|s| - 1]) ==> SplitRuns(s)[|SplitRuns(s)| - 1] != []
  {
    if !IsSpace(s[0]) {
      var rest := SplitRuns(s[1..]);
      assert SplitRuns(s)[0] == [s[0]] + rest[0];
    }
    if !IsSpace(s[|s| - 1]) {
      SplitRunsLast(s);
    }
  }

  /** `trimStart` keeps a last character that is not whitespace. */
  lemma {:induction false} TrimStartKeepsLast(s: string)
    requires s != [] && !IsSpace(s[|s| - 1])
    ensures TrimStart(s) != [] && TrimStart(s)[|TrimStart(s)| - 1] == s[|s| - 1]
  {
    if IsSpace(s[0]) {
      assert |s| > 1;
      assert s[1..][|s| - 2] == s[|s| - 1];
      TrimStartKeepsLast(s[1..]);
    }
  }

  lemma {:induction false} SplitRunsLast(s: string)
    requires s != [] && !IsSpace(s[|s| - 1])
    ensures SplitRuns(s)[|SplitRuns(s)| - 1] != []
    decreases |s|
  {
    if IsSpace(s[0]) {
      var t := TrimStart(s[1..]);
      TrimStartKeepsLast(s[1..]);
      SplitRunsLast(t);
      LastAfterSpace(s);
    } else if |s| > 1 {
      assert s[1..][|s| - 2] == s[|s| - 1];
      SplitRunsLast(s[1..]);
      LastInWord(s);
    } else {
      assert SplitRuns(s)[0] == [s[0]] + SplitRuns(s[1..])[0];
    }
  }

  lemma LastAfterSpace(s: string)
    requires s != [] && IsSpace(s[0])
    ensures var u := SplitRuns(TrimStart(s[1..]));
      u[|u| - 1] != [] ==> SplitRuns(s)[|SplitRuns(s)| - 1] != []
  {
    SplitRunsAtSpace(s);
  }

  lemma LastInWord(s: string)
    requires s != [] && !IsSpace(s[0])
    ensures var u := SplitRuns(s[1..]);
      u[|u| - 1] != [] ==> SplitRuns(s)[|SplitRuns(s)| - 1] != []
  {
    var r, u := SplitRuns(s), SplitRuns(s[1..]);
    assert r == [[s[0]] + u[0]] + u[1..];
    if |u| > 1 {
      assert r[|r| - 1] == u[|u| - 1];
    }
  }

  /** Blanks in front of a string that starts with no blank are exactly
      what `trimStart` removes. */
  lemma {:induction false} TrimStartBlanks(pad: string, s: string)
    requires forall i :: 0 <= i < |pad| ==> IsSpace(pad[i])
    requires s == [] || !IsSpace(s[0])
    ensures TrimStart(pad + s) == s
  {
    if pad != [] {
      assert (pad + s)[1..] == pad[1..] + s;
      TrimStartBlanks(pad[1..], s);
    } else {
      assert pad + s == s;
    }
  }

  /** A word, then a run of whitespace, then text that starts with no
      whitespace: the word is the first piece. */
  lemma {:induction false} SplitRunsCons(a: string, pad: string, rest: string)
    requires IsWord(a) && pad != [] && forall i :: 0 <= i < |pad| ==> IsSpace(pad[i])
    requires rest == [] || !IsSpace(rest[0])
    ensures SplitRuns(a + pad + rest) == [a] + SplitRuns(rest)
  {
    BlanksThenText(pad, rest);
    WordThenPieces(a, pad + rest, SplitRuns(rest));
    assert a + pad + rest == a + (pad + rest);
  }

  /** A word in front of text whose first piece is empty fills that piece. */
  lemma {:induction false} WordThenPieces(a: string, t: string, pieces: seq<string>)
    requires IsWord(a) && SplitRuns(t) == [""] + pieces
    ensures SplitRuns(a + t) == [a] + pieces
    decreases |a|
  {
    if |a| == 1 {
      ConsLastLetter(a, t, pieces);
    } else {
      WordThenPieces(a[1..], t, pieces);
      ConsLetter(a, t, pieces);
    }
  }

  /** A run of whitespace in front of text that starts with no whitespace
      produces one empty piece. */
  lemma BlanksThenText(pad: string, rest: string)
    requires pad != [] && forall i :: 0 <= i < |pad| ==> IsSpace(pad[i])
    requires rest == [] || !IsSpace(rest[0])
    ensures SplitRuns(pad + rest) == [""] + SplitRuns(rest)
  {
    var s := pad + rest;
    assert s[0] == pad[0];
    var t := pad[1..];
    assert s[1..] == t + rest;
    TrimStartBlanks(t, rest);
    SplitRunsAtSpace(s);
  }

  /** The last letter of a word, before an empty piece, ends the word. */
  lemma ConsLastLetter(a: string, t: string, pieces: seq<string>)
    requires |a| == 1 && !IsSpace(a[0])
    requires SplitRuns(t) == [""] + pieces
    ensures SplitRuns(a + t) == [a] + pieces
  {
    var s := a + t;
    assert s[0] == a[0] && s[1..] == t;
    SplitRunsAtWord(s);
    assert [a[0]] + "" == a;
  }

  /** A letter in front of a word joins the word's piece. */
  lemma ConsLetter(a: string, t: string, pieces: seq<string>)
    requires |a| > 1 && !IsSpace(a[0])
    requires SplitRuns(a[1..] + t) == [a[1..]] + pieces
    ensures SplitRuns(a + t) == [a] + pieces
  {
    var s := a + t;
    assert s[0] == a[0] && s[1..] == a[1..] + t;
    SplitRunsAtWord(s);
    assert [a[0]] + a[1..] == a;
  }

  // ------------------------------------------------------------ digits

  function DigitChar(d: nat): char
    requires d < 10
  {
    ('0' as int + d) as char
  }

  function DigitValue(c: char): nat
    requires IsDigit(c)
  {
    c as int - '0' as int
  }

  /** The decimal text of a natural number, as template literals render it. */
  function NatText(n: nat): (s: string)
    ensures s != [] && AllDigits(s)
  {
    if n < 10 then [DigitChar(n)] else NatText(n / 10) + [DigitChar(n % 10)]
  }

  /** The decimal text of an integer, with a leading minus when negative. */
  function IntText(n: int): string
  {
    if n >= 0 then NatText(n) else "-" + NatText(-n)
  }

  /** The value of a string of decimal digits. */
  function DigitsValue(s: string): nat
    requires AllDigits(s)
  {
    if s == [] then 0 else 10 * DigitsValue(s[..|s| - 1]) + DigitValue(s[|s| - 1])
  }

  lemma {:induction false} DigitsValueOfNatText(n: nat)
    ensures DigitsValue(NatText(n)) == n
  {
    if n >= 10 {
      var s := NatText(n);
      DigitsValueOfNatText(n / 10);
      assert s[..|s| - 1] == NatText(n / 10);
    }
  }

  /** The longest prefix of digits. */
  function DigitPrefix(s: string): (p: string)
    ensures |p| <= |s| && p == s[..|p|] && AllDigits(p)
    ensures |p| < |s| ==> !IsDigit(s[|p|])
  {
    if s != [] && IsDigit(s[0]) then [s[0]] + DigitPrefix(s[1..]) else []
  }

  lemma {:induction false} DigitPrefixOf(d: string, t: string)
    requires AllDigits(d)
    requires t == [] || !IsDigit(t[0])
    ensures DigitPrefix(d + t) == d
  {
    if d != [] {
      assert (d + t)[1..] == d[1..] + t;
      DigitPrefixOf(d[1..], t);
    } else {
      assert d + t == t;
    }
  }

  /** `parseInt` of a string of digits is its value. */
  lemma ParseIntOfDigits(d: string)
    requires d != [] && AllDigits(d)
    ensures ParseInt(d) == Some(DigitsValue(d) as int)
  {
    assert IsDigit(d[0]);
    TrimStartOfDigits(d);
    DigitPrefixOfDigits(d);
  }

  lemma TrimStartOfDigits(d: string)
    requires d != [] && IsDigit(d[0])
    ensures TrimStart(d) == d
  {
    assert !IsSpace(d[0]);
  }

  lemma DigitPrefixOfDigits(d: string)
    requires AllDigits(d)
    ensures DigitPrefix(d) == d
  {
    DigitPrefixOf(d, []);
    assert d + [] == d;
  }

  /** `parseInt(s)` in base 10: leading whitespace, an optional sign, then
      the longest run of digits; `None` stands for NaN (no digits). */
  function ParseInt(s: string): (r: Option<int>)
  {
    var t := TrimStart(s);
    var neg := t != [] && t[0] == '-';
    var u := if t != [] && (t[0] == '-' || t[0] == '+') then t[1..] else t;
    var d := DigitPrefix(u);
    if d == [] then None
    else if neg then Some(-(DigitsValue(d) as int))
    else Some(DigitsValue(d))
  }

}
