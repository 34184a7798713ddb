/** The string operations the modelled code takes from Python: strip, split and join. */
module Text {

  /** str.isspace for one character, as strip and split use it. */
  predicate IsSpace(c: char) {
    var n := c as int;
    || 0x09 <= n <= 0x0D || 0x1C <= n <= 0x20 || n == 0x85 || n == 0xA0 || n == 0x1680
    || 0x2000 <= n <= 0x200A || n == 0x2028 || n == 0x2029 || n == 0x202F || n == 0x205F || n == 0x3000
  }

  /** The same, one by one. */
  const SPACES :=
    "\t\n\U{0B}\U{0C}\r\U{1C}\U{1D}\U{1E}\U{1F} \U{85}\U{A0}\U{1680}\U{2000}\U{2001}\U{2002}\U{2003}\U{2004}\U{2005}" +
    "\U{2006}\U{2007}\U{2008}\U{2009}\U{200A}\U{2028}\U{2029}\U{202F}\U{205F}\U{3000}"

  lemma SpacesAreListed(c: char)
    ensures IsSpace(c) <==> c in SPACES
  {
  }

  predicate Blank(s: string) {
    forall i :: 0 <= i < |s| ==> IsSpace(s[i])
  }

  function LStrip(s: string): string {
    if s != "" && IsSpace(s[0]) then LStrip(s[1..]) else s
  }

  function RStrip(s: string): string {
    if s != "" && IsSpace(s[|s| - 1]) then RStrip(s[..|s| - 1]) else s
  }

  function Strip(s: string): string {
    RStrip(LStrip(s))
  }

  /** Non-empty, with no space at either end. */
  predicate Trimmed(s: string) {
    s != "" && !IsSpace(s[0]) && !IsSpace(s[|s| - 1])
  }

  function Join(sep: string, parts: seq<string>): string {
    if parts == [] then "" else if |parts| == 1 then parts[0] else parts[0] + sep + Join(sep, parts[1..])
  }

  function Concat<T>(parts: seq<seq<T>>): seq<T> {
    if parts == [] then [] else parts[0] + Concat(parts[1..])
  }

  // ------------------------------------------------------------------
  // strip
  // ------------------------------------------------------------------

  /** What rstrip removes is a blank end. */
  lemma {:induction false} RStripSplits(s: string)
    ensures |RStrip(s)| <= |s| && RStrip(s) == s[..|RStrip(s)|] && Blank(s[|RStrip(s)|..])
    ensures RStrip(s) != "" ==> !IsSpace(RStrip(s)[|RStrip(s)| - 1])
  {
    if s == "" || !IsSpace(s[|s| - 1]) {
    } else {
      var t := s[..|s| - 1];
      RStripSplits(t);
      var n := |RStrip(t)|;
      assert s[..n] == t[..n] && s[n..] == t[n..] + [s[|s| - 1]];
    }
  }

  lemma {:induction false} LStripSplits(s: string)
    ensures |LStrip(s)| <= |s| && LStrip(s) == s[|s| - |LStrip(s)|..] && Blank(s[..|s| - |LStrip(s)|])
    ensures LStrip(s) != "" ==> !IsSpace(LStrip(s)[0])
  {
    if s == "" || !IsSpace(s[0]) {
    } else {
      var t := s[1..];
      LStripSplits(t);
      var n := |t| - |LStrip(t)|;
      assert s[n + 1..] == t[n..] && s[..n + 1] == [s[0]] + t[..n];
    }
  }

  lemma StripIsTrimmed(s: string)
    ensures Strip(s) == "" || Trimmed(Strip(s))
  {
    LStripSplits(s);
    RStripSplits(LStrip(s));
  }

  /** What strip takes away is blank, and what it leaves neither starts nor ends with a space. */
  lemma StripIs(s: string) returns (i: nat, j: nat)
    ensures i <= j <= |s| && Strip(s) == s[i..j]
    ensures Blank(s[..i]) && Blank(s[j..])
    ensures i < j ==> !IsSpace(s[i]) && !IsSpace(s[j - 1])
  {
    LStripSplits(s);
    RStripSplits(LStrip(s));
    i := |s| - |LStrip(s)|;
    j := i + |Strip(s)|;
    assert s[i..][|Strip(s)|..] == s[j..];
  }

  lemma StripOfTrimmed(s: string)
    requires s == "" || Trimmed(s)
    ensures Strip(s) == s
  {
  }

  lemma StripTwice(s: string)
    ensures Strip(Strip(s)) == Strip(s)
  {
    StripIsTrimmed(s);
    StripOfTrimmed(Strip(s));
  }

  lemma {:induction false} BlankStripsAway(s: string)
    requires Blank(s)
    ensures LStrip(s) == "" && RStrip(s) == ""
  {
    if s == "" {
    } else {
      BlankStripsAway(s[1..]);
      BlankStripsAway(s[..|s| - 1]);
    }
  }

  /** rstrip sees through a blank end, and stops where it stops. */
  lemma {:induction false} RStripOfBlankEnd(s: string, t: string)
    requires Blank(t)
    ensures RStrip(s + t) == RStrip(s)
  {
    if t == "" {
      assert s + t == s;
    } else {
      assert (s + t)[..|s + t| - 1] == s + t[..|t| - 1];
      RStripOfBlankEnd(s, t[..|t| - 1]);
    }
  }

  lemma JoinTrimmed(a: string, sep: string, b: string)
    requires Trimmed(a) && Trimmed(b)
    ensures Trimmed(a + sep + b)
  {
  }

  // ------------------------------------------------------------------
  // split and join
  // ------------------------------------------------------------------

  /** Length of the leading run of non-space characters. */
  function WordLen(s: string): (n: nat)
    ensures n <= |s| && (forall i :: 0 <= i < n ==> !IsSpace(s[i])) && (n < |s| ==> IsSpace(s[n]))
  {
    if s == "" || IsSpace(s[0]) then 0 else 1 + WordLen(s[1..])
  }

  /** str.split() */
  function Words(s: string): seq<string>
    decreases |s|
  {
    if s == "" then []
    else if IsSpace(s[0]) then Words(s[1..])
    else [s[..WordLen(s)]] + Words(s[WordLen(s)..])
  }

  predicate IsWord(w: string) {
    w != "" && forall i :: 0 <= i < |w| ==> !IsSpace(w[i])
  }

  lemma {:induction false} WordsAreWords(s: string)
    ensures forall i :: 0 <= i < |Words(s)| ==> IsWord(Words(s)[i])
    decreases |s|
  {
    if s == "" {
    } else {
      WordsAreWords(if IsSpace(s[0]) then s[1..] else s[WordLen(s)..]);
    }
  }

  lemma WordLenIs(s: string, n: nat)
    requires n <= |s| && (forall i :: 0 <= i < n ==> !IsSpace(s[i])) && (n < |s| ==> IsSpace(s[n]))
    ensures WordLen(s) == n
  {
  }

  lemma WordLenAppend(a: string, c: char, b: string)
    requires IsSpace(c)
    ensures WordLen(a + [c] + b) == WordLen(a)
  {
    assert (a + [c] + b)[|a|] == c;
    WordLenIs(a + [c] + b, WordLen(a));
  }

  lemma WordsStep(s: string)
    ensures s == "" ==> Words(s) == []
    ensures s != "" && IsSpace(s[0]) ==> Words(s) == Words(s[1..])
    ensures s != "" && !IsSpace(s[0]) ==>
      WordLen(s) > 0 && Words(s) == [s[..WordLen(s)]] + Words(s[WordLen(s)..])
  {
  }

  /** Splitting at any space splits the list of words. */
  lemma {:induction false} WordsAppend(a: string, c: char, b: string)
    requires IsSpace(c)
    ensures Words(a + [c] + b) == Words(a) + Words(b)
    decreases |a|
  {
    hide *;
    var s := a + [c] + b;
    WordsStep(a);
    WordsStep(s);
    if a == "" {
      assert s[1..] == b;
      assert [] + Words(b) == Words(b);
    } else if IsSpace(a[0]) {
      assert s[1..] == a[1..] + [c] + b;
      WordsAppend(a[1..], c, b);
    } else {
      var n := WordLen(a);
      WordLenAppend(a, c, b);
      assert s[..n] == a[..n] && s[n..] == a[n..] + [c] + b;
      WordsAppend(a[n..], c, b);
      assert Words(s) == [a[..n]] + (Words(a[n..]) + Words(b));
    }
  }

  lemma {:induction false} WordsOfLStrip(s: string)
    ensures Words(LStrip(s)) == Words(s)
  {
    if s == "" || !IsSpace(s[0]) {
    } else {
      WordsOfLStrip(s[1..]);
    }
  }

  lemma {:induction false} WordsOfRStrip(s: string)
    ensures Words(RStrip(s)) == Words(s)
  {
    if s == "" || !IsSpace(s[|s| - 1]) {
    } else {
      var t := s[..|s| - 1];
      WordsOfRStrip(t);
      WordsAppend(t, s[|s| - 1], "");
      assert t + [s[|s| - 1]] + "" == s;
    }
  }

  lemma WordsOfStrip(s: string)
    ensures Words(Strip(s)) == Words(s)
  {
    WordsOfLStrip(s);
    WordsOfRStrip(LStrip(s));
  }

  lemma NoWordsIffBlank(s: string)
    ensures Words(s) == [] <==> Strip(s) == ""
  {
    WordsOfStrip(s);
    StripIsTrimmed(s);
  }

  lemma WordsOfWord(w: string)
    requires IsWord(w)
    ensures Words(w) == [w]
  {
    assert WordLen(w) == |w|;
    assert w[..|w|] == w && w[|w|..] == "";
  }

  function WordsOfAll(parts: seq<string>): seq<string> {
    if parts == [] then [] else Words(parts[0]) + WordsOfAll(parts[1..])
  }

  lemma {:induction false} WordsOfJoin(c: char, parts: seq<string>)
    requires IsSpace(c)
    ensures Words(Join([c], parts)) == WordsOfAll(parts)
  {
    if |parts| == 1 {
      assert WordsOfAll(parts[1..]) == [];
    } else if |parts| > 1 {
      WordsOfJoin(c, parts[1..]);
      WordsAppend(parts[0], c, Join([c], parts[1..]));
    }
  }

  /** Splitting undoes joining words with a space. */
  lemma {:induction false} WordsOfJoinedWords(ws: seq<string>)
    requires forall i :: 0 <= i < |ws| ==> IsWord(ws[i])
    ensures WordsOfAll(ws) == ws && Words(Join(" ", ws)) == ws
  {
    if ws == [] {
    } else {
      WordsOfJoinedWords(ws[1..]);
      WordsOfWord(ws[0]);
    }
    WordsOfJoin(' ', ws);
  }

  lemma {:induction false} JoinSnoc(sep: string, parts: seq<string>, last: string)
    requires parts != []
    ensures Join(sep, parts + [last]) == Join(sep, parts) + sep + last
  {
    if |parts| == 1 {
      assert (parts + [last])[1..] == [last];
    } else {
      JoinSnoc(sep, parts[1..], last);
      assert (parts + [last])[1..] == parts[1..] + [last];
    }
  }

  // ------------------------------------------------------------------
  // Concatenation of a list of lists
  // ------------------------------------------------------------------

  lemma {:induction false} ConcatAppend<T>(a: seq<seq<T>>, b: seq<seq<T>>)
    ensures Concat(a + b) == Concat(a) + Concat(b)
  {
    if a == [] {
      assert a + b == b;
    } else {
      assert (a + b)[1..] == a[1..] + b;
      ConcatAppend(a[1..], b);
    }
  }

  lemma ConcatSnoc<T>(a: seq<seq<T>>, x: seq<T>)
    ensures Concat(a + [x]) == Concat(a) + x
  {
    ConcatAppend(a, [x]);
    assert Concat([x]) == x + Concat([]);
  }
}
