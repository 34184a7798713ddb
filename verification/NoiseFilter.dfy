/**
 The line filters wrapped around stdout and stderr (src/scripts/filters/trt.py,
 src/scripts/filters/vllm.py): two classes with the same buffering and different
 patterns. A pattern is its search, as a predicate on the stripped line.
 */
module NoiseFilter {
  import opened Text

  type Patterns = seq<string -> bool>

  predicate IsNoise(patterns: Patterns, text: string) {
    Strip(text) != "" && exists i :: 0 <= i < |patterns| && patterns[i](Strip(text))
  }

  // ------------------------------------------------------------------
  // The whole-text form
  // ------------------------------------------------------------------

  /** Position of the first newline, or the length when there is none. */
  function LineLen(text: string): (n: nat)
    ensures n <= |text| && '\n' !in text[..n] && (n < |text| ==> text[n] == '\n')
  {
    if text == "" || text[0] == '\n' then 0
    else
      var n := LineLen(text[1..]);
      assert text[..n + 1] == [text[0]] + text[1..][..n];
      n + 1
  }

  /** One line with its newline, unless it is noise. */
  function KeptLine(patterns: Patterns, line: string): string {
    if IsNoise(patterns, line) then "" else line + "\n"
  }

  function KeptRest(patterns: Patterns, rest: string): string {
    if IsNoise(patterns, rest) then "" else rest
  }

  /** The kept complete lines. */
  function FilterLines(patterns: Patterns, text: string): string
    decreases |text|
  {
    var n := LineLen(text);
    if n == |text| then "" else KeptLine(patterns, text[..n]) + FilterLines(patterns, text[n + 1..])
  }

  /** What follows the last newline. */
  function Rest(text: string): string
    decreases |text|
  {
    var n := LineLen(text);
    if n == |text| then text else Rest(text[n + 1..])
  }

  /** The text without its noise lines; the last line may have no newline. */
  function FilterText(patterns: Patterns, text: string): string {
    FilterLines(patterns, text) + KeptRest(patterns, Rest(text))
  }

  // ------------------------------------------------------------------
  // The stream
  // ------------------------------------------------------------------

  lemma NewlineEndsLine(text: string)
    requires '\n' in text
    ensures LineLen(text) < |text|
  {
    assert text[..|text|] == text;
  }

  lemma LineStep(patterns: Patterns, text: string)
    requires '\n' in text
    ensures var n := LineLen(text);
      && n < |text|
      && FilterLines(patterns, text) == KeptLine(patterns, text[..n]) + FilterLines(patterns, text[n + 1..])
      && Rest(text) == Rest(text[n + 1..])
  {
    hide LineLen, KeptLine;
    NewlineEndsLine(text);
  }

  /** What a stream is told to do. */
  datatype Op = Chars(text: string) | FlushPoint

  /** The text of some operations, cut at the flush points: done has the text
      before each of them, open the text after the last. */
  datatype Cut = Cut(done: seq<string>, open: string)

  function CutOf(ops: seq<Op>): Cut {
    if ops == [] then Cut([], "")
    else
      var front := CutOf(ops[..|ops| - 1]);
      match ops[|ops| - 1]
      case Chars(text) => front.(open := front.open + text)
      case FlushPoint => Cut(front.done + [front.open], "")
  }

  lemma CutOfSnoc(ops: seq<Op>, op: Op)
    ensures CutOf(ops + [op]) ==
      match op
      case Chars(text) => CutOf(ops).(open := CutOf(ops).open + text)
      case FlushPoint => Cut(CutOf(ops).done + [CutOf(ops).open], "")
  {
    assert (ops + [op])[..|ops|] == ops;
  }

  /** All text passed on so far, and the line that is not complete yet. */
  datatype Filter = Filter(out: Cut, buffer: string)

  const FRESH := Filter(Cut([], ""), "")

  function Wrote(patterns: Patterns, f: Filter, text: string): Filter {
    if text == "" then f
    else Filter(f.out.(open := f.out.open + FilterLines(patterns, f.buffer + text)), Rest(f.buffer + text))
  }

  function Flushed(patterns: Patterns, f: Filter): Filter {
    Filter(Cut(f.out.done + [f.out.open + KeptRest(patterns, f.buffer)], ""), "")
  }

  class NoiseFilterStream {
    const patterns: Patterns
    /** What has been done to the wrapped stream, in order. */
    var passed: seq<Op>
    var buffer: string

    ghost function View(): Filter
      reads this
    {
      Filter(CutOf(passed), buffer)
    }

    constructor (patterns: Patterns)
      ensures this.patterns == patterns && passed == [] && View() == FRESH
    {
      this.patterns, passed, buffer := patterns, [], "";
    }

    method Emit(text: string, newline: bool)
      modifies this`passed
      ensures CutOf(passed).done == CutOf(old(passed)).done
      ensures CutOf(passed).open == CutOf(old(passed)).open +
        if newline then KeptLine(patterns, text) else KeptRest(patterns, text)
      ensures
        var found := Strip(text) != "" && exists i :: 0 <= i < |patterns| && patterns[i](Strip(text));
        CutOf(passed).open == CutOf(old(passed)).open +
          if found then "" else if newline then text + "\n" else text
    {
      ghost var before := passed;
      if text == "" && newline {
        passed := passed + [Chars("\n")];
        CutOfSnoc(before, Chars("\n"));
        return;
      }
      if IsNoise(patterns, text) {
        return;
      }
      CutOfSnoc(before, Chars(if newline then text + "\n" else text));
      if newline {
        passed := passed + [Chars(text + "\n")];
      } else {
        passed := passed + [Chars(text)];
      }
    }

    method Write(text: string) returns (length: nat)
      modifies this`passed, this`buffer
      ensures length == |text| && View() == Wrote(patterns, old(View()), text)
    {
      length := |text|;
      if text == "" {
        return 0;
      }
      buffer := buffer + text;
      ghost var all, before := buffer, CutOf(passed);
      hide FilterLines, Rest, KeptLine, CutOf, LineLen;
      while '\n' in buffer
        invariant CutOf(passed).done == before.done
        invariant CutOf(passed).open + FilterLines(patterns, buffer) == before.open + FilterLines(patterns, all)
        invariant Rest(buffer) == Rest(all)
        decreases |buffer|
      {
        LineStep(patterns, buffer);
        var n := LineLen(buffer);
        var line := buffer[..n];
        Assoc(CutOf(passed).open, KeptLine(patterns, line), FilterLines(patterns, buffer[n + 1..]));
        buffer := buffer[n + 1..];
        Emit(line, true);
      }
      NoNewlineNoLines(patterns, buffer);
    }

    method Flush()
      modifies this`passed, this`buffer
      ensures View() == Flushed(patterns, old(View()))
    {
      if buffer != "" {
        Emit(buffer, false);
        buffer := "";
      } else {
        assert KeptRest(patterns, buffer) == "" && CutOf(passed).open + "" == CutOf(passed).open;
      }
      CutOfSnoc(passed, FlushPoint);
      passed := passed + [FlushPoint];
    }
  }

  // ------------------------------------------------------------------
  // Any split into writes
  // ------------------------------------------------------------------

  lemma {:induction false} LineLenIs(text: string, n: nat)
    requires n <= |text| && '\n' !in text[..n] && (n < |text| ==> text[n] == '\n')
    ensures LineLen(text) == n
  {
    if n == 0 {
    } else {
      assert text[0] == text[..n][0] && text[1..][..n - 1] == text[..n][1..];
      LineLenIs(text[1..], n - 1);
    }
  }

  /** One complete line in front. */
  lemma FirstLine(patterns: Patterns, line: string, rest: string)
    requires '\n' !in line
    ensures FilterLines(patterns, line + "\n" + rest) == KeptLine(patterns, line) + FilterLines(patterns, rest)
    ensures Rest(line + "\n" + rest) == Rest(rest)
  {
    var text := line + "\n" + rest;
    assert text[..|line|] == line && text[|line|] == '\n' && text[|line| + 1..] == rest;
    LineLenIs(text, |line|);
  }

  lemma CutLine(text: string) returns (line: string, rest: string)
    requires '\n' in text
    ensures text == line + "\n" + rest && '\n' !in line && |rest| < |text|
  {
    var n := LineLen(text);
    assert text[..|text|] == text;
    line, rest := text[..n], text[n + 1..];
  }

  lemma Assoc(a: string, b: string, c: string)
    ensures a + b + c == a + (b + c)
  {
  }

  /** Filtering may stop anywhere and go on with the incomplete line. */
  lemma {:induction false} FilterInTwo(patterns: Patterns, a: string, b: string)
    ensures FilterLines(patterns, a + b) == FilterLines(patterns, a) + FilterLines(patterns, Rest(a) + b)
    ensures Rest(a + b) == Rest(Rest(a) + b)
    decreases |a|
  {
    hide *;
    if '\n' in a {
      var line, rest := CutLine(a);
      Assoc(line + "\n", rest, b);
      FirstLine(patterns, line, rest);
      FirstLine(patterns, line, rest + b);
      FilterInTwo(patterns, rest, b);
      Assoc(KeptLine(patterns, line), FilterLines(patterns, rest), FilterLines(patterns, Rest(rest) + b));
    } else {
      NoNewlineNoLines(patterns, a);
    }
  }

  lemma NoNewlineNoLines(patterns: Patterns, text: string)
    requires '\n' !in text
    ensures FilterLines(patterns, text) == "" && Rest(text) == text
  {
    LineLenIs(text, |text|);
  }

  function AfterOps(patterns: Patterns, ops: seq<Op>): Filter {
    if ops == [] then FRESH
    else
      var f := AfterOps(patterns, ops[..|ops| - 1]);
      match ops[|ops| - 1]
      case Chars(text) => Wrote(patterns, f, text)
      case FlushPoint => Flushed(patterns, f)
  }

  function FilterTexts(patterns: Patterns, texts: seq<string>): seq<string> {
    if texts == [] then []
    else FilterTexts(patterns, texts[..|texts| - 1]) + [FilterText(patterns, texts[|texts| - 1])]
  }

  /** Each piece between flush points filtered on its own; of the open piece, its complete lines. */
  function FilterCut(patterns: Patterns, cut: Cut): Cut {
    Cut(FilterTexts(patterns, cut.done), FilterLines(patterns, cut.open))
  }

  lemma FilterTextsSnoc(patterns: Patterns, texts: seq<string>, text: string)
    ensures FilterTexts(patterns, texts + [text]) == FilterTexts(patterns, texts) + [FilterText(patterns, text)]
  {
    assert (texts + [text])[..|texts|] == texts;
  }

  /** For any writes and flushes, in any order: what has gone out is the text
      between flush points, filtered line by line, and only the incomplete last
      line is held back. */
  lemma {:induction false} OpsFilterPieces(patterns: Patterns, ops: seq<Op>)
    ensures AfterOps(patterns, ops) == Filter(FilterCut(patterns, CutOf(ops)), Rest(CutOf(ops).open))
  {
    hide FilterLines, Rest, FilterTexts, LineLen, KeptRest;
    if ops == [] {
      NothingFiltered(patterns);
    } else {
      var front := ops[..|ops| - 1];
      var cut := CutOf(front);
      OpsFilterPieces(patterns, front);
      match ops[|ops| - 1] {
        case Chars(text) =>
          FilterInTwo(patterns, cut.open, text);
          if text == "" {
            assert cut.open + text == cut.open;
          }
        case FlushPoint =>
          FilterTextsSnoc(patterns, cut.done, cut.open);
          NothingFiltered(patterns);
      }
    }
  }

  lemma NothingFiltered(patterns: Patterns)
    ensures FilterLines(patterns, "") == "" && Rest("") == "" && FilterTexts(patterns, []) == []
  {
  }

  function Writes(texts: seq<string>): seq<Op> {
    if texts == [] then [] else Writes(texts[..|texts| - 1]) + [Chars(texts[|texts| - 1])]
  }

  lemma {:induction false} CutOfWrites(texts: seq<string>)
    ensures CutOf(Writes(texts)) == Cut([], Concat(texts))
  {
    if texts == [] {
    } else {
      var front, last := texts[..|texts| - 1], texts[|texts| - 1];
      CutOfWrites(front);
      CutOfSnoc(Writes(front), Chars(last));
      assert texts == front + [last];
      ConcatSnoc(front, last);
    }
  }

  /** For any split into writes ended by one flush, the output is the filtered text. */
  lemma WritesThenFlush(patterns: Patterns, texts: seq<string>)
    ensures AfterOps(patterns, Writes(texts) + [FlushPoint]) ==
      Filter(Cut([FilterText(patterns, Concat(texts))], ""), "")
  {
    CutOfWrites(texts);
    OpsFilterPieces(patterns, Writes(texts) + [FlushPoint]);
    CutOfSnoc(Writes(texts), FlushPoint);
    FilterTextsSnoc(patterns, [], Concat(texts));
    NothingFiltered(patterns);
  }

  // ------------------------------------------------------------------
  // Two filters, one on top of the other
  // ------------------------------------------------------------------

  lemma NoiseOfBoth(p: Patterns, q: Patterns, text: string)
    ensures IsNoise(p + q, text) <==> IsNoise(p, text) || IsNoise(q, text)
  {
    var s := Strip(text);
    forall i | 0 <= i < |p| && p[i](s)
      ensures (p + q)[i](s)
    {
    }
    forall i | 0 <= i < |q| && q[i](s)
      ensures (p + q)[|p| + i](s)
    {
    }
  }

  lemma FilterNoNewline(patterns: Patterns, text: string)
    requires '\n' !in text
    ensures FilterText(patterns, text) == KeptRest(patterns, text)
  {
    NoNewlineNoLines(patterns, text);
  }

  lemma FilterFirstLine(patterns: Patterns, line: string, rest: string)
    requires '\n' !in line
    ensures FilterText(patterns, line + "\n" + rest) == KeptLine(patterns, line) + FilterText(patterns, rest)
  {
    FirstLine(patterns, line, rest);
  }

  /** No pattern can drop a blank line. */
  lemma BlankLinesStay(patterns: Patterns, line: string, rest: string)
    requires '\n' !in line && Strip(line) == ""
    ensures FilterText(patterns, line + "\n" + rest) == line + "\n" + FilterText(patterns, rest)
  {
    FilterFirstLine(patterns, line, rest);
  }

  /** A line goes out unless it is not blank and some pattern finds something in it, stripped. */
  lemma LineGoesOutUnlessFound(patterns: Patterns, line: string, rest: string)
    requires '\n' !in line
    ensures var found := Strip(line) != "" && exists i :: 0 <= i < |patterns| && patterns[i](Strip(line));
      && (found ==> FilterText(patterns, line + "\n" + rest) == FilterText(patterns, rest))
      && (!found ==> FilterText(patterns, line + "\n" + rest) == line + "\n" + FilterText(patterns, rest))
  {
    FilterFirstLine(patterns, line, rest);
    hide FilterText, Strip;
  }

  /** The same for the incomplete last line, at a flush. */
  lemma LastLineGoesOutUnlessFound(patterns: Patterns, line: string, f: Filter)
    requires '\n' !in line && f.buffer == line
    ensures var found := Strip(line) != "" && exists i :: 0 <= i < |patterns| && patterns[i](Strip(line));
      && FilterText(patterns, line) == (if found then "" else line)
      && Flushed(patterns, f) == Filter(Cut(f.out.done + [f.out.open + if found then "" else line], ""), "")
  {
    FilterNoNewline(patterns, line);
    hide FilterText, Strip;
  }

  lemma {:induction false} FilterTwice(p: Patterns, q: Patterns, text: string)
    ensures FilterText(q, FilterText(p, text)) == FilterText(p + q, text)
    decreases |text|
  {
    hide FilterText, IsNoise;
    var n := LineLen(text);
    NoiseOfBoth(p, q, text[..n]);
    if n == |text| {
      assert text[..n] == text;
      FilterNoNewline(p, text);
      FilterNoNewline(p + q, text);
      FilterNoNewline(q, KeptRest(p, text));
      KeptTwice(p, q, text);
    } else {
      var line, rest := text[..n], text[n + 1..];
      assert text == line + "\n" + rest;
      FilterFirstLine(p, line, rest);
      FilterFirstLine(p + q, line, rest);
      FilterTwice(p, q, rest);
      if IsNoise(p, line) {
        assert "" + FilterText(p, rest) == FilterText(p, rest);
        assert "" + FilterText(p + q, rest) == FilterText(p + q, rest);
      } else {
        FilterFirstLine(q, line, FilterText(p, rest));
      }
    }
  }

  lemma KeptTwice(p: Patterns, q: Patterns, text: string)
    requires IsNoise(p + q, text) <==> IsNoise(p, text) || IsNoise(q, text)
    ensures KeptRest(q, KeptRest(p, text)) == KeptRest(p + q, text)
  {
  }

  lemma {:induction false} LinesTwice(p: Patterns, q: Patterns, text: string)
    ensures FilterLines(q, FilterLines(p, text)) == FilterLines(p + q, text)
    decreases |text|
  {
    hide *;
    if '\n' in text {
      var line, rest := CutLine(text);
      NoiseOfBoth(p, q, line);
      FirstLine(p, line, rest);
      FirstLine(p + q, line, rest);
      LinesTwice(p, q, rest);
      KeptLineIs(p, line);
      KeptLineIs(q, line);
      KeptLineIs(p + q, line);
      if IsNoise(p, line) {
        assert "" + FilterLines(p, rest) == FilterLines(p, rest);
        assert "" + FilterLines(p + q, rest) == FilterLines(p + q, rest);
      } else {
        FirstLine(q, line, FilterLines(p, rest));
      }
    } else {
      NoNewlineNoLines(p, text);
      NoNewlineNoLines(p + q, text);
      NoNewlineNoLines(q, "");
    }
  }

  lemma KeptLineIs(patterns: Patterns, line: string)
    ensures KeptLine(patterns, line) == if IsNoise(patterns, line) then "" else line + "\n"
  {
  }

  lemma {:induction false} TextsTwice(p: Patterns, q: Patterns, texts: seq<string>)
    ensures FilterTexts(q, FilterTexts(p, texts)) == FilterTexts(p + q, texts)
  {
    if texts == [] {
    } else {
      var front, last := texts[..|texts| - 1], texts[|texts| - 1];
      TextsTwice(p, q, front);
      FilterTwice(p, q, last);
      hide FilterText;
      FilterTextsSnoc(q, FilterTexts(p, front), FilterText(p, last));
    }
  }

  /** Pattern sets that find the same noise filter alike. */
  lemma {:induction false} SameLines(p: Patterns, q: Patterns, text: string)
    requires forall line :: IsNoise(p, line) == IsNoise(q, line)
    ensures FilterLines(p, text) == FilterLines(q, text)
    decreases |text|
  {
    hide *;
    if '\n' !in text {
      NoNewlineNoLines(p, text);
      NoNewlineNoLines(q, text);
    } else {
      var line, rest := CutLine(text);
      FirstLine(p, line, rest);
      FirstLine(q, line, rest);
      KeptLineIs(p, line);
      KeptLineIs(q, line);
      SameLines(p, q, rest);
    }
  }

  lemma SameText(p: Patterns, q: Patterns, text: string)
    requires forall line :: IsNoise(p, line) == IsNoise(q, line)
    ensures FilterText(p, text) == FilterText(q, text)
  {
    SameLines(p, q, text);
    hide IsNoise, FilterLines, Rest;
  }

  lemma {:induction false} SameTexts(p: Patterns, q: Patterns, texts: seq<string>)
    requires forall line :: IsNoise(p, line) == IsNoise(q, line)
    ensures FilterTexts(p, texts) == FilterTexts(q, texts)
  {
    hide IsNoise, FilterText;
    if texts == [] {
    } else {
      SameTexts(p, q, texts[..|texts| - 1]);
      SameText(p, q, texts[|texts| - 1]);
    }
  }

  lemma OrderDoesNotMatter(p: Patterns, q: Patterns)
    ensures forall line :: IsNoise(p + q, line) == IsNoise(q + p, line)
  {
    forall line
      ensures IsNoise(p + q, line) == IsNoise(q + p, line)
    {
      NoiseOfBoth(p, q, line);
      NoiseOfBoth(q, p, line);
    }
  }

  /** Two stacked filters, in either order, are one filter with both pattern
      sets, at every moment of any series of writes and flushes of the upper one.
      passed is what the upper stream has done to the lower one, in whatever
      pieces; its flushes are among it. */
  lemma StackedFilters(p: Patterns, q: Patterns, ops: seq<Op>, passed: seq<Op>)
    requires CutOf(passed) == AfterOps(p, ops).out
    ensures AfterOps(q, passed).out == AfterOps(p + q, ops).out
    ensures AfterOps(q, passed).out == AfterOps(q + p, ops).out
  {
    hide *;
    OpsFilterPieces(p, ops);
    OpsFilterPieces(q, passed);
    OpsFilterPieces(p + q, ops);
    OpsFilterPieces(q + p, ops);
    CutTwice(p, q, CutOf(ops));
  }

  lemma CutTwice(p: Patterns, q: Patterns, cut: Cut)
    ensures FilterCut(q, FilterCut(p, cut)) == FilterCut(p + q, cut) == FilterCut(q + p, cut)
  {
    hide FilterLines, FilterTexts, IsNoise;
    TextsTwice(p, q, cut.done);
    LinesTwice(p, q, cut.open);
    OrderDoesNotMatter(p, q);
    SameTexts(p + q, q + p, cut.done);
    SameLines(p + q, q + p, cut.open);
  }
}
