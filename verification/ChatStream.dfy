/**
 The chat stream controller (src/execution/chat/controller.py): engine outputs to
 yielded chunks, with micro-buffering.
 */
module ChatStream {
  import opened Options
  import opened Text

  /** One engine output as the controller meets it. text is None when the output
      carries no string; cancelled is what the cancel check answers before the
      output is used; now is the clock when it is emitted. */
  datatype Output = Output(text: Option<string>, cancelled: bool, now: real)

  /** How the engine's stream ends if no cancel check stops it first. */
  datatype End = Complete | Failure

  datatype Outcome = Completed | Cancelled | Failed

  datatype Controller = Controller(fullText: string, buffer: seq<string>, lastFlushAt: real)

  /** The new part of the engine text; all of it when it does not extend the old one. */
  function ExtractedDelta(fullText: string, text: Option<string>): string {
    if text.None? then ""
    else if fullText <= text.value then text.value[|fullText|..]
    else text.value
  }

  /** One output: the next state and the chunks to yield, none or one. */
  function Handled(c: Controller, flushMs: real, out: Output): (Controller, seq<string>) {
    var delta := ExtractedDelta(c.fullText, out.text);
    if delta == "" then (c, [])
    else if flushMs <= 0.0 then (c.(fullText := out.text.value), [delta])
    else
      var buffer := c.buffer + [delta];
      if (out.now - c.lastFlushAt) * 1000.0 >= flushMs
      then (Controller(out.text.value, [], out.now), [Concat(buffer)])
      else (Controller(out.text.value, buffer, c.lastFlushAt), [])
  }

  function FlushTail(c: Controller, flushMs: real): seq<string> {
    if flushMs <= 0.0 || c.buffer == [] || Concat(c.buffer) == "" then [] else [Concat(c.buffer)]
  }

  /** Everything yielded from state c on, the final state, and the outcome. */
  function Iterated(c: Controller, flushMs: real, outs: seq<Output>, end: End): (seq<string>, Controller, Outcome)
    decreases |outs|
  {
    if outs == [] then
      (FlushTail(c, flushMs), c.(buffer := if flushMs <= 0.0 then c.buffer else []),
       if end == Complete then Completed else Failed)
    else if outs[0].cancelled then ([], c, Cancelled)
    else
      var (d, chunks) := Handled(c, flushMs, outs[0]);
      var (rest, last, outcome) := Iterated(d, flushMs, outs[1..], end);
      (chunks + rest, last, outcome)
  }

  class ChatStreamController {
    const flushMs: real
    var fullText: string
    var buffer: seq<string>
    var lastFlushAt: real
    var cancelled: bool

    ghost function View(): Controller
      reads this
    {
      Controller(fullText, buffer, lastFlushAt)
    }

    constructor (flushMs: real, now: real)
      ensures this.flushMs == flushMs && View() == Controller("", [], now) && !cancelled
    {
      this.flushMs := flushMs;
      fullText, buffer, lastFlushAt, cancelled := "", [], now, false;
    }

    method ExtractDelta(text: Option<string>) returns (delta: string)
      modifies this`fullText
      ensures delta == ExtractedDelta(old(fullText), text)
      ensures fullText == if delta == "" then old(fullText) else text.value
    {
      if text.None? {
        return "";
      }
      delta := if !(fullText <= text.value) then text.value else text.value[|fullText|..];
      if delta == "" {
        return "";
      }
      fullText := text.value;
    }

    method Emit(delta: string, now: real) returns (chunks: seq<string>)
      modifies this`buffer, this`lastFlushAt
      ensures flushMs <= 0.0 ==> chunks == [delta] && View() == old(View())
      ensures flushMs > 0.0 ==>
        if (now - old(lastFlushAt)) * 1000.0 >= flushMs
        then chunks == [Concat(old(buffer) + [delta])] && buffer == [] && lastFlushAt == now
        else chunks == [] && buffer == old(buffer) + [delta] && lastFlushAt == old(lastFlushAt)
    {
      if flushMs <= 0.0 {
        return [delta];
      }
      buffer := buffer + [delta];
      var shouldFlush := (now - lastFlushAt) * 1000.0 >= flushMs;
      if !shouldFlush {
        return [];
      }
      var chunk := Concat(buffer);
      buffer := [];
      lastFlushAt := now;
      return [chunk];
    }

    method TakeTail() returns (chunk: string)
      modifies this`buffer
      ensures (if chunk == "" then [] else [chunk]) == FlushTail(old(View()), flushMs)
      ensures buffer == if flushMs <= 0.0 then old(buffer) else []
    {
      if flushMs <= 0.0 || buffer == [] {
        return "";
      }
      chunk := Concat(buffer);
      buffer := [];
    }

    /** One round of _iter_emitted_chunks. */
    method EmitOutput(out: Output) returns (chunks: seq<string>)
      modifies this`fullText, this`buffer, this`lastFlushAt
      ensures View() == Handled(old(View()), flushMs, out).0
      ensures chunks == Handled(old(View()), flushMs, out).1
    {
      var delta := ExtractDelta(out.text);
      if delta == "" {
        return [];
      }
      chunks := Emit(delta, out.now);
    }

    /** iter_text: the loop, and the tail in its finally clause. */
    method IterText(outs: seq<Output>, end: End) returns (yielded: seq<string>, outcome: Outcome)
      requires !cancelled
      modifies this
      ensures var all := Iterated(old(View()), flushMs, outs, end);
        yielded == all.0 && View() == all.1 && outcome == all.2
      ensures cancelled == (outcome == Cancelled)
    {
      hide Handled, FlushTail;
      yielded := [];
      ghost var start := View();
      outcome := if end == Complete then Completed else Failed;
      var i := 0;
      assert outs[0..] == outs;
      while i < |outs|
        invariant 0 <= i <= |outs| && !cancelled
        invariant outcome == if end == Complete then Completed else Failed
        invariant var all, rest := Iterated(start, flushMs, outs, end), Iterated(View(), flushMs, outs[i..], end);
          all.0 == yielded + rest.0 && all.1 == rest.1 && all.2 == rest.2
      {
        assert outs[i..][0] == outs[i] && outs[i..][1..] == outs[i + 1..];
        if outs[i].cancelled {
          cancelled := true;
          outcome := Cancelled;
          break;
        }
        var chunks := EmitOutput(outs[i]);
        yielded := yielded + chunks;
        i := i + 1;
      }
      if !cancelled {
        var tail := TakeTail();
        if tail != "" {
          yielded := yielded + [tail];
        }
      }
    }
  }

  // ------------------------------------------------------------------
  // Conservation
  // ------------------------------------------------------------------

  /** Each engine text extends the one before it, starting from text. */
  predicate Cumulative(text: string, outs: seq<Output>)
    decreases |outs|
  {
    outs == [] ||
    if outs[0].text.None? then Cumulative(text, outs[1..])
    else text <= outs[0].text.value && Cumulative(outs[0].text.value, outs[1..])
  }

  /** The last engine text that is used: those from the first cancelled output on are not. */
  function LastText(text: string, outs: seq<Output>): string
    decreases |outs|
  {
    if outs == [] || outs[0].cancelled then text
    else LastText(if outs[0].text.None? then text else outs[0].text.value, outs[1..])
  }

  /** The delta of a text that continues the last one is the continuation; a text
      that does not is taken whole; without a text there is none. */
  lemma DeltaIs(fullText: string, text: string, more: string)
    ensures text == fullText + more ==> ExtractedDelta(fullText, Some(text)) == more
    ensures (|text| < |fullText| || text[..|fullText|] != fullText) ==> ExtractedDelta(fullText, Some(text)) == text
    ensures ExtractedDelta(fullText, None) == ""
  {
  }

  /** What has been yielded and what is still buffered is all the text so far.
      With a flush interval of zero the buffer is never used. */
  lemma HandledConserves(c: Controller, flushMs: real, out: Output)
    requires flushMs <= 0.0 ==> c.buffer == []
    ensures var (d, chunks) := Handled(c, flushMs, out);
      && Concat(chunks) + Concat(d.buffer) == Concat(c.buffer) + ExtractedDelta(c.fullText, out.text)
      && (flushMs <= 0.0 ==> d.buffer == [])
      && d.fullText == (if ExtractedDelta(c.fullText, out.text) == "" then c.fullText else out.text.value)
  {
    var delta := ExtractedDelta(c.fullText, out.text);
    ConcatSnoc(c.buffer, delta);
    assert Concat([delta]) == delta + Concat([]);
    var all := Concat(c.buffer + [delta]);
    assert Concat([all]) == all + Concat([]);
  }

  /** A chunk leaves the buffer only when the flush interval has passed since the
      last one, and nothing is kept back once it has. */
  lemma HandledKeepsInterval(c: Controller, flushMs: real, out: Output)
    requires flushMs > 0.0 && ExtractedDelta(c.fullText, out.text) != ""
    ensures var (d, chunks) := Handled(c, flushMs, out);
      && (chunks != [] <==> (out.now - c.lastFlushAt) * 1000.0 >= flushMs)
      && (chunks != [] <==> d.buffer == [])
      && d.lastFlushAt == if chunks != [] then out.now else c.lastFlushAt
  {
  }

  /** The deltas of all outputs that are used. */
  function AllDeltas(text: string, outs: seq<Output>): string
    decreases |outs|
  {
    if outs == [] || outs[0].cancelled then ""
    else
      var delta := ExtractedDelta(text, outs[0].text);
      delta + AllDeltas(if delta == "" then text else outs[0].text.value, outs[1..])
  }

  lemma {:induction false} OutcomeIsCancelledIff(c: Controller, flushMs: real, outs: seq<Output>, end: End)
    ensures Iterated(c, flushMs, outs, end).2 == Cancelled <==> exists i :: 0 <= i < |outs| && outs[i].cancelled
    ensures Iterated(c, flushMs, outs, end).2 == Completed ==> end == Complete
    ensures Iterated(c, flushMs, outs, end).2 == Failed ==> end == Failure
    decreases |outs|
  {
    if outs == [] || outs[0].cancelled {
    } else {
      OutcomeIsCancelledIff(Handled(c, flushMs, outs[0]).0, flushMs, outs[1..], end);
      assert forall i :: 0 < i < |outs| ==> outs[i] == outs[1..][i - 1];
      assert forall i :: 0 <= i < |outs[1..]| ==> outs[1..][i] == outs[i + 1];
    }
  }

  lemma {:induction false} BufferIsEmptied(c: Controller, flushMs: real, outs: seq<Output>, end: End)
    requires flushMs <= 0.0 ==> c.buffer == []
    ensures var (_, last, outcome) := Iterated(c, flushMs, outs, end);
      outcome != Cancelled || flushMs <= 0.0 ==> last.buffer == []
    decreases |outs|
  {
    if outs == [] || outs[0].cancelled {
    } else {
      BufferIsEmptied(Handled(c, flushMs, outs[0]).0, flushMs, outs[1..], end);
    }
  }

  lemma Chain(
      held: string, delta: string, sent: string, kept: string, later: string, sentLater: string, left: string)
    requires sent + kept == held + delta && sentLater + left == kept + later
    ensures sent + sentLater + left == held + (delta + later)
  {
    assert sent + sentLater + left == sent + (sentLater + left);
    assert sent + (kept + later) == (sent + kept) + later;
    assert held + delta + later == held + (delta + later);
  }

  /** For every flush interval and every timing: the yielded chunks, and the
      buffer that only a cancellation leaves behind, spell the deltas of all used
      outputs, in order. */
  lemma {:induction false} NothingIsLost(c: Controller, flushMs: real, outs: seq<Output>, end: End)
    requires flushMs <= 0.0 ==> c.buffer == []
    ensures var (yielded, last, _) := Iterated(c, flushMs, outs, end);
      Concat(yielded) + Concat(last.buffer) == Concat(c.buffer) + AllDeltas(c.fullText, outs)
    decreases |outs|
  {
    if outs == [] {
      assert Concat([Concat(c.buffer)]) == Concat(c.buffer) + Concat([]);
    } else if !outs[0].cancelled {
      var (d, chunks) := Handled(c, flushMs, outs[0]);
      var delta := ExtractedDelta(c.fullText, outs[0].text);
      HandledConserves(c, flushMs, outs[0]);
      hide Handled, ExtractedDelta, Concat, FlushTail;
      NothingIsLost(d, flushMs, outs[1..], end);
      var (rest, last, _) := Iterated(d, flushMs, outs[1..], end);
      ConcatAppend(chunks, rest);
      assert AllDeltas(c.fullText, outs) == delta + AllDeltas(d.fullText, outs[1..]);
      hide *;
      Chain(Concat(c.buffer), delta, Concat(chunks), Concat(d.buffer),
        AllDeltas(d.fullText, outs[1..]), Concat(rest), Concat(last.buffer));
    }
  }

  lemma Regroup(a: string, b: string, c: string)
    ensures a + (b + c) == (a + b) + c
  {
  }

  /** With cumulative engine texts the deltas spell the last text. */
  lemma {:induction false} CumulativeDeltas(text: string, outs: seq<Output>)
    requires Cumulative(text, outs)
    ensures text + AllDeltas(text, outs) == LastText(text, outs)
    decreases |outs|
  {
    if outs == [] || outs[0].cancelled {
    } else {
      var delta := ExtractedDelta(text, outs[0].text);
      var next := if outs[0].text.None? then text else outs[0].text.value;
      assert text + delta == next && (delta == "" ==> next == text);
      CumulativeDeltas(next, outs[1..]);
      var later := AllDeltas(next, outs[1..]);
      assert AllDeltas(text, outs) == delta + later && LastText(text, outs) == LastText(next, outs[1..]);
      Regroup(text, delta, later);
    }
  }

  /** Unless the stream is cancelled, the chunks of a cumulative engine stream
      spell exactly the last engine text; a cancelled one has lost its buffer,
      and nothing when chunks are not buffered. */
  lemma ChunksSpellEngineText(flushMs: real, now: real, outs: seq<Output>, end: End)
    requires Cumulative("", outs)
    ensures var (yielded, last, outcome) := Iterated(Controller("", [], now), flushMs, outs, end);
      && Concat(yielded) + Concat(last.buffer) == LastText("", outs)
      && (outcome != Cancelled || flushMs <= 0.0 ==> Concat(yielded) == LastText("", outs))
  {
    NothingIsLost(Controller("", [], now), flushMs, outs, end);
    BufferIsEmptied(Controller("", [], now), flushMs, outs, end);
    CumulativeDeltas("", outs);
  }
}
