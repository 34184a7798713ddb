/**
 Engine output to client, end to end: the controller, the optional sanitizer
 (src/execution/chat/runner.py) and the delivery put together.
 */
module StreamPipeline {
  import opened Options
  import opened Text
  import Engine = ChatStream
  import Cleaner = StreamSanitizer
  import opened StreamResponse

  function NonEmpty(texts: seq<string>): seq<string> {
    if texts == [] then []
    else (if texts[0] == "" then [] else [texts[0]]) + NonEmpty(texts[1..])
  }

  function Items(chunks: seq<string>): seq<Item> {
    if chunks == [] then [] else [Chunk(chunks[0])] + Items(chunks[1..])
  }

  /** The controller run on a whole engine stream: the chunks it yields and how it ends. */
  function Yielded(flushMs: real, now: real, outs: seq<Engine.Output>, end: Engine.End): seq<string> {
    Engine.Iterated(Engine.Controller("", [], now), flushMs, outs, end).0
  }

  function Outcome(flushMs: real, now: real, outs: seq<Engine.Output>, end: Engine.End): Engine.Outcome {
    Engine.Iterated(Engine.Controller("", [], now), flushMs, outs, end).2
  }

  /** The chunks as they are, or through the sanitizer, which yields its non-empty
      deltas and, unless the stream raised, its tail. */
  function Delivered(rules: Option<Cleaner.Rules>, chunks: seq<string>, raised: bool): seq<string> {
    match rules
    case None => chunks
    case Some(r) => NonEmpty(if raised then Cleaner.Deltas(r, chunks) else Cleaner.AllDeltas(r, chunks))
  }

  lemma {:induction false} NonEmptyAppend(a: seq<string>, b: seq<string>)
    ensures NonEmpty(a + b) == NonEmpty(a) + NonEmpty(b)
  {
    if a == [] {
      assert a + b == b;
    } else {
      assert (a + b)[1..] == a[1..] + b;
      NonEmptyAppend(a[1..], b);
    }
  }

  lemma NonEmptySnoc(texts: seq<string>, text: string)
    ensures NonEmpty([]) == []
    ensures NonEmpty(texts + [text]) == NonEmpty(texts) + if text == "" then [] else [text]
  {
    NonEmptyAppend(texts, [text]);
    assert NonEmpty([text][1..]) == [];
  }

  lemma NothingYet(rules: Cleaner.Rules)
    ensures Cleaner.AfterPushes(rules, []) == Cleaner.START && Cleaner.Deltas(rules, []) == [] && NonEmpty([]) == []
  {
  }

  lemma DeliveredIs(rules: Cleaner.Rules, chunks: seq<string>)
    ensures Delivered(Some(rules), chunks, true) == NonEmpty(Cleaner.Deltas(rules, chunks))
    ensures Delivered(Some(rules), chunks, false) ==
      NonEmpty(Cleaner.Deltas(rules, chunks) + [Cleaner.Flushed(rules, Cleaner.AfterPushes(rules, chunks)).1])
  {
  }

  /** The loop between controller and delivery; raised: the stream raises after its chunks. */
  method StreamWithOptionalSanitizer(rules: Option<Cleaner.Rules>, chunks: seq<string>, raised: bool)
    returns (yielded: seq<string>)
    ensures yielded == Delivered(rules, chunks, raised)
  {
    hide *;
    var sanitizer: Cleaner.StreamingSanitizer? := null;
    if rules.Some? {
      sanitizer := new Cleaner.StreamingSanitizer(rules.value);
      NothingYet(rules.value);
    }
    yielded := [];
    for i := 0 to |chunks|
      invariant sanitizer == null <==> rules.None?
      invariant sanitizer == null ==> yielded == chunks[..i]
      invariant sanitizer != null ==>
        && fresh(sanitizer) && sanitizer.Valid() && sanitizer.rules == rules.value
        && sanitizer.View() == Cleaner.AfterPushes(rules.value, chunks[..i])
        && yielded == NonEmpty(Cleaner.Deltas(rules.value, chunks[..i]))
    {
      assert chunks[..i + 1] == chunks[..i] + [chunks[i]];
      if sanitizer == null {
        yielded := yielded + [chunks[i]];
        continue;
      }
      Cleaner.AfterMore(rules.value, chunks[..i], chunks[i]);
      var clean := sanitizer.Push(chunks[i]);
      NonEmptySnoc(Cleaner.Deltas(rules.value, chunks[..i]), clean);
      if clean != "" {
        yielded := yielded + [clean];
      }
    }
    assert chunks[..|chunks|] == chunks;
    if rules.None? {
      Unsanitized(chunks, raised);
    } else {
      DeliveredIs(rules.value, chunks);
    }
    if raised {
      return;
    }
    if sanitizer != null {
      var tail := sanitizer.Flush();
      NonEmptySnoc(Cleaner.Deltas(rules.value, chunks), tail);
      if tail != "" {
        yielded := yielded + [tail];
      }
    }
  }

  /** What the delivery gets to see. A cancelled stream ends like a complete one. */
  function Stream(
      rules: Option<Cleaner.Rules>, flushMs: real, now: real, outs: seq<Engine.Output>, end: Engine.End): seq<Item>
  {
    var raised := Outcome(flushMs, now, outs, end) == Engine.Failed;
    Items(Delivered(rules, Yielded(flushMs, now, outs, end), raised)) + if raised then [Raises] else []
  }

  lemma {:induction false} NonEmptySpells(texts: seq<string>)
    ensures Concat(NonEmpty(texts)) == Concat(texts)
  {
    if texts == [] {
    } else {
      NonEmptySpells(texts[1..]);
      ConcatAppend(if texts[0] == "" then [] else [texts[0]], NonEmpty(texts[1..]));
      assert Concat([texts[0]]) == texts[0] + Concat([]);
    }
  }

  lemma {:induction false} ChunksOfItems(chunks: seq<string>, raised: bool)
    ensures var stream := Items(chunks) + if raised then [Raises] else [];
      Chunks(stream) == chunks && (Raises in stream <==> raised)
  {
    var tail := if raised then [Raises] else [];
    if chunks == [] {
      assert Items(chunks) + tail == tail;
    } else {
      ChunksOfItems(chunks[1..], raised);
      assert Items(chunks) + tail == [Chunk(chunks[0])] + (Items(chunks[1..]) + tail);
    }
  }

  /** The chunks of a cumulative engine stream spell a prefix of the text of its
      used outputs, and all of it unless a cancelled stream was still buffering. */
  lemma YieldedSpellsEngineText(flushMs: real, now: real, outs: seq<Engine.Output>, end: Engine.End)
    requires Engine.Cumulative("", outs)
    ensures Concat(Yielded(flushMs, now, outs, end)) <= Engine.LastText("", outs)
    ensures Outcome(flushMs, now, outs, end) != Engine.Cancelled || flushMs <= 0.0 ==>
      Concat(Yielded(flushMs, now, outs, end)) == Engine.LastText("", outs)
    ensures Outcome(flushMs, now, outs, end) == Engine.Cancelled <==> exists k :: 0 <= k < |outs| && outs[k].cancelled
  {
    Engine.OutcomeIsCancelledIff(Engine.Controller("", [], now), flushMs, outs, end);
    Engine.ChunksSpellEngineText(flushMs, now, outs, end);
  }

  /** What the sanitizer makes of the chunks, as one text. */
  lemma SanitizedText(rules: Cleaner.Rules, chunks: seq<string>)
    ensures var full := Cleaner.FullText(Cleaner.AfterFlush(rules, chunks));
      var text, whole := Concat(Delivered(Some(rules), chunks, false)), Cleaner.Whole(rules, Concat(chunks));
      && (text == full <==> Cleaner.TotalTakenBack(rules, chunks) == 0)
      && (text == full ==> text <= whole && RStrip(text) == RStrip(whole) && (RStrip(whole) == whole ==> text == whole))
  {
    NonEmptySpells(Cleaner.AllDeltas(rules, chunks));
    Cleaner.DeltasAreFullTextIffNoRollback(rules, chunks);
    Cleaner.ChunkingInvariance(rules, chunks);
  }

  /** A sanitized stream that raises leaves the last stable part of the sanitized
      text, exactly if every stable part extends the one before; the tail is not
      flushed. */
  lemma SanitizedUntilFailure(rules: Cleaner.Rules, chunks: seq<string>)
    ensures var text := Concat(Delivered(Some(rules), chunks, true));
      text == Cleaner.LastStable(rules, chunks) <==> Cleaner.StablePartsGrow(rules, chunks)
  {
    hide *;
    DeliveredIs(rules, chunks);
    NonEmptySpells(Cleaner.Deltas(rules, chunks));
    Cleaner.PushesDrift(rules, chunks);
    Cleaner.PushesTakeBackIff(rules, chunks);
  }

  /** A response that gets to its final frame: the frame, the text the client has
      seen and the history entry are all the initial text and the delivered chunks. */
  lemma FinalTextIsDelivered(
      rules: Option<Cleaner.Rules>, flushMs: real, now: real, outs: seq<Engine.Output>, end: Engine.End,
      initial: string, alreadySent: bool, attempts: seq<Attempt>, i: nat)
    requires Follows(attempts, Plan(initial, alreadySent, Stream(rules, flushMs, now, outs, end)))
    requires i < |attempts| && attempts[i].frame.Final?
    ensures Outcome(flushMs, now, outs, end) != Engine.Failed
    ensures attempts[i].frame.text == Visible(initial, alreadySent, attempts)
    ensures Committed(initial, alreadySent, attempts) == [attempts[i].frame.text]
    ensures attempts[i].frame.text == initial + Concat(Delivered(rules, Yielded(flushMs, now, outs, end), false))
  {
    hide Follows, Plan, Items, Chunks, Concat, Delivered, Yielded, Outcome, Visible;
    var stream := Stream(rules, flushMs, now, outs, end);
    var raised := Outcome(flushMs, now, outs, end) == Engine.Failed;
    ChunksOfItems(Delivered(rules, Yielded(flushMs, now, outs, end), raised), raised);
    FinalFrameIsVisibleText(initial, alreadySent, stream, attempts, i);
    FinalIsNotEmpty(initial, alreadySent, stream, attempts, i);
  }

  lemma FinalIsNotEmpty(
      initial: string, alreadySent: bool, stream: seq<Item>, attempts: seq<Attempt>, i: nat)
    requires Follows(attempts, Plan(initial, alreadySent, stream)) && i < |attempts| && attempts[i].frame.Final?
    ensures attempts[i].frame.text != ""
  {
    var shown := Opening(initial, alreadySent) + Tokens(Chunks(stream));
    TokensText(Chunks(stream));
    OpeningText(initial, alreadySent);
    hide Opening, Tokens, Chunks, Concat;
    var plan := Plan(initial, alreadySent, stream);
    assert attempts[i].frame == plan[i];
    assert forall j :: 0 <= j < |shown| ==> shown[j] == plan[j] && shown[j].Token?;
  }

  /** Without the sanitizer: the final frame, what the client has seen and the
      history entry are the initial text and the engine's last text, whatever the
      flush interval and the clock; after a cancellation, a prefix of that. */
  lemma FinalTextIsEngineText(
      flushMs: real, now: real, outs: seq<Engine.Output>, end: Engine.End,
      initial: string, alreadySent: bool, attempts: seq<Attempt>, i: nat)
    requires Engine.Cumulative("", outs)
    requires Follows(attempts, Plan(initial, alreadySent, Stream(None, flushMs, now, outs, end)))
    requires i < |attempts| && attempts[i].frame.Final?
    ensures Committed(initial, alreadySent, attempts) == [attempts[i].frame.text]
    ensures attempts[i].frame.text == Visible(initial, alreadySent, attempts) <= initial + Engine.LastText("", outs)
    ensures Outcome(flushMs, now, outs, end) == Engine.Completed || flushMs <= 0.0 ==>
      attempts[i].frame.text == initial + Engine.LastText("", outs)
  {
    hide *;
    YieldedSpellsEngineText(flushMs, now, outs, end);
    FinalTextIsDelivered(None, flushMs, now, outs, end, initial, alreadySent, attempts, i);
    Unsanitized(Yielded(flushMs, now, outs, end), false);
  }

  lemma Unsanitized(chunks: seq<string>, raised: bool)
    ensures Delivered(None, chunks, raised) == chunks
  {
  }

  /** However the engine's stream ends and whatever happens to the sends: what
      the client has seen, and with it the history entry if there is one, is a
      prefix of the initial text and the engine's last text. */
  lemma HistoryIsEnginePrefix(
      flushMs: real, now: real, outs: seq<Engine.Output>, end: Engine.End,
      initial: string, alreadySent: bool, attempts: seq<Attempt>)
    requires Engine.Cumulative("", outs)
    requires Follows(attempts, Plan(initial, alreadySent, Stream(None, flushMs, now, outs, end)))
    ensures Visible(initial, alreadySent, attempts) <= initial + Engine.LastText("", outs)
    ensures forall entry :: entry in Committed(initial, alreadySent, attempts) ==>
      entry <= initial + Engine.LastText("", outs)
  {
    hide Follows, Plan, Items, Chunks, Concat, Delivered, Yielded, Outcome, Visible;
    var raised := Outcome(flushMs, now, outs, end) == Engine.Failed;
    var chunks := Yielded(flushMs, now, outs, end);
    YieldedSpellsEngineText(flushMs, now, outs, end);
    Unsanitized(chunks, raised);
    ChunksOfItems(chunks, raised);
    VisibleIsPrefix(initial, alreadySent, Stream(None, flushMs, now, outs, end), attempts);
    assert initial + Concat(chunks) <= initial + Engine.LastText("", outs);
  }

  /** With the sanitizer: after the initial text comes the one-shot sanitized text
      of the yielded engine text up to trailing space, and exactly it when it ends
      in no space, whatever the flush interval, the clock and the chunk
      boundaries, unless emitted text was taken back on the way. */
  lemma FinalTextIsSanitizedText(
      rules: Cleaner.Rules, flushMs: real, now: real, outs: seq<Engine.Output>, end: Engine.End,
      initial: string, alreadySent: bool, attempts: seq<Attempt>, i: nat)
    returns (text: string, used: string)
    requires Engine.Cumulative("", outs)
    requires Follows(attempts, Plan(initial, alreadySent, Stream(Some(rules), flushMs, now, outs, end)))
    requires i < |attempts| && attempts[i].frame.Final?
    ensures Committed(initial, alreadySent, attempts) == [attempts[i].frame.text]
    ensures attempts[i].frame.text == Visible(initial, alreadySent, attempts) == initial + text
    ensures used <= Engine.LastText("", outs)
    ensures Outcome(flushMs, now, outs, end) == Engine.Completed || flushMs <= 0.0 ==>
      used == Engine.LastText("", outs)
    ensures var whole, chunks := Cleaner.Whole(rules, used), Yielded(flushMs, now, outs, end);
      && (Cleaner.TotalTakenBack(rules, chunks) == 0 <==>
            text == Cleaner.FullText(Cleaner.AfterFlush(rules, chunks)))
      && (Cleaner.TotalTakenBack(rules, chunks) == 0 ==>
            text <= whole && RStrip(text) == RStrip(whole) && (RStrip(whole) == whole ==> text == whole))
  {
    hide *;
    var chunks := Yielded(flushMs, now, outs, end);
    used := Concat(chunks);
    text := Concat(Delivered(Some(rules), chunks, false));
    YieldedSpellsEngineText(flushMs, now, outs, end);
    FinalTextIsDelivered(Some(rules), flushMs, now, outs, end, initial, alreadySent, attempts, i);
    SanitizedText(rules, chunks);
  }
}
