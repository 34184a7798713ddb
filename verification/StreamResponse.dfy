/**
 Delivery of a chat stream to the client and its history entry
 (src/handlers/websocket/helpers.py).
 */
module StreamResponse {
  import opened Text

  /** A send succeeds, meets a gone client, or raises (an error or a cancellation). */
  datatype Sending = Sent | Gone | Raised

  datatype Frame = Token(text: string) | Final(text: string) | Done | EmptyOutputError

  datatype Attempt = Attempt(frame: Frame, outcome: Sending)

  /** What the chunk stream does next: a chunk, or an error or cancellation. */
  datatype Item = Chunk(text: string) | Raises

  datatype Exit = Returned(text: string) | Propagated

  // ------------------------------------------------------------------
  // What is to be sent, and what the client has seen
  // ------------------------------------------------------------------

  /** The chunks before the stream raises. */
  function Chunks(stream: seq<Item>): seq<string> {
    if stream == [] || stream[0] == Raises then [] else [stream[0].text] + Chunks(stream[1..])
  }

  function Tokens(chunks: seq<string>): seq<Frame> {
    if chunks == [] then [] else [Token(chunks[0])] + Tokens(chunks[1..])
  }

  function Opening(initial: string, alreadySent: bool): seq<Frame> {
    if initial == "" || alreadySent then [] else [Token(initial)]
  }

  function Closing(text: string): seq<Frame> {
    if text == "" then [EmptyOutputError] else [Final(text), Done]
  }

  /** Every frame of an undisturbed response, in order. */
  function Plan(initial: string, alreadySent: bool, stream: seq<Item>): seq<Frame> {
    Opening(initial, alreadySent) + Tokens(Chunks(stream))
    + if Raises in stream then [] else Closing(initial + Concat(Chunks(stream)))
  }

  /** The text of the token frames that went through. */
  function SentText(attempts: seq<Attempt>): string {
    if attempts == [] then ""
    else
      (if attempts[0].frame.Token? && attempts[0].outcome == Sent then attempts[0].frame.text else "")
      + SentText(attempts[1..])
  }

  /** All the client has seen of this answer. */
  function Visible(initial: string, alreadySent: bool, attempts: seq<Attempt>): string {
    (if alreadySent then initial else "") + SentText(attempts)
  }

  /** The history entries a response leaves: what the client has seen, if anything. */
  function Committed(initial: string, alreadySent: bool, attempts: seq<Attempt>): seq<string> {
    var visible := Visible(initial, alreadySent, attempts);
    if visible != "" then [visible] else []
  }

  /** attempts works through plan in order and stops at the first send that does not go through. */
  predicate Follows(attempts: seq<Attempt>, plan: seq<Frame>) {
    && |attempts| <= |plan|
    && (forall i :: 0 <= i < |attempts| ==> attempts[i].frame == plan[i])
    && (forall i :: 0 <= i < |attempts| - 1 ==> attempts[i].outcome == Sent)
  }

  predicate AllSent(attempts: seq<Attempt>) {
    forall i :: 0 <= i < |attempts| ==> attempts[i].outcome == Sent
  }

  // ------------------------------------------------------------------
  // The objects
  // ------------------------------------------------------------------

  /** The outcome of the n-th send is script(n). */
  class Socket {
    const script: nat -> Sending
    var attempts: seq<Attempt>

    constructor (script: nat -> Sending)
      ensures this.script == script && attempts == []
    {
      this.script, attempts := script, [];
    }

    method Send(frame: Frame) returns (outcome: Sending)
      modifies this`attempts
      ensures attempts == old(attempts) + [Attempt(frame, outcome)]
      ensures outcome == script(|old(attempts)|)
    {
      outcome := script(|attempts|);
      attempts := attempts + [Attempt(frame, outcome)];
    }
  }

  class HistoryStore {
    var entries: seq<string>

    method Append(text: string)
      modifies this
      ensures entries == old(entries) + [text]
    {
      entries := entries + [text];
    }
  }

  class StreamState {
    var finalText: string
    var textVisible: bool
    var interrupted: bool

    constructor (finalText: string, textVisible: bool)
      ensures this.finalText == finalText && this.textVisible == textVisible && !interrupted
    {
      this.finalText, this.textVisible, interrupted := finalText, textVisible, false;
    }
  }

  // ------------------------------------------------------------------
  // The three stages
  // ------------------------------------------------------------------

  lemma {:induction false} SentTextSnoc(attempts: seq<Attempt>, a: Attempt)
    ensures SentText(attempts + [a]) ==
      SentText(attempts) + if a.frame.Token? && a.outcome == Sent then a.frame.text else ""
  {
    if attempts == [] {
      assert (attempts + [a])[1..] == [];
    } else {
      assert (attempts + [a])[1..] == attempts[1..] + [a];
      SentTextSnoc(attempts[1..], a);
    }
  }

  lemma {:induction false} ChunksSnoc(stream: seq<Item>, i: nat)
    requires i < |stream| && Raises !in stream[..i]
    ensures Chunks(stream[..i + 1]) == Chunks(stream[..i]) + if stream[i] == Raises then [] else [stream[i].text]
  {
    if i == 0 {
    } else {
      assert stream[..i][0] == stream[0];
      assert stream[..i + 1][1..] == stream[1..][..i] && stream[..i][1..] == stream[1..][..i - 1];
      ChunksSnoc(stream[1..], i - 1);
    }
  }

  lemma {:induction false} TokensSnoc(chunks: seq<string>, c: string)
    ensures Tokens(chunks + [c]) == Tokens(chunks) + [Token(c)]
  {
    if chunks == [] {
      assert (chunks + [c])[1..] == [];
    } else {
      assert (chunks + [c])[1..] == chunks[1..] + [c];
      TokensSnoc(chunks[1..], c);
    }
  }

  /** Chunks before position i, when none of them raises, are the first i chunks. */
  lemma {:induction false} TokensPrefix(stream: seq<Item>, i: nat)
    requires i <= |stream| && Raises !in stream[..i]
    ensures |Tokens(Chunks(stream))| == |Chunks(stream)|
    ensures |Chunks(stream[..i])| == i <= |Chunks(stream)|
    ensures i < |stream| && stream[i] == Raises ==> |Chunks(stream)| == i
    ensures i < |stream| && stream[i] != Raises ==>
      i < |Chunks(stream)| && Tokens(Chunks(stream))[i] == Token(stream[i].text)
    ensures i == |stream| ==> |Chunks(stream)| == i
  {
    if i > 0 {
      assert stream[..i][0] == stream[0];
      assert stream[..i][1..] == stream[1..][..i - 1];
      TokensPrefix(stream[1..], i - 1);
    } else if stream != [] {
      TokensPrefix(stream[1..], 0);
    }
  }

  lemma FollowsSnoc(attempts: seq<Attempt>, a: Attempt, plan: seq<Frame>)
    requires Follows(attempts, plan) && AllSent(attempts)
    requires |attempts| < |plan| && a.frame == plan[|attempts|]
    ensures Follows(attempts + [a], plan)
    ensures AllSent(attempts + [a]) <==> a.outcome == Sent
  {
    assert (attempts + [a])[|attempts|] == a;
  }

  lemma FollowsLonger(attempts: seq<Attempt>, plan: seq<Frame>, more: seq<Frame>)
    requires Follows(attempts, plan)
    ensures Follows(attempts, plan + more)
  {
  }

  /** finalText is committed exactly when the client has seen something, and is then what it has seen. */
  ghost predicate InStep(textVisible: bool, finalText: string, visible: string) {
    && (textVisible && finalText != "" <==> visible != "")
    && (visible != "" ==> finalText == visible)
  }

  method SendInitialText(ws: Socket, initial: string, alreadySent: bool, state: StreamState) returns (raised: bool)
    requires !state.interrupted && ws.attempts == [] && state.finalText == initial
    requires state.textVisible == (initial != "" && alreadySent)
    modifies ws`attempts, state
    ensures Follows(ws.attempts, Opening(initial, alreadySent)) && |ws.attempts| == |Opening(initial, alreadySent)|
    ensures AllSent(ws.attempts) <==> !raised && !state.interrupted
    ensures raised ==> ws.attempts != [] && ws.attempts[|ws.attempts| - 1].outcome == Raised && !state.interrupted
    ensures state.interrupted ==> ws.attempts != [] && ws.attempts[|ws.attempts| - 1].outcome == Gone
    ensures InStep(state.textVisible, state.finalText, Visible(initial, alreadySent, ws.attempts))
    ensures state.finalText == initial
    ensures !raised && !state.interrupted ==> Visible(initial, alreadySent, ws.attempts) == initial
  {
    raised := false;
    if initial == "" || alreadySent {
      return;
    }
    var outcome := ws.Send(Token(initial));
    SentTextSnoc([], Attempt(Token(initial), outcome));
    assert ws.attempts[0] == Attempt(Token(initial), outcome);
    match outcome {
      case Sent => state.textVisible := true;
      case Gone => state.interrupted := true;
      case Raised => raised := true;
    }
  }

  /** One more token sent and accumulated. */
  lemma InStepSent(textVisible: bool, finalText: string, visible: string, chunk: string)
    requires InStep(textVisible, finalText, visible) && finalText == visible
    ensures InStep(true, finalText + chunk, visible + chunk)
  {
  }

  lemma VisibleSnoc(initial: string, alreadySent: bool, attempts: seq<Attempt>, a: Attempt)
    ensures var visible := Visible(initial, alreadySent, attempts);
      Visible(initial, alreadySent, attempts + [a]) ==
        if a.frame.Token? && a.outcome == Sent then visible + a.frame.text else visible
  {
    SentTextSnoc(attempts, a);
    assert SentText(attempts) + "" == SentText(attempts);
  }

  lemma NextFrame(start: seq<Frame>, tokens: seq<Frame>, i: nat)
    requires i < |tokens|
    ensures (start + tokens)[|start| + i] == tokens[i]
  {
  }

  lemma Regroup(a: string, b: string, c: string)
    ensures a + (b + c) == a + b + c && a + (b + c + "") == a + b + c
  {
  }

  /** The first i chunks have been sent after start, and accumulated. */
  ghost predicate Forwarding(
      attempts: seq<Attempt>, start: seq<Frame>, stream: seq<Item>, i: nat, initial: string, alreadySent: bool,
      finalText: string, textVisible: bool)
  {
    && i <= |stream| && Raises !in stream[..i]
    && AllSent(attempts) && Follows(attempts, start + Tokens(Chunks(stream))) && |attempts| == |start| + i
    && InStep(textVisible, finalText, Visible(initial, alreadySent, attempts))
    && finalText == Visible(initial, alreadySent, attempts) == initial + Concat(Chunks(stream[..i]))
  }

  lemma ForwardingStarts(
      attempts: seq<Attempt>, start: seq<Frame>, stream: seq<Item>, initial: string, alreadySent: bool,
      textVisible: bool)
    requires InStep(textVisible, initial, Visible(initial, alreadySent, attempts))
    requires AllSent(attempts) && Follows(attempts, start) && |attempts| == |start|
    requires initial == Visible(initial, alreadySent, attempts)
    ensures Forwarding(attempts, start, stream, 0, initial, alreadySent, initial, textVisible)
  {
    hide Follows, AllSent, Chunks, Tokens, Concat, Visible, InStep;
    FollowsLonger(attempts, start, Tokens(Chunks(stream)));
    NoChunks();
    assert stream[..0] == [] && initial + "" == initial;
  }

  lemma ForwardingSent(
      attempts: seq<Attempt>, start: seq<Frame>, stream: seq<Item>, i: nat, initial: string, alreadySent: bool,
      finalText: string, textVisible: bool, chunk: string)
    requires Forwarding(attempts, start, stream, i, initial, alreadySent, finalText, textVisible)
    requires i < |stream| && stream[i] == Chunk(chunk)
    ensures Forwarding(attempts + [Attempt(Token(chunk), Sent)], start, stream, i + 1, initial, alreadySent,
      finalText + chunk, true)
  {
    hide Follows, AllSent, Chunks, Tokens, Concat, Visible, InStep;
    var a := Attempt(Token(chunk), Sent);
    TokensPrefix(stream, i);
    NextFrame(start, Tokens(Chunks(stream)), i);
    VisibleSnoc(initial, alreadySent, attempts, a);
    FollowsSnoc(attempts, a, start + Tokens(Chunks(stream)));
    InStepSent(textVisible, finalText, Visible(initial, alreadySent, attempts), chunk);
    ChunksSnoc(stream, i);
    ConcatSnoc(Chunks(stream[..i]), chunk);
    Regroup(initial, Concat(Chunks(stream[..i])), chunk);
    assert stream[..i + 1] == stream[..i] + [stream[i]];
  }

  lemma ForwardingStops(
      attempts: seq<Attempt>, start: seq<Frame>, stream: seq<Item>, i: nat, initial: string, alreadySent: bool,
      finalText: string, textVisible: bool, a: Attempt)
    requires Forwarding(attempts, start, stream, i, initial, alreadySent, finalText, textVisible)
    requires i < |stream| && stream[i].Chunk? && a.frame == Token(stream[i].text) && a.outcome != Sent
    ensures Follows(attempts + [a], start + Tokens(Chunks(stream)))
    ensures finalText == Visible(initial, alreadySent, attempts + [a])
    ensures InStep(textVisible, finalText, Visible(initial, alreadySent, attempts + [a]))
  {
    hide Follows, AllSent, Chunks, Tokens, Concat, Visible, InStep;
    TokensPrefix(stream, i);
    NextFrame(start, Tokens(Chunks(stream)), i);
    VisibleSnoc(initial, alreadySent, attempts, a);
    FollowsSnoc(attempts, a, start + Tokens(Chunks(stream)));
  }

  /** At the end of the stream, or where it raises. */
  lemma ForwardingEnds(
      attempts: seq<Attempt>, start: seq<Frame>, stream: seq<Item>, i: nat, initial: string, alreadySent: bool,
      finalText: string, textVisible: bool)
    requires Forwarding(attempts, start, stream, i, initial, alreadySent, finalText, textVisible)
    requires i == |stream| || stream[i] == Raises
    ensures AllSent(attempts) && |attempts| == |start| + |Tokens(Chunks(stream))|
    ensures Follows(attempts, start + Tokens(Chunks(stream)))
    ensures finalText == Visible(initial, alreadySent, attempts)
    ensures InStep(textVisible, finalText, Visible(initial, alreadySent, attempts))
    ensures Raises in stream <==> i < |stream|
    ensures i == |stream| ==> finalText == initial + Concat(Chunks(stream))
  {
    hide Follows, AllSent, Chunks, Tokens, Concat, Visible, InStep;
    TokensPrefix(stream, i);
    if i == |stream| {
      assert stream[..i] == stream;
    }
  }

  /** The loop over the stream; start is the plan up to here, all of it sent. */
  method ForwardStreamChunks(
      ws: Socket, stream: seq<Item>, state: StreamState, initial: string, alreadySent: bool, ghost start: seq<Frame>)
    returns (raised: bool)
    requires !state.interrupted
    requires InStep(state.textVisible, state.finalText, Visible(initial, alreadySent, ws.attempts))
    requires AllSent(ws.attempts) && Follows(ws.attempts, start) && |ws.attempts| == |start|
    requires state.finalText == initial == Visible(initial, alreadySent, ws.attempts)
    modifies ws`attempts, state
    ensures Follows(ws.attempts, start + Tokens(Chunks(stream))) && |ws.attempts| >= |start|
    ensures state.finalText == Visible(initial, alreadySent, ws.attempts)
    ensures InStep(state.textVisible, state.finalText, Visible(initial, alreadySent, ws.attempts))
    ensures state.interrupted ==> !raised && |ws.attempts| > |start| && ws.attempts[|ws.attempts| - 1].outcome == Gone
    ensures !state.interrupted && !raised ==>
      && AllSent(ws.attempts) && |ws.attempts| == |start| + |Tokens(Chunks(stream))| && Raises !in stream
      && state.finalText == Visible(initial, alreadySent, ws.attempts) == initial + Concat(Chunks(stream))
    ensures raised ==>
      || (AllSent(ws.attempts) && |ws.attempts| == |start| + |Tokens(Chunks(stream))| && Raises in stream)
      || (|ws.attempts| > |start| && ws.attempts[|ws.attempts| - 1].outcome == Raised)
  {
    hide *;
    raised := false;
    var i := 0;
    ForwardingStarts(ws.attempts, start, stream, initial, alreadySent, state.textVisible);
    while i < |stream|
      invariant 0 <= i <= |stream| && !raised && !state.interrupted && |ws.attempts| == |start| + i
      invariant Forwarding(ws.attempts, start, stream, i, initial, alreadySent, state.finalText, state.textVisible)
    {
      if stream[i] == Raises {
        ForwardingEnds(ws.attempts, start, stream, i, initial, alreadySent, state.finalText, state.textVisible);
        raised := true;
        return;
      }
      var chunk := stream[i].text;
      ghost var before := ws.attempts;
      var outcome := ws.Send(Token(chunk));
      if outcome != Sent {
        ForwardingStops(before, start, stream, i, initial, alreadySent, state.finalText, state.textVisible,
          Attempt(Token(chunk), outcome));
      }
      if outcome == Raised {
        raised := true;
        return;
      }
      if outcome == Gone {
        state.interrupted := true;
        return;
      }
      ForwardingSent(before, start, stream, i, initial, alreadySent, state.finalText, state.textVisible, chunk);
      state.finalText := state.finalText + chunk;
      state.textVisible := true;
      i := i + 1;
    }
    ForwardingEnds(ws.attempts, start, stream, i, initial, alreadySent, state.finalText, state.textVisible);
  }

  lemma NoChunks()
    ensures Chunks([]) == [] && Concat<char>([]) == ""
  {
  }

  method SendCompletionFrames(ws: Socket, state: StreamState) returns (raised: bool)
    requires !state.interrupted && state.finalText != "" && AllSent(ws.attempts)
    modifies ws`attempts, state`interrupted
    ensures exists sent :: ws.attempts == old(ws.attempts) + sent && Completes(sent, Closing(state.finalText), raised)
    ensures SentText(ws.attempts) == SentText(old(ws.attempts))
  {
    raised := false;
    ghost var before := ws.attempts;
    var outcome := ws.Send(Final(state.finalText));
    ghost var first := Attempt(Final(state.finalText), outcome);
    SentTextSnoc(before, first);
    if outcome != Sent {
      raised := outcome == Raised;
      state.interrupted := outcome == Gone;
      assert ws.attempts == before + [first] && Completes([first], Closing(state.finalText), raised);
      return;
    }
    outcome := ws.Send(Done);
    ghost var second := Attempt(Done, outcome);
    SentTextSnoc(before + [first], second);
    raised := outcome == Raised;
    state.interrupted := outcome == Gone;
    assert ws.attempts == before + [first, second] && Completes([first, second], Closing(state.finalText), raised);
  }

  /** sent is a non-empty run through plan that ends at its end or at a send that did not go through. */
  predicate Completes(sent: seq<Attempt>, plan: seq<Frame>, raised: bool) {
    && sent != [] && Follows(sent, plan)
    && (|sent| == |plan| || sent[|sent| - 1].outcome != Sent)
    && (raised <==> sent[|sent| - 1].outcome == Raised)
  }

  // ------------------------------------------------------------------
  // The whole response
  // ------------------------------------------------------------------

  /** One entry at most: committed says whether it has been made. */
  method CommitHistoryOnce(state: StreamState, history: HistoryStore, committed: bool) returns (now: bool)
    modifies history
    ensures history.entries == old(history.entries) +
      if !committed && state.textVisible && state.finalText != "" then [state.finalText] else []
    ensures now == (committed || (state.textVisible && state.finalText != ""))
  {
    if committed || !(state.textVisible && state.finalText != "") {
      return committed;
    }
    history.Append(state.finalText);
    return true;
  }

  /** The body of the try block. */
  method SendAll(ws: Socket, stream: seq<Item>, initial: string, alreadySent: bool, state: StreamState)
    returns (raised: bool)
    requires !state.interrupted && ws.attempts == [] && state.finalText == initial
    requires state.textVisible == (initial != "" && alreadySent)
    modifies ws`attempts, state
    ensures Follows(ws.attempts, Plan(initial, alreadySent, stream))
    ensures |ws.attempts| < |Plan(initial, alreadySent, stream)| ==> !AllSent(ws.attempts)
    ensures InStep(state.textVisible, state.finalText, Visible(initial, alreadySent, ws.attempts))
    ensures state.finalText == Visible(initial, alreadySent, ws.attempts) || state.finalText == initial
    ensures raised <==>
      || (ws.attempts != [] && ws.attempts[|ws.attempts| - 1].outcome == Raised)
      || (AllSent(ws.attempts) && Raises in stream)
  {
    hide *;
    raised := SendInitialText(ws, initial, alreadySent, state);
    if raised || state.interrupted {
      StoppedInOpening(ws.attempts, initial, alreadySent, stream);
      return;
    }
    ghost var opening := Opening(initial, alreadySent);
    raised := ForwardStreamChunks(ws, stream, state, initial, alreadySent, opening);
    if raised || state.interrupted {
      StoppedInTokens(ws.attempts, initial, alreadySent, stream);
      return;
    }
    ghost var before := ws.attempts;
    raised := SendClosing(ws, state, opening + Tokens(Chunks(stream)));
    SameVisible(initial, alreadySent, before, ws.attempts);
    AllParts(initial, alreadySent, stream);
  }

  lemma StoppedInOpening(
      attempts: seq<Attempt>, initial: string, alreadySent: bool, stream: seq<Item>)
    requires Follows(attempts, Opening(initial, alreadySent))
    requires attempts != [] && attempts[|attempts| - 1].outcome != Sent
    ensures Follows(attempts, Plan(initial, alreadySent, stream)) && !AllSent(attempts)
  {
    hide Opening, Tokens, Chunks, Closing;
  }

  lemma StoppedInTokens(
      attempts: seq<Attempt>, initial: string, alreadySent: bool, stream: seq<Item>)
    requires Follows(attempts, Opening(initial, alreadySent) + Tokens(Chunks(stream)))
    ensures Follows(attempts, Plan(initial, alreadySent, stream))
    ensures Raises in stream ==>
      |Plan(initial, alreadySent, stream)| == |Opening(initial, alreadySent)| + |Tokens(Chunks(stream))|
    ensures attempts != [] && attempts[|attempts| - 1].outcome != Sent ==> !AllSent(attempts)
  {
    hide Opening, Tokens, Chunks, Closing;
  }

  lemma AllParts(initial: string, alreadySent: bool, stream: seq<Item>)
    requires Raises !in stream
    ensures Plan(initial, alreadySent, stream) ==
      Opening(initial, alreadySent) + Tokens(Chunks(stream)) + Closing(initial + Concat(Chunks(stream)))
  {
  }

  lemma SameVisible(initial: string, alreadySent: bool, a: seq<Attempt>, b: seq<Attempt>)
    requires SentText(a) == SentText(b)
    ensures Visible(initial, alreadySent, a) == Visible(initial, alreadySent, b)
  {
  }

  /** What follows the last chunk: the error for an empty answer, or the final and done frames. */
  method SendClosing(ws: Socket, state: StreamState, ghost shown: seq<Frame>) returns (raised: bool)
    requires !state.interrupted && AllSent(ws.attempts) && Follows(ws.attempts, shown) && |ws.attempts| == |shown|
    modifies ws`attempts, state`interrupted
    ensures Follows(ws.attempts, shown + Closing(state.finalText)) && |ws.attempts| > |shown|
    ensures |ws.attempts| < |shown + Closing(state.finalText)| ==> !AllSent(ws.attempts)
    ensures raised <==> ws.attempts[|ws.attempts| - 1].outcome == Raised
    ensures SentText(ws.attempts) == SentText(old(ws.attempts))
  {
    hide Follows, AllSent, SentText;
    ghost var before := ws.attempts;
    if state.finalText == "" {
      var outcome := ws.Send(EmptyOutputError);
      SentTextSnoc(before, Attempt(EmptyOutputError, outcome));
      FollowsLonger(before, shown, Closing(state.finalText));
      FollowsSnoc(before, Attempt(EmptyOutputError, outcome), shown + Closing(state.finalText));
      return outcome == Raised;
    }
    raised := SendCompletionFrames(ws, state);
    ghost var sent :| ws.attempts == before + sent && Completes(sent, Closing(state.finalText), raised);
    CompletesLength(before, sent, Closing(state.finalText), raised);
    hide Completes;
    FollowsAppend(before, shown, sent, Closing(state.finalText));
  }

  lemma CompletesLength(a: seq<Attempt>, b: seq<Attempt>, plan: seq<Frame>, raised: bool)
    requires Completes(b, plan, raised)
    ensures Follows(b, plan) && b != [] && (raised <==> (a + b)[|a + b| - 1].outcome == Raised)
    ensures |b| < |plan| ==> b[|b| - 1].outcome != Sent
  {
  }

  lemma FollowsAppend(a: seq<Attempt>, plan: seq<Frame>, b: seq<Attempt>, more: seq<Frame>)
    requires Follows(a, plan) && AllSent(a) && |a| == |plan| && Follows(b, more) && b != []
    ensures Follows(a + b, plan + more)
    ensures AllSent(a + b) <==> b[|b| - 1].outcome == Sent
  {
    assert (a + b)[|a + b| - 1] == b[|b| - 1];
  }

  /** stream_chat_response, on a fresh list of attempts. */
  method StreamChatResponse(
      ws: Socket, stream: seq<Item>, initial: string, alreadySent: bool, history: HistoryStore)
    returns (exit: Exit)
    requires ws.attempts == []
    modifies ws`attempts, history
    // frames follow the plan, and none follows a send that did not go through
    ensures Follows(ws.attempts, Plan(initial, alreadySent, stream))
    ensures |ws.attempts| < |Plan(initial, alreadySent, stream)| ==> !AllSent(ws.attempts)
    // on every exit the history gets one entry, what the client has seen, or none if that is nothing
    ensures history.entries == old(history.entries) + Committed(initial, alreadySent, ws.attempts)
    // it returns the text the client has seen; when that is nothing, the initial text or nothing
    ensures exit.Returned? ==>
      var visible := Visible(initial, alreadySent, ws.attempts);
      if visible != "" then exit.text == visible else exit.text == initial || exit.text == ""
    // the exit is an exception exactly when a send or, after all its chunks, the stream raised
    ensures exit == Propagated <==>
      || (ws.attempts != [] && ws.attempts[|ws.attempts| - 1].outcome == Raised)
      || (AllSent(ws.attempts) && Raises in stream)
  {
    hide Follows, AllSent, Plan, Visible;
    var state := new StreamState(initial, initial != "" && alreadySent);
    var committed := false;
    var raised := SendAll(ws, stream, initial, alreadySent, state);
    if raised {
      committed := CommitHistoryOnce(state, history, committed);
      return Propagated;
    }
    committed := CommitHistoryOnce(state, history, committed);
    return Returned(state.finalText);
  }

  // ------------------------------------------------------------------
  // What the plan means for the client
  // ------------------------------------------------------------------

  function FrameText(frames: seq<Frame>): string {
    if frames == [] then ""
    else (if frames[0].Token? then frames[0].text else "") + FrameText(frames[1..])
  }

  lemma {:induction false} FrameTextAppend(a: seq<Frame>, b: seq<Frame>)
    ensures FrameText(a + b) == FrameText(a) + FrameText(b)
  {
    if a == [] {
      assert a + b == b;
    } else {
      assert (a + b)[1..] == a[1..] + b;
      FrameTextAppend(a[1..], b);
    }
  }

  lemma {:induction false} SentTextOfFrames(attempts: seq<Attempt>, frames: seq<Frame>)
    requires |attempts| == |frames| && forall i :: 0 <= i < |frames| ==> attempts[i].frame == frames[i]
    requires forall i :: 0 <= i < |frames| && frames[i].Token? ==> attempts[i].outcome == Sent
    ensures SentText(attempts) == FrameText(frames)
  {
    if attempts == [] {
    } else {
      SentTextOfFrames(attempts[1..], frames[1..]);
    }
  }

  lemma {:induction false} TokensText(chunks: seq<string>)
    ensures |Tokens(chunks)| == |chunks| && FrameText(Tokens(chunks)) == Concat(chunks)
    ensures forall i :: 0 <= i < |chunks| ==> Tokens(chunks)[i].Token?
  {
    if chunks == [] {
    } else {
      TokensText(chunks[1..]);
    }
  }

  lemma {:induction false} NoTokenText(frames: seq<Frame>)
    requires forall i :: 0 <= i < |frames| ==> !frames[i].Token?
    ensures FrameText(frames) == ""
  {
    if frames == [] {
    } else {
      NoTokenText(frames[1..]);
    }
  }

  lemma OpeningText(initial: string, alreadySent: bool)
    ensures (if alreadySent then initial else "") + FrameText(Opening(initial, alreadySent)) == initial
    ensures forall f :: f in Opening(initial, alreadySent) ==> f.Token?
  {
    assert FrameText([Token(initial)]) == initial + FrameText([]);
  }

  /** A final frame comes after all token frames, and nothing but done after it. */
  lemma FinalFramePosition(initial: string, alreadySent: bool, stream: seq<Item>, i: nat)
    requires i < |Plan(initial, alreadySent, stream)| && Plan(initial, alreadySent, stream)[i].Final?
    ensures Raises !in stream
    ensures Plan(initial, alreadySent, stream) == Opening(initial, alreadySent) + Tokens(Chunks(stream))
      + [Final(initial + Concat(Chunks(stream))), Done]
    ensures i == |Opening(initial, alreadySent) + Tokens(Chunks(stream))|
  {
    var shown, plan := Opening(initial, alreadySent) + Tokens(Chunks(stream)), Plan(initial, alreadySent, stream);
    TokensText(Chunks(stream));
    OpeningText(initial, alreadySent);
    hide Chunks, Tokens, Concat, FrameText, Opening;
    assert forall j :: 0 <= j < |shown| ==> shown[j].Token? && plan[j] == shown[j];
  }

  /** Frames sent up to a point, the rest of which carries no tokens. */
  lemma SentAre(attempts: seq<Attempt>, plan: seq<Frame>, shown: seq<Frame>, rest: seq<Frame>)
    requires Follows(attempts, plan) && plan[..|attempts|] == shown + rest && rest != []
    requires forall j :: 0 <= j < |rest| ==> !rest[j].Token?
    ensures SentText(attempts) == FrameText(shown)
  {
    NoTokenText(rest);
    FrameTextAppend(shown, rest);
    hide SentText, FrameText;
    var frames := plan[..|attempts|];
    assert forall j :: 0 <= j < |rest| ==> frames[|shown| + j] == rest[j];
    assert forall j :: 0 <= j < |shown| ==> attempts[j].outcome == Sent;
    assert forall j :: |shown| <= j < |frames| ==> !frames[j].Token? by {
      forall j | |shown| <= j < |frames|
        ensures !frames[j].Token?
      {
        assert frames[j] == rest[j - |shown|];
      }
    }
    SentTextOfFrames(attempts, frames);
    assert FrameText(shown) + "" == FrameText(shown);
  }

  /** A final frame carries exactly what the client has seen, and a response
      that gets that far has shown the initial text and every chunk. */
  lemma FinalFrameIsVisibleText(
      initial: string, alreadySent: bool, stream: seq<Item>, attempts: seq<Attempt>, i: nat)
    requires Follows(attempts, Plan(initial, alreadySent, stream)) && i < |attempts| && attempts[i].frame.Final?
    ensures attempts[i].frame.text == Visible(initial, alreadySent, attempts) == initial + Concat(Chunks(stream))
    ensures Raises !in stream
  {
    hide *;
    var opening, tokens := Opening(initial, alreadySent), Tokens(Chunks(stream));
    var plan := Plan(initial, alreadySent, stream);
    AttemptIs(attempts, plan, i);
    FinalFramePosition(initial, alreadySent, stream, i);
    var rest := [Final(initial + Concat(Chunks(stream))), Done][..|attempts| - i];
    assert plan[..|attempts|] == opening + tokens + rest;
    SentAre(attempts, plan, opening + tokens, rest);
    TokensText(Chunks(stream));
    OpeningText(initial, alreadySent);
    FrameTextAppend(opening, tokens);
    VisibleIs(initial, alreadySent, attempts);
    Regroup(if alreadySent then initial else "", FrameText(opening), Concat(Chunks(stream)));
    assert FrameText(opening) + Concat(Chunks(stream)) + "" == FrameText(opening) + Concat(Chunks(stream));
  }

  lemma AttemptIs(attempts: seq<Attempt>, plan: seq<Frame>, i: nat)
    requires Follows(attempts, plan) && i < |attempts|
    ensures |attempts| <= |plan| && attempts[i].frame == plan[i]
  {
  }

  lemma VisibleIs(initial: string, alreadySent: bool, attempts: seq<Attempt>)
    ensures Visible(initial, alreadySent, attempts) == (if alreadySent then initial else "") + SentText(attempts)
  {
  }

  lemma {:induction false} SentIsPrefix(attempts: seq<Attempt>, plan: seq<Frame>)
    requires Follows(attempts, plan)
    ensures SentText(attempts) <= FrameText(plan)
  {
    if attempts == [] || attempts[0].outcome != Sent {
    } else {
      SentIsPrefix(attempts[1..], plan[1..]);
    }
  }

  lemma ClosingText(text: string)
    ensures FrameText(Closing(text)) == ""
  {
    NoTokenText(Closing(text));
  }

  /** The token frames of the whole plan, after what has been sent already. */
  lemma PlanText(initial: string, alreadySent: bool, stream: seq<Item>)
    ensures (if alreadySent then initial else "") + FrameText(Plan(initial, alreadySent, stream))
      == initial + Concat(Chunks(stream))
  {
    var opening, tokens := Opening(initial, alreadySent), Tokens(Chunks(stream));
    var all := initial + Concat(Chunks(stream));
    var closing := if Raises in stream then [] else Closing(all);
    assert FrameText([]) == "";
    TokensText(Chunks(stream));
    OpeningText(initial, alreadySent);
    hide Chunks, Tokens, Concat, FrameText, Opening, Closing;
    FrameTextAppend(opening, tokens);
    FrameTextAppend(opening + tokens, closing);
    ClosingText(all);
    var head := if alreadySent then initial else "";
    assert FrameText(Plan(initial, alreadySent, stream)) == FrameText(opening) + Concat(Chunks(stream)) + "";
    Regroup(head, FrameText(opening), Concat(Chunks(stream)));
  }

  lemma PrefixAfter(head: string, a: string, b: string)
    requires a <= b
    ensures head + a <= head + b
  {
  }

  /** A response that goes through to its end: an answer ends with its text and
      done; an empty one with the error. */
  lemma LastFrames(initial: string, alreadySent: bool, stream: seq<Item>, attempts: seq<Attempt>)
    requires Follows(attempts, Plan(initial, alreadySent, stream))
    requires |attempts| == |Plan(initial, alreadySent, stream)| && Raises !in stream
    ensures var text, n := initial + Concat(Chunks(stream)), |attempts|;
      && (text == "" ==> n > 0 && attempts[n - 1].frame == EmptyOutputError)
      && (text != "" ==> n > 1 && attempts[n - 2].frame == Final(text) && attempts[n - 1].frame == Done)
  {
    hide Opening, Tokens, Chunks, Concat;
  }

  /** On every exit the client has seen a prefix of the initial text and the chunks. */
  lemma VisibleIsPrefix(initial: string, alreadySent: bool, stream: seq<Item>, attempts: seq<Attempt>)
    requires Follows(attempts, Plan(initial, alreadySent, stream))
    ensures Visible(initial, alreadySent, attempts) <= initial + Concat(Chunks(stream))
  {
    hide Follows, Plan, SentText, FrameText, Concat, Chunks;
    var plan := Plan(initial, alreadySent, stream);
    SentIsPrefix(attempts, plan);
    PlanText(initial, alreadySent, stream);
    PrefixAfter(if alreadySent then initial else "", SentText(attempts), FrameText(plan));
  }
}
