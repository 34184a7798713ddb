/**
 The streaming sanitizer (src/text/stream.py, src/text/suffix.py) over an
 arbitrary whole-text cleaner and arbitrary boundary guards.
 */
module StreamSanitizer {
  import opened Numbers
  import opened Text

  /** clean stands for the regex pipeline: text, prefix pending, capital pending,
      strip leading space. The guards stand for the lengths that the entity,
      tag, email, phone and emoticon checks ask to hold back. */
  datatype Rules = Rules(
    clean: (string, bool, bool, bool) -> (string, bool, bool),
    entityGuard: string -> nat,
    rawGuard: string -> nat)

  const MAX_TAIL: nat := 64

  function SanitizeChunk(rules: Rules, text: string, prefixPending: bool, capitalPending: bool, stripLeading: bool)
    : (string, bool, bool)
  {
    if text == "" then ("", prefixPending, capitalPending)
    else rules.clean(text, prefixPending, capitalPending, stripLeading)
  }

  /** The one-shot sanitizer of a whole text. */
  function Whole(rules: Rules, raw: string): string {
    SanitizeChunk(rules, raw, true, true, true).0
  }

  // ------------------------------------------------------------------
  // How much of the sanitized text is stable
  // ------------------------------------------------------------------

  const UNSTABLE_CHARS := " \t\r\n/\\"

  /** Start of the run of characters in set that ends at idx. */
  function RunStart(text: string, idx: nat, chars: string): (start: nat)
    requires idx <= |text|
    ensures start <= idx && (forall i :: start <= i < idx ==> text[i] in chars)
    ensures start > 0 ==> text[start - 1] !in chars
  {
    if idx > 0 && text[idx - 1] in chars then RunStart(text, idx - 1, chars) else idx
  }

  function UnstableLen(text: string): (n: nat)
    ensures n <= |text|
  {
    |text| - RunStart(text, RunStart(text, |text|, UNSTABLE_CHARS), ".")
  }

  /** Held back: a run of dots followed by a run of m unstable characters, and no less. */
  lemma UnstableSuffix(text: string) returns (m: nat)
    ensures var n := UnstableLen(text);
      && m <= n <= |text|
      && (forall i :: |text| - n <= i < |text| - m ==> text[i] == '.')
      && (forall i :: |text| - m <= i < |text| ==> text[i] in UNSTABLE_CHARS)
      && (n < |text| ==> text[|text| - n - 1] != '.')
      && (m < |text| ==> text[|text| - m - 1] !in UNSTABLE_CHARS)
  {
    m := |text| - RunStart(text, |text|, UNSTABLE_CHARS);
  }

  method UnstableSuffixLen(text: string) returns (n: nat)
    ensures n == UnstableLen(text)
  {
    var idx := |text|;
    while idx > 0 && text[idx - 1] in UNSTABLE_CHARS
      invariant 0 <= idx <= |text|
      invariant RunStart(text, idx, UNSTABLE_CHARS) == RunStart(text, |text|, UNSTABLE_CHARS)
    {
      idx := idx - 1;
    }
    ghost var afterSpace := idx;
    assert afterSpace == RunStart(text, |text|, UNSTABLE_CHARS);
    while idx > 0 && text[idx - 1] == '.'
      invariant 0 <= idx <= afterSpace
      invariant RunStart(text, idx, ".") == RunStart(text, afterSpace, ".")
    {
      idx := idx - 1;
    }
    n := |text| - idx;
  }

  function StableAndTail(rules: Rules, raw: string, sanitized: string, maxTail: nat): (r: (nat, nat))
    ensures r.0 + r.1 == |sanitized|
  {
    if sanitized == "" then (0, 0)
    else
      var guard := Max(UnstableLen(sanitized), Max(rules.entityGuard(sanitized), rules.rawGuard(raw)));
      var tail := if guard < |sanitized| then guard else |sanitized|;
      if tail > maxTail then (|sanitized| - maxTail, maxTail) else (|sanitized| - tail, tail)
  }

  /** Stable part and tail are the sanitized text, and the tail is the least of
      the text, the bound, and the largest guard. */
  lemma TailCoversGuards(rules: Rules, raw: string, sanitized: string, maxTail: nat)
    ensures var (stable, tail) := StableAndTail(rules, raw, sanitized, maxTail);
      var (unstable, entity, other) := (UnstableLen(sanitized), rules.entityGuard(sanitized), rules.rawGuard(raw));
      && stable + tail == |sanitized| && tail <= maxTail
      && (tail <= unstable || tail <= entity || tail <= other)
      && (tail < maxTail && tail < |sanitized| ==> unstable <= tail && entity <= tail && other <= tail)
  {
  }

  // ------------------------------------------------------------------
  // The common prefix
  // ------------------------------------------------------------------

  function CommonPrefix(a: string, b: string): (n: nat)
    ensures n <= |a| && n <= |b| && a[..n] == b[..n]
    ensures n < |a| && n < |b| ==> a[n] != b[n]
  {
    if a == "" || b == "" || a[0] != b[0] then 0
    else
      var n := CommonPrefix(a[1..], b[1..]);
      assert a[1..][..n] == b[1..][..n] && a[..n + 1] == [a[0]] + a[1..][..n] && b[..n + 1] == [b[0]] + b[1..][..n];
      n + 1
  }

  lemma CommonPrefixIs(a: string, b: string, n: nat)
    requires n <= |a| && n <= |b| && (forall i :: 0 <= i < n ==> a[i] == b[i])
    requires n == |a| || n == |b| || a[n] != b[n]
    ensures CommonPrefix(a, b) == n
  {
    var k := CommonPrefix(a, b);
    assert forall i :: 0 <= i < k ==> a[i] == a[..k][i] == b[..k][i] == b[i];
  }

  method CommonPrefixLen(a: string, b: string) returns (n: nat)
    ensures n == CommonPrefix(a, b)
  {
    var maxLen := if |a| < |b| then |a| else |b|;
    n := 0;
    while n < maxLen && a[n] == b[n]
      invariant n <= maxLen && forall i :: 0 <= i < n ==> a[i] == b[i]
    {
      n := n + 1;
    }
    CommonPrefixIs(a, b, n);
  }

  // ------------------------------------------------------------------
  // The sanitizer
  // ------------------------------------------------------------------

  datatype State = State(raw: string, tail: string, emitted: seq<string>, prefixPending: bool, capitalPending: bool)

  const START := State("", "", [], true, true)

  /** The emitted parts after the text they spell is replaced by text. */
  function Replaced(emitted: seq<string>, text: string): seq<string> {
    var spelled := Concat(emitted);
    var lcp := CommonPrefix(spelled, text);
    (if lcp < |spelled| then (if lcp > 0 then [spelled[..lcp]] else []) else emitted)
  }

  function WithDelta(emitted: seq<string>, delta: string): seq<string> {
    if delta != "" then emitted + [delta] else emitted
  }

  function Pushed(rules: Rules, s: State, chunk: string): (State, string) {
    if chunk == "" then (s, "")
    else
      var raw := s.raw + chunk;
      var (sanitized, prefix, capital) := SanitizeChunk(rules, raw, true, true, true);
      var (stableLen, tailLen) := StableAndTail(rules, raw, sanitized, MAX_TAIL);
      var stable := sanitized[..stableLen];
      var delta := if stableLen > 0 then stable[CommonPrefix(Concat(s.emitted), stable)..] else "";
      var emitted := if stableLen > 0 then WithDelta(Replaced(s.emitted, stable), delta) else s.emitted;
      (State(raw, sanitized[stableLen..stableLen + tailLen], emitted, prefix, capital), delta)
  }

  function Flushed(rules: Rules, s: State): (State, string) {
    if s.raw == "" && s.tail == "" then (s, "")
    else
      var (sanitized, prefix, capital) := SanitizeChunk(rules, s.raw, true, true, true);
      var delta := RStrip(sanitized[CommonPrefix(Concat(s.emitted), sanitized)..]);
      (State("", "", WithDelta(Replaced(s.emitted, sanitized), delta), prefix, capital), delta)
  }

  function FullText(s: State): string {
    Concat(s.emitted) + s.tail
  }

  class StreamingSanitizer {
    const rules: Rules
    var rawTail: string
    var sanitizedTail: string
    var emittedParts: seq<string>
    var prefixPending: bool
    var capitalPending: bool
    var trimmedStreamStart: bool

    /** The stream start is never trimmed away, so both one-shot contexts stay on. */
    ghost predicate Valid()
      reads this
    {
      !trimmedStreamStart
    }

    ghost function View(): State
      reads this
    {
      State(rawTail, sanitizedTail, emittedParts, prefixPending, capitalPending)
    }

    constructor (rules: Rules)
      ensures Valid() && this.rules == rules && View() == START
    {
      this.rules := rules;
      rawTail, sanitizedTail, emittedParts := "", "", [];
      prefixPending, capitalPending, trimmedStreamStart := true, true, false;
    }

    method Push(chunk: string) returns (delta: string)
      requires Valid()
      modifies this
      ensures Valid() && (View(), delta) == Pushed(rules, old(View()), chunk)
    {
      hide Concat, StableAndTail, SanitizeChunk, CommonPrefix, UnstableLen;
      if chunk == "" {
        return "";
      }
      rawTail := rawTail + chunk;
      var prefixCtx := prefixPending || !trimmedStreamStart;
      var capitalCtx := capitalPending || !trimmedStreamStart;
      var (sanitized, prefixState, capitalState) := SanitizeChunk(rules, rawTail, prefixCtx, capitalCtx, prefixCtx);
      prefixPending := prefixState;
      capitalPending := capitalState;
      var (stableLen, tailLen) := StableAndTail(rules, rawTail, sanitized, MAX_TAIL);
      delta := "";
      if stableLen > 0 {
        var stable := sanitized[..stableLen];
        var emittedText := Concat(emittedParts);
        var lcp := CommonPrefixLen(emittedText, stable);
        if lcp < |emittedText| {
          emittedText := emittedText[..lcp];
          emittedParts := if emittedText != "" then [emittedText] else [];
        }
        delta := stable[lcp..];
        if delta != "" {
          emittedParts := emittedParts + [delta];
        }
      }
      sanitizedTail := sanitized[stableLen..stableLen + tailLen];
    }

    method Flush() returns (tail: string)
      requires Valid()
      modifies this
      ensures Valid() && (View(), tail) == Flushed(rules, old(View()))
    {
      hide Concat, SanitizeChunk, CommonPrefix, RStrip;
      if rawTail == "" && sanitizedTail == "" {
        return "";
      }
      var prefixCtx := prefixPending || !trimmedStreamStart;
      var capitalCtx := capitalPending || !trimmedStreamStart;
      var (sanitized, prefixState, capitalState) := SanitizeChunk(rules, rawTail, prefixCtx, capitalCtx, prefixCtx);
      prefixPending := prefixState;
      capitalPending := capitalState;
      var emittedText := Concat(emittedParts);
      var lcp := CommonPrefixLen(emittedText, sanitized);
      if lcp < |emittedText| {
        emittedText := emittedText[..lcp];
        emittedParts := if emittedText != "" then [emittedText] else [];
      }
      tail := RStrip(sanitized[lcp..]);
      if tail != "" {
        emittedParts := emittedParts + [tail];
      }
      sanitizedTail := "";
      rawTail := "";
      trimmedStreamStart := false;
    }
  }

  // ------------------------------------------------------------------
  // One push, one flush
  // ------------------------------------------------------------------

  lemma ConcatOfReplaced(emitted: seq<string>, text: string, delta: string)
    ensures Concat(WithDelta(Replaced(emitted, text), delta)) ==
      text[..CommonPrefix(Concat(emitted), text)] + delta
  {
    var spelled, parts := Concat(emitted), Replaced(emitted, text);
    var lcp := CommonPrefix(spelled, text);
    assert Concat([spelled[..lcp]]) == spelled[..lcp] + Concat([]);
    assert spelled[..|spelled|] == spelled;
    assert Concat(parts) == text[..lcp];
    ConcatSnoc(parts, delta);
  }

  /** With a stable part, a push makes the emitted text the stable part of the
      whole sanitized text; without one it leaves the emitted text alone. The
      full text is then the sanitized text exactly when there is a stable part
      or nothing had been emitted before. */
  lemma PushIsExact(rules: Rules, s: State, chunk: string)
    requires chunk != ""
    ensures var (t, delta) := Pushed(rules, s, chunk); var whole := Whole(rules, s.raw + chunk);
      var stableLen := StableAndTail(rules, s.raw + chunk, whole, MAX_TAIL).0;
      && t.raw == s.raw + chunk
      && Concat(t.emitted) == (if stableLen > 0 then whole[..stableLen] else Concat(s.emitted))
      && (FullText(t) == whole <==> stableLen > 0 || Concat(s.emitted) == "")
  {
    hide Concat, StableAndTail, SanitizeChunk, CommonPrefix, Replaced, WithDelta, UnstableLen;
    var raw := s.raw + chunk;
    var whole := Whole(rules, raw);
    var stableLen := StableAndTail(rules, raw, whole, MAX_TAIL).0;
    var stable, tail := whole[..stableLen], whole[stableLen..];
    var spelled := Concat(s.emitted);
    var lcp := CommonPrefix(spelled, stable);
    ConcatOfReplaced(s.emitted, stable, stable[lcp..]);
    assert stable[..lcp] + stable[lcp..] == stable;
    assert stable + tail == whole;
    var t := Pushed(rules, s, chunk).0;
    assert t.tail == tail;
    assert t.emitted == if stableLen > 0 then WithDelta(Replaced(s.emitted, stable), stable[lcp..]) else s.emitted;
    hide Pushed;
    if stableLen == 0 {
      assert tail == whole;
      assert |FullText(t)| == |spelled| + |whole|;
      assert "" + whole == whole;
    }
  }

  lemma CutBlankEnd(whole: string, n: nat)
    requires n <= |whole| && Blank(whole[n..])
    ensures RStrip(whole[..n]) == RStrip(whole)
    ensures RStrip(whole) == whole ==> n == |whole|
  {
    hide RStrip;
    assert whole[..n] + whole[n..] == whole;
    RStripOfBlankEnd(whole[..n], whole[n..]);
    RStripSplits(whole[..n]);
  }

  /** Stripping only the end that follows a given prefix. */
  lemma StripAfterPrefix(whole: string, lcp: nat)
    requires lcp <= |whole|
    ensures var full := whole[..lcp] + RStrip(whole[lcp..]);
      && |full| <= |whole| && full == whole[..|full|]
      && RStrip(full) == RStrip(whole)
      && (RStrip(whole) == whole ==> full == whole)
  {
    hide RStrip;
    var rest := whole[lcp..];
    RStripSplits(rest);
    var n := lcp + |RStrip(rest)|;
    assert whole[..lcp] + RStrip(rest) == whole[..n];
    assert rest[|RStrip(rest)|..] == whole[n..];
    CutBlankEnd(whole, n);
  }

  /** A flush leaves the sanitized text, without a blank end that had not been emitted. */
  lemma FlushIsExact(rules: Rules, s: State)
    requires s.raw != ""
    ensures var t := Flushed(rules, s).0; var whole := Whole(rules, s.raw);
      && t.raw == "" && t.tail == "" && FullText(t) == Concat(t.emitted)
      && |FullText(t)| <= |whole| && FullText(t) == whole[..|FullText(t)|]
      && RStrip(FullText(t)) == RStrip(whole)
      && (RStrip(whole) == whole ==> FullText(t) == whole)
  {
    hide SanitizeChunk, Concat, CommonPrefix, RStrip, Replaced, WithDelta;
    var whole := Whole(rules, s.raw);
    var lcp := CommonPrefix(Concat(s.emitted), whole);
    ConcatOfReplaced(s.emitted, whole, RStrip(whole[lcp..]));
    StripAfterPrefix(whole, lcp);
  }

  // ------------------------------------------------------------------
  // Any split into chunks
  // ------------------------------------------------------------------

  function AfterPushes(rules: Rules, chunks: seq<string>): State {
    if chunks == [] then START
    else Pushed(rules, AfterPushes(rules, chunks[..|chunks| - 1]), chunks[|chunks| - 1]).0
  }

  /** What the pushes return, in order. */
  function Deltas(rules: Rules, chunks: seq<string>): seq<string> {
    if chunks == [] then []
    else
      var front := chunks[..|chunks| - 1];
      Deltas(rules, front) + [Pushed(rules, AfterPushes(rules, front), chunks[|chunks| - 1]).1]
  }

  function AfterFlush(rules: Rules, chunks: seq<string>): State {
    Flushed(rules, AfterPushes(rules, chunks)).0
  }

  function AllDeltas(rules: Rules, chunks: seq<string>): seq<string> {
    Deltas(rules, chunks) + [Flushed(rules, AfterPushes(rules, chunks)).1]
  }

  lemma {:induction false} RawIsAllChunks(rules: Rules, chunks: seq<string>)
    ensures AfterPushes(rules, chunks).raw == Concat(chunks)
    ensures Concat(chunks) == "" ==> AfterPushes(rules, chunks) == START
  {
    if chunks == [] {
    } else {
      var front, last := chunks[..|chunks| - 1], chunks[|chunks| - 1];
      RawIsAllChunks(rules, front);
      assert chunks == front + [last];
      ConcatSnoc(front, last);
    }
  }

  /** Chunking does not matter: after the flush the full text is a prefix of the
      one-shot sanitized text and equals it up to trailing space. */
  lemma ChunkingInvariance(rules: Rules, chunks: seq<string>)
    ensures var full := FullText(AfterFlush(rules, chunks)); var whole := Whole(rules, Concat(chunks));
      && |full| <= |whole| && full == whole[..|full|]
      && RStrip(full) == RStrip(whole)
      && (RStrip(whole) == whole ==> full == whole)
    ensures var raw := Concat(chunks);
      Whole(rules, raw) == if raw == "" then "" else rules.clean(raw, true, true, true).0
  {
    RawIsAllChunks(rules, chunks);
    if Concat(chunks) != "" {
      FlushIsExact(rules, AfterPushes(rules, chunks));
    }
  }

  // ------------------------------------------------------------------
  // Emitted deltas and rollback
  // ------------------------------------------------------------------

  /** How many emitted characters the replacement by text takes back. */
  function TakenBack(emitted: seq<string>, text: string): nat {
    |Concat(emitted)| - CommonPrefix(Concat(emitted), text)
  }

  function PushTakesBack(rules: Rules, s: State, chunk: string): nat {
    if chunk == "" then 0
    else
      var whole := Whole(rules, s.raw + chunk);
      var stableLen := StableAndTail(rules, s.raw + chunk, whole, MAX_TAIL).0;
      if stableLen > 0 then TakenBack(s.emitted, whole[..stableLen]) else 0
  }

  /** Characters taken back over all pushes. */
  function PushesTakeBack(rules: Rules, chunks: seq<string>): nat {
    if chunks == [] then 0
    else
      var front := chunks[..|chunks| - 1];
      PushesTakeBack(rules, front) + PushTakesBack(rules, AfterPushes(rules, front), chunks[|chunks| - 1])
  }

  /** Characters taken back over all pushes and the flush. */
  function TotalTakenBack(rules: Rules, chunks: seq<string>): nat {
    var s := AfterPushes(rules, chunks);
    PushesTakeBack(rules, chunks)
    + if s.raw == "" && s.tail == "" then 0 else TakenBack(s.emitted, Whole(rules, s.raw))
  }

  /** One replacement: the deltas and the emitted text drift apart by what is taken back. */
  lemma DriftStep(sent: string, emitted: seq<string>, text: string, delta: string, drift: nat)
    requires |sent| == |Concat(emitted)| + drift && (drift == 0 ==> sent == Concat(emitted))
    ensures var after := Concat(WithDelta(Replaced(emitted, text), delta)); var more := TakenBack(emitted, text);
      && |sent + delta| == |after| + drift + more
      && (drift + more == 0 ==> sent + delta == after)
  {
    ConcatOfReplaced(emitted, text, delta);
  }

  lemma {:induction false} PushesDrift(rules: Rules, chunks: seq<string>)
    ensures var sent, emitted := Concat(Deltas(rules, chunks)), Concat(AfterPushes(rules, chunks).emitted);
      var drift := PushesTakeBack(rules, chunks);
      |sent| == |emitted| + drift && (drift == 0 ==> sent == emitted)
  {
    if chunks == [] {
    } else {
      var front, last := chunks[..|chunks| - 1], chunks[|chunks| - 1];
      var s := AfterPushes(rules, front);
      var delta := Pushed(rules, s, last).1;
      PushesDrift(rules, front);
      ConcatSnoc(Deltas(rules, front), delta);
      if last != "" {
        var whole := Whole(rules, s.raw + last);
        var stableLen := StableAndTail(rules, s.raw + last, whole, MAX_TAIL).0;
        DriftStep(Concat(Deltas(rules, front)), s.emitted, whole[..stableLen], delta, PushesTakeBack(rules, front));
      }
    }
  }

  /** What the client gets, all deltas together, is the full text exactly when
      no push and no flush takes back emitted text; otherwise it is longer. */
  lemma DeltasAreFullTextIffNoRollback(rules: Rules, chunks: seq<string>)
    ensures var sent, full := Concat(AllDeltas(rules, chunks)), FullText(AfterFlush(rules, chunks));
      && (sent == full <==> TotalTakenBack(rules, chunks) == 0)
      && |sent| == |full| + TotalTakenBack(rules, chunks)
  {
    var s := AfterPushes(rules, chunks);
    var (t, delta) := Flushed(rules, s);
    PushesDrift(rules, chunks);
    ConcatSnoc(Deltas(rules, chunks), delta);
    RawIsAllChunks(rules, chunks);
    if s.raw == "" && s.tail == "" {
      assert s == START;
    } else {
      DriftStep(Concat(Deltas(rules, chunks)), s.emitted, Whole(rules, s.raw), delta, PushesTakeBack(rules, chunks));
      assert FullText(t) == Concat(t.emitted);
    }
  }

  /** The stable part of the sanitized raw text. */
  function StableOf(rules: Rules, raw: string): string {
    var whole := Whole(rules, raw);
    whole[..StableAndTail(rules, raw, whole, MAX_TAIL).0]
  }

  /** The stable part after the last push, which does nothing for an empty chunk. */
  function NewStable(rules: Rules, chunks: seq<string>): string
    requires chunks != []
  {
    if chunks[|chunks| - 1] == "" then "" else StableOf(rules, Concat(chunks))
  }

  /** The last stable part that is not empty. */
  function LastStable(rules: Rules, chunks: seq<string>): string {
    if chunks == [] then ""
    else if NewStable(rules, chunks) != "" then NewStable(rules, chunks)
    else LastStable(rules, chunks[..|chunks| - 1])
  }

  /** Every stable part that is not empty extends the one before. */
  predicate StablePartsGrow(rules: Rules, chunks: seq<string>) {
    chunks == [] ||
    var front := chunks[..|chunks| - 1];
    && StablePartsGrow(rules, front)
    && (NewStable(rules, chunks) != "" ==> LastStable(rules, front) <= NewStable(rules, chunks))
  }

  lemma TakesBackNothingIff(emitted: seq<string>, text: string)
    ensures TakenBack(emitted, text) == 0 <==> Concat(emitted) <= text
  {
    var spelled := Concat(emitted);
    if spelled <= text {
      CommonPrefixIs(spelled, text, |spelled|);
    }
  }

  lemma StableNonEmpty(rules: Rules, raw: string)
    ensures StableOf(rules, raw) == Whole(rules, raw)[..StableAndTail(rules, raw, Whole(rules, raw), MAX_TAIL).0]
    ensures StableAndTail(rules, raw, Whole(rules, raw), MAX_TAIL).0 > 0 <==> StableOf(rules, raw) != ""
  {
  }

  lemma PushTakesBackIff(rules: Rules, s: State, chunk: string)
    ensures PushTakesBack(rules, s, chunk) == 0 <==>
      chunk == "" || StableOf(rules, s.raw + chunk) == "" || Concat(s.emitted) <= StableOf(rules, s.raw + chunk)
  {
    hide Concat, StableAndTail, Whole, CommonPrefix, StableOf;
    StableNonEmpty(rules, s.raw + chunk);
    TakesBackNothingIff(s.emitted, StableOf(rules, s.raw + chunk));
  }

  lemma PushEmits(rules: Rules, s: State, chunk: string)
    ensures var stable := if chunk == "" then "" else StableOf(rules, s.raw + chunk);
      Concat(Pushed(rules, s, chunk).0.emitted) == if stable != "" then stable else Concat(s.emitted)
  {
    hide Concat, StableAndTail, SanitizeChunk, CommonPrefix, Replaced, WithDelta, UnstableLen, StableOf, Whole;
    if chunk != "" {
      StableNonEmpty(rules, s.raw + chunk);
      PushIsExact(rules, s, chunk);
    }
  }

  lemma PushesSnoc(rules: Rules, front: seq<string>, last: string)
    ensures var chunks, s := front + [last], AfterPushes(rules, front);
      var stable := if last == "" then "" else StableOf(rules, Concat(chunks));
      && AfterPushes(rules, chunks) == Pushed(rules, s, last).0
      && PushesTakeBack(rules, chunks) == PushesTakeBack(rules, front) + PushTakesBack(rules, s, last)
      && LastStable(rules, chunks) == (if stable != "" then stable else LastStable(rules, front))
      && (StablePartsGrow(rules, chunks) <==>
            StablePartsGrow(rules, front) && (stable != "" ==> LastStable(rules, front) <= stable))
  {
    assert (front + [last])[..|front|] == front;
    hide StableOf, Pushed, PushTakesBack, Concat;
  }

  lemma NothingPushed(rules: Rules)
    ensures Concat(AfterPushes(rules, []).emitted) == LastStable(rules, []) == ""
    ensures PushesTakeBack(rules, []) == 0 && StablePartsGrow(rules, [])
  {
  }

  lemma {:induction false} PushesTakeBackIff(rules: Rules, chunks: seq<string>)
    ensures Concat(AfterPushes(rules, chunks).emitted) == LastStable(rules, chunks)
    ensures PushesTakeBack(rules, chunks) == 0 <==> StablePartsGrow(rules, chunks)
  {
    hide *;
    if chunks == [] {
      NothingPushed(rules);
    } else {
      var front, last := chunks[..|chunks| - 1], chunks[|chunks| - 1];
      var s := AfterPushes(rules, front);
      PushesTakeBackIff(rules, front);
      RawIsAllChunks(rules, front);
      assert chunks == front + [last];
      ConcatSnoc(front, last);
      PushesSnoc(rules, front, last);
      PushTakesBackIff(rules, s, last);
      PushEmits(rules, s, last);
    }
  }

  /** Nothing is taken back exactly if, for the cleaner on its own, every stable
      part extends the one before and the sanitized whole extends the last. */
  lemma NoRollbackExactly(rules: Rules, chunks: seq<string>)
    ensures TotalTakenBack(rules, chunks) == 0 <==>
      StablePartsGrow(rules, chunks) && LastStable(rules, chunks) <= Whole(rules, Concat(chunks))
  {
    hide AfterPushes, PushesTakeBack, StablePartsGrow, LastStable, Concat, CommonPrefix, Whole;
    PushesTakeBackIff(rules, chunks);
    RawIsAllChunks(rules, chunks);
    var s := AfterPushes(rules, chunks);
    TakesBackNothingIff(s.emitted, Whole(rules, s.raw));
    if s.raw == "" {
      NothingEmitted();
    }
  }

  lemma NothingEmitted()
    ensures Concat(START.emitted) == ""
  {
  }

  /** A cleaner that takes back its first answer when more text comes. */
  const FICKLE := Rules(
    (text, prefix, capital, strip) => (if text == "a" then "a" else "b", prefix, capital), s => 0, s => 0)

  lemma FickleStable(raw: string, clean: string)
    requires |clean| == 1 && clean[0] !in UNSTABLE_CHARS && clean[0] != '.'
    ensures StableAndTail(FICKLE, raw, clean, MAX_TAIL) == (1, 0)
  {
    assert RunStart(clean, 1, UNSTABLE_CHARS) == 1 && RunStart(clean, 1, ".") == 1;
  }

  lemma FicklePush(s: State, chunk: string, clean: string)
    requires chunk != "" && clean == (if s.raw + chunk == "a" then "a" else "b")
    ensures Pushed(FICKLE, s, chunk).0 == State(s.raw + chunk, "",
      WithDelta(Replaced(s.emitted, clean), clean[CommonPrefix(Concat(s.emitted), clean)..]), true, true)
    ensures Pushed(FICKLE, s, chunk).1 == clean[CommonPrefix(Concat(s.emitted), clean)..]
    ensures PushTakesBack(FICKLE, s, chunk) == TakenBack(s.emitted, clean)
  {
    assert SanitizeChunk(FICKLE, s.raw + chunk, true, true, true) == (clean, true, true);
    FickleStable(s.raw + chunk, clean);
    assert clean[..1] == clean && clean[1..1 + 0] == "";
  }

  lemma FicklePrefixes()
    ensures CommonPrefix("", "a") == 0 && CommonPrefix("a", "b") == 0 && CommonPrefix("b", "b") == 1
    ensures forall x: string :: Concat([x]) == x
    ensures Concat<char>([]) == ""
    ensures Replaced([], "a") == [] && Replaced(["a"], "b") == [] && Replaced(["b"], "b") == ["b"]
  {
    CommonPrefixIs("", "a", 0);
    CommonPrefixIs("a", "b", 0);
    CommonPrefixIs("b", "b", 1);
    assert forall x: string :: Concat([x]) == x + Concat([]);
  }

  lemma AfterOne(rules: Rules, chunk: string)
    ensures AfterPushes(rules, [chunk]) == Pushed(rules, START, chunk).0
    ensures Deltas(rules, [chunk]) == [Pushed(rules, START, chunk).1]
    ensures PushesTakeBack(rules, [chunk]) == PushTakesBack(rules, START, chunk)
  {
    assert [chunk][..0] == [];
  }

  lemma AfterMore(rules: Rules, chunks: seq<string>, chunk: string)
    ensures var s := AfterPushes(rules, chunks);
      && AfterPushes(rules, chunks + [chunk]) == Pushed(rules, s, chunk).0
      && Deltas(rules, chunks + [chunk]) == Deltas(rules, chunks) + [Pushed(rules, s, chunk).1]
      && PushesTakeBack(rules, chunks + [chunk]) == PushesTakeBack(rules, chunks) + PushTakesBack(rules, s, chunk)
  {
    assert (chunks + [chunk])[..|chunks|] == chunks;
  }

  lemma FickleFirst()
    ensures Pushed(FICKLE, START, "a") == (State("a", "", ["a"], true, true), "a")
    ensures PushTakesBack(FICKLE, START, "a") == 0
  {
    FicklePrefixes();
    FickleTakenBack();
    hide Pushed, PushTakesBack, TakenBack, Concat, CommonPrefix, Replaced;
    FicklePush(START, "a", "a");
    assert "" + "a" == "a" && "a"[0..] == "a" && [] + ["a"] == ["a"];
  }

  lemma FickleSecond()
    ensures Pushed(FICKLE, State("a", "", ["a"], true, true), "b") == (State("ab", "", ["b"], true, true), "b")
    ensures PushTakesBack(FICKLE, State("a", "", ["a"], true, true), "b") == 1
  {
    FicklePrefixes();
    FickleTakenBack();
    hide Pushed, PushTakesBack, TakenBack, Concat, CommonPrefix, Replaced;
    assert "a" + "b" == "ab" && "b"[0..] == "b" && [] + ["b"] == ["b"];
    FicklePush(State("a", "", ["a"], true, true), "b", "b");
  }

  lemma FicklePushes()
    ensures AfterPushes(FICKLE, ["a", "b"]) == State("ab", "", ["b"], true, true)
    ensures Deltas(FICKLE, ["a", "b"]) == ["a", "b"] && PushesTakeBack(FICKLE, ["a", "b"]) == 1
  {
    hide *;
    AfterOne(FICKLE, "a");
    AfterMore(FICKLE, ["a"], "b");
    assert ["a"] + ["b"] == ["a", "b"];
    FickleFirst();
    FickleSecond();
  }

  lemma FickleTakenBack()
    ensures TakenBack([], "a") == 0 && TakenBack(["a"], "b") == 1 && TakenBack(["b"], "b") == 0
  {
    FicklePrefixes();
    hide Concat, CommonPrefix;
  }

  lemma FickleFlush(s: State)
    requires s == State("ab", "", ["b"], true, true)
    ensures Flushed(FICKLE, s) == (State("", "", ["b"], true, true), "")
    ensures Whole(FICKLE, "ab") == "b"
  {
    FicklePrefixes();
    assert SanitizeChunk(FICKLE, "ab", true, true, true) == ("b", true, true);
    assert "b"[1..] == "" && RStrip("") == "";
    hide Concat, CommonPrefix, SanitizeChunk, Replaced, RStrip;
  }

  /** Emitted text does get taken back: the client has been sent "ab", and the
      full text is "b". */
  lemma RollbackDrifts()
    ensures TotalTakenBack(FICKLE, ["a", "b"]) == 1
    ensures FullText(AfterFlush(FICKLE, ["a", "b"])) == "b"
    ensures Concat(AllDeltas(FICKLE, ["a", "b"])) == "ab"
  {
    hide PushesTakeBack, Deltas, AfterPushes, Flushed, TakenBack, Whole, Concat, CommonPrefix;
    FicklePushes();
    FickleFlush(AfterPushes(FICKLE, ["a", "b"]));
    FickleTakenBack();
    FicklePrefixes();
    ConcatSnoc(["a", "b"], "");
    ConcatSnoc(["a"], "b");
    assert ["a"] + ["b"] == ["a", "b"] && "b" + "" == "b" && "ab" + "" == "ab" && "a" + "b" == "ab";
  }
}
