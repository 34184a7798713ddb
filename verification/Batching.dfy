/**
 Micro-batching of tool requests (src/tool/batch.py, src/tool/future.py): the
 futures and the dispatch of one batch in place, and every run of the worker
 with its callers as a state machine.
 */
module Batching {
  import opened Options
  import opened Text

  type Row = seq<real>

  /** How a request ends: with its row, or with the exception shared by its batch. */
  datatype Outcome = Success(row: Row) | Failed(error: string)

  /** The inference result for a batch of texts: rows, or an exception. */
  type Answer = Result<seq<Row>, string>

  const SIZE_MISMATCH := "Batch size mismatch"

  /** The outcome of the j-th of n requests of a batch. */
  function OutcomeAt(answer: Answer, n: nat, j: nat): Outcome
    requires j < n
  {
    match answer
    case Err(e) => Failed(e)
    case Ok(rows) => if |rows| != n then Failed(SIZE_MISMATCH) else Success(rows[j])
  }

  // ------------------------------------------------------------------
  // Futures and the dispatch of one batch
  // ------------------------------------------------------------------

  class BatchFuture {
    var completed: bool
    var row: Option<Row>
    var exc: Option<string>
    /** How often the future has been completed. */
    ghost var completions: nat

    ghost predicate Open()
      reads this
    {
      !completed && row.None? && exc.None? && completions == 0
    }

    /** Completed once, with this outcome. */
    ghost predicate Holds(outcome: Outcome)
      reads this
    {
      && completed && completions == 1
      && match outcome
         case Success(r) => row == Some(r) && exc.None?
         case Failed(e) => exc == Some(e) && row.None?
    }

    constructor ()
      ensures Open()
    {
      completed, row, exc, completions := false, None, None, 0;
    }

    method SetResult(result: Row)
      requires Open()
      modifies this
      ensures Holds(Success(result))
    {
      row := Some(result);
      completed, completions := true, completions + 1;
    }

    method SetException(error: string)
      requires Open()
      modifies this
      ensures Holds(Failed(error))
    {
      exc := Some(error);
      completed, completions := true, completions + 1;
    }

    /** What a waiting caller gets; timedOut when the event is not set in time. */
    method Get(timedOut: bool) returns (r: Result<Row, string>)
      requires completed || timedOut
      ensures timedOut ==> r == Err("Tool batch timed out")
      ensures forall outcome :: Holds(outcome) && !timedOut ==>
        r == match outcome case Success(v) => Ok(v) case Failed(e) => Err(e)
    {
      if timedOut {
        return Err("Tool batch timed out");
      }
      if exc.Some? {
        return Err(exc.value);
      }
      if row.None? {
        return Err("Tool batch completed without result");
      }
      return Ok(row.value);
    }
  }

  datatype RequestItem = RequestItem(text: string, future: BatchFuture)

  function TextsOf(batch: seq<RequestItem>): seq<string> {
    if batch == [] then [] else [batch[0].text] + TextsOf(batch[1..])
  }

  lemma {:induction false} TextsOfAre(batch: seq<RequestItem>)
    ensures |TextsOf(batch)| == |batch|
    ensures forall j :: 0 <= j < |batch| ==> TextsOf(batch)[j] == batch[j].text
  {
    if batch == [] {
    } else {
      TextsOfAre(batch[1..]);
      forall j | 0 < j < |batch|
        ensures TextsOf(batch)[j] == batch[j].text
      {
        assert TextsOf(batch)[j] == TextsOf(batch[1..])[j - 1];
      }
    }
  }

  /** texts are the texts of the batch, in order. */
  predicate AreTexts(batch: seq<RequestItem>, texts: seq<string>) {
    |texts| == |batch| && forall j :: 0 <= j < |batch| ==> texts[j] == batch[j].text
  }

  /** The answer has the row of each text, at its position. */
  predicate HasRows(answer: Answer, texts: seq<string>, row: string -> Row) {
    && answer.Ok? && |answer.value| == |texts|
    && forall j :: 0 <= j < |texts| ==> answer.value[j] == row(texts[j])
  }

  /** infer stands for inference and softmax. */
  method DispatchBatch(batch: seq<RequestItem>, infer: seq<string> -> Answer, ghost row: string -> Row)
    requires forall i, j :: 0 <= i < j < |batch| ==> batch[i].future != batch[j].future
    requires forall i :: 0 <= i < |batch| ==> batch[i].future.Open()
    modifies set item | item in batch :: item.future
    ensures forall j :: 0 <= j < |batch| ==> batch[j].future.Holds(OutcomeAt(infer(TextsOf(batch)), |batch|, j))
    // if inference gives each text of the batch its row, each request gets the row of its own text
    ensures (forall texts :: AreTexts(batch, texts) ==> HasRows(infer(texts), texts, row)) ==>
      forall j :: 0 <= j < |batch| ==> batch[j].future.Holds(Success(row(batch[j].text)))
    // in any case, for the list of the batch's texts
    ensures forall texts :: AreTexts(batch, texts) ==>
      var answer := infer(texts);
      && (answer.Err? ==> forall j :: 0 <= j < |batch| ==> batch[j].future.Holds(Failed(answer.error)))
      && (answer.Ok? && |answer.value| != |batch| ==>
            forall j :: 0 <= j < |batch| ==> batch[j].future.Holds(Failed(SIZE_MISMATCH)))
      && (answer.Ok? && |answer.value| == |batch| ==>
            forall j :: 0 <= j < |batch| ==> batch[j].future.Holds(Success(answer.value[j])))
  {
    TextsOfAre(batch);
    assert forall texts :: AreTexts(batch, texts) ==> texts == TextsOf(batch);
    assert AreTexts(batch, TextsOf(batch));
    var answer := infer(TextsOf(batch));
    if answer.Ok? && |answer.value| == |batch| {
      for j := 0 to |batch|
        invariant forall i :: 0 <= i < j ==> batch[i].future.Holds(Success(answer.value[i]))
        invariant forall i :: j <= i < |batch| ==> batch[i].future.Open()
      {
        batch[j].future.SetResult(answer.value[j]);
      }
    } else {
      var error := if answer.Err? then answer.error else SIZE_MISMATCH;
      for j := 0 to |batch|
        invariant forall i :: 0 <= i < j ==> batch[i].future.Holds(Failed(error))
        invariant forall i :: j <= i < |batch| ==> batch[i].future.Open()
      {
        batch[j].future.SetException(error);
      }
    }
  }

  // ------------------------------------------------------------------
  // Collecting one batch
  // ------------------------------------------------------------------

  class RequestQueue {
    var items: seq<RequestItem>
  }

  /** What one round of the collecting loop meets: the deadline has passed, or it
      waits and arrived is put on the queue by other threads before it looks. */
  datatype Round = DeadlinePassed | Waited(arrived: seq<RequestItem>)

  function Arrived(rounds: seq<Round>): seq<RequestItem> {
    if rounds == [] then []
    else Arrived(rounds[..|rounds| - 1]) + match rounds[|rounds| - 1] case DeadlinePassed => [] case Waited(a) => a
  }

  lemma ArrivedSnoc(rounds: seq<Round>, n: nat)
    requires n < |rounds|
    ensures Arrived(rounds[..n + 1]) ==
      Arrived(rounds[..n]) + match rounds[n] case DeadlinePassed => [] case Waited(a) => a
  {
    assert rounds[..n + 1][..n] == rounds[..n];
  }

  lemma NoneArrived()
    ensures Arrived([]) == []
  {
  }

  lemma SameMore<T>(a: seq<T>, b: seq<T>, c: seq<T>, d: seq<T>, more: seq<T>)
    requires a + b == c + d
    ensures a + (b + more) == c + (d + more)
  {
    assert a + (b + more) == (a + b) + more;
    assert c + (d + more) == (c + d) + more;
  }

  lemma MoveFirst<T>(batch: seq<T>, rest: seq<T>)
    requires rest != []
    ensures (batch + [rest[0]]) + rest[1..] == batch + rest
  {
  }

  /** The first, blocking get returns when there is an item. In rounds, which the
      loop need not exhaust, the deadline passes in the end. The batch is the
      front of the queue, in order; used says how many rounds the loop has seen. */
  method CollectBatch(queue: RequestQueue, maxBatch: nat, rounds: seq<Round>)
    returns (batch: seq<RequestItem>, used: nat)
    requires queue.items != [] && maxBatch >= 1
    requires rounds != [] && rounds[|rounds| - 1].DeadlinePassed?
    modifies queue
    ensures 1 <= |batch| <= maxBatch && used <= |rounds|
    ensures batch + queue.items == old(queue.items) + Arrived(rounds[..used])
    ensures |batch| < maxBatch ==> used > 0 && (rounds[used - 1].DeadlinePassed? || queue.items == [])
  {
    hide Arrived;
    NoneArrived();
    MoveFirst([], queue.items);
    assert rounds[..0] == [] && [] + queue.items == queue.items;
    batch := [queue.items[0]];
    queue.items := queue.items[1..];
    used := 0;
    while |batch| < maxBatch
      invariant 1 <= |batch| <= maxBatch && used < |rounds|
      invariant batch + queue.items == old(queue.items) + Arrived(rounds[..used])
      decreases |rounds| - used
    {
      var round := rounds[used];
      ArrivedSnoc(rounds, used);
      ghost var before, arrivedBefore := queue.items, Arrived(rounds[..used]);
      used := used + 1;
      if round.DeadlinePassed? {
        break;
      }
      queue.items := queue.items + round.arrived;
      SameMore(batch, before, old(queue.items), arrivedBefore, round.arrived);
      if queue.items == [] {
        break;
      }
      MoveFirst(batch, queue.items);
      batch := batch + [queue.items[0]];
      queue.items := queue.items[1..];
    }
  }

  // ------------------------------------------------------------------
  // The worker and its callers
  // ------------------------------------------------------------------

  datatype Phase = Waiting | Collecting(batch: seq<nat>) | Dispatching(answer: Answer, next: nat)

  /** Requests are numbered as they are put on the queue; the first taken of
      them have been removed. batches, calls and answers list the requests of each
      batch, the texts handed to inference for it, and what inference answered;
      completions what has been delivered, in order. */
  datatype Worker = Worker(
    submitted: seq<string>,
    taken: nat,
    phase: Phase,
    batches: seq<seq<nat>>,
    calls: seq<seq<string>>,
    answers: seq<Answer>,
    completions: seq<(nat, Outcome)>)

  const IDLE := Worker([], 0, Waiting, [], [], [], [])

  datatype Step = Submit(text: string) | TakeFirst | TakeMore | Infer(answer: Answer) | CompleteNext | Finish

  function TextsAt(submitted: seq<string>, batch: seq<nat>): (texts: seq<string>)
    ensures |texts| == |batch|
    ensures forall j :: 0 <= j < |batch| && batch[j] < |submitted| ==> texts[j] == submitted[batch[j]]
  {
    if batch == [] then []
    else
      var last := batch[|batch| - 1];
      TextsAt(submitted, batch[..|batch| - 1]) + [if last < |submitted| then submitted[last] else ""]
  }

  /** What inference is given in the state machine is what dispatching a batch gives it. */
  lemma TextsAgree(submitted: seq<string>, ids: seq<nat>, batch: seq<RequestItem>)
    requires |ids| == |batch|
    requires forall j :: 0 <= j < |ids| ==> ids[j] < |submitted| && batch[j].text == submitted[ids[j]]
    ensures TextsAt(submitted, ids) == TextsOf(batch)
  {
    TextsOfAre(batch);
    hide TextsOf, TextsAt;
  }

  /** Whether and when a batch that is not full yet gets more requests depends
      on arrivals and on the clock, so any choice is a step. */
  ghost predicate Next(maxBatch: nat, w: Worker, step: Step, v: Worker) {
    match step
    case Submit(text) => v == w.(submitted := w.submitted + [text])
    case TakeFirst => w.phase == Waiting && w.taken < |w.submitted|
      && v == w.(taken := w.taken + 1, phase := Collecting([w.taken]))
    case TakeMore => w.phase.Collecting? && |w.phase.batch| < maxBatch && w.taken < |w.submitted|
      && v == w.(taken := w.taken + 1, phase := Collecting(w.phase.batch + [w.taken]))
    case Infer(answer) => w.phase.Collecting?
      && v == w.(phase := Dispatching(answer, 0), batches := w.batches + [w.phase.batch],
                 calls := w.calls + [TextsAt(w.submitted, w.phase.batch)], answers := w.answers + [answer])
    case CompleteNext => w.phase.Dispatching? && w.batches != []
      && var batch := w.batches[|w.batches| - 1];
      w.phase.next < |batch|
      && v == w.(phase := w.phase.(next := w.phase.next + 1),
                 completions := w.completions
                   + [(batch[w.phase.next], OutcomeAt(w.phase.answer, |batch|, w.phase.next))])
    case Finish =>
      && w.phase.Dispatching? && w.batches != [] && w.phase.next == |w.batches[|w.batches| - 1]|
      && v == w.(phase := Waiting)
  }

  ghost predicate Run(maxBatch: nat, ws: seq<Worker>) {
    && ws != [] && ws[0] == IDLE
    && forall i :: 0 <= i < |ws| - 1 ==> Steps(maxBatch, ws[i], ws[i + 1])
  }

  ghost predicate Steps(maxBatch: nat, w: Worker, v: Worker) {
    exists step :: Next(maxBatch, w, step, v)
  }

  /** The numbers 0 to n - 1, in order. */
  function Upto(n: nat): (r: seq<nat>)
    ensures |r| == n && forall i :: 0 <= i < n ==> r[i] == i
  {
    if n == 0 then [] else Upto(n - 1) + [n - 1]
  }

  /** The deliveries of the first n requests of one batch. */
  function Delivered(batch: seq<nat>, answer: Answer, n: nat): (r: seq<(nat, Outcome)>)
    requires n <= |batch|
    ensures |r| == n && forall j :: 0 <= j < n ==> r[j] == (batch[j], OutcomeAt(answer, |batch|, j))
  {
    if n == 0 then [] else Delivered(batch, answer, n - 1) + [(batch[n - 1], OutcomeAt(answer, |batch|, n - 1))]
  }

  /** The deliveries of all batches, in full. */
  function AllDelivered(batches: seq<seq<nat>>, answers: seq<Answer>): seq<(nat, Outcome)>
    requires |batches| == |answers|
  {
    if batches == [] then []
    else
      var last := |batches| - 1;
      AllDelivered(batches[..last], answers[..last]) + Delivered(batches[last], answers[last], |batches[last]|)
  }

  function Open(phase: Phase): seq<nat> {
    if phase.Collecting? then phase.batch else []
  }

  /** texts are those submitted by the requests of the batch. */
  ghost predicate TextsMatch(submitted: seq<string>, texts: seq<string>, batch: seq<nat>) {
    |texts| == |batch| && forall j :: 0 <= j < |batch| ==> batch[j] < |submitted| && texts[j] == submitted[batch[j]]
  }

  /** Inference has been given the texts of each batch, in order. */
  ghost predicate OwnTexts(w: Worker) {
    && |w.calls| == |w.batches|
    && (forall b :: 0 <= b < |w.batches| ==> TextsMatch(w.submitted, w.calls[b], w.batches[b]))
    && (forall j :: 0 <= j < |Open(w.phase)| ==> Open(w.phase)[j] < |w.submitted|)
  }

  lemma OwnTextsStep(maxBatch: nat, w: Worker, step: Step, v: Worker)
    requires w.taken <= |w.submitted| && OwnTexts(w) && Next(maxBatch, w, step, v)
    ensures OwnTexts(v)
  {
    hide TextsAt;
    forall b | 0 <= b < |v.batches|
      ensures TextsMatch(v.submitted, v.calls[b], v.batches[b])
    {
      if b < |w.batches| {
        assert TextsMatch(w.submitted, w.calls[b], w.batches[b]);
        assert v.calls[b] == w.calls[b] && v.batches[b] == w.batches[b];
      } else {
        assert Open(w.phase) == w.phase.batch == v.batches[b];
      }
    }
    forall j | 0 <= j < |Open(v.phase)|
      ensures Open(v.phase)[j] < |v.submitted|
    {
      if j < |Open(w.phase)| {
        assert Open(w.phase)[j] < |w.submitted|;
      }
    }
  }

  ghost predicate Inv(maxBatch: nat, w: Worker) {
    && OwnTexts(w)
    && w.taken <= |w.submitted| && |w.batches| == |w.answers|
    && Concat(w.batches) + Open(w.phase) == Upto(w.taken)
    && (forall i :: 0 <= i < |w.batches| ==> 1 <= |w.batches[i]| <= maxBatch)
    && (w.phase.Collecting? ==> 1 <= |w.phase.batch| <= maxBatch)
    && if w.phase.Dispatching? then
         && w.batches != []
         && var last := |w.batches| - 1;
         && w.phase.answer == w.answers[last] && w.phase.next <= |w.batches[last]|
         && w.completions == AllDelivered(w.batches[..last], w.answers[..last])
              + Delivered(w.batches[last], w.answers[last], w.phase.next)
       else w.completions == AllDelivered(w.batches, w.answers)
  }

  lemma TakeInv(maxBatch: nat, w: Worker, step: Step, v: Worker)
    requires maxBatch >= 1 && Inv(maxBatch, w) && Next(maxBatch, w, step, v)
    requires step.Submit? || step.TakeFirst? || step.TakeMore?
    ensures Inv(maxBatch, v)
  {
    OwnTextsStep(maxBatch, w, step, v);
    hide OwnTexts, Concat, AllDelivered, Delivered;
  }

  lemma NoneDelivered(batch: seq<nat>, answer: Answer)
    ensures Delivered(batch, answer, 0) == []
  {
  }

  lemma Snoc<T>(a: seq<T>, x: T)
    ensures (a + [x])[..|a|] == a && (a + [x])[|a|] == x && |a + [x]| == |a| + 1
  {
  }

  lemma InferInv(maxBatch: nat, w: Worker, answer: Answer, v: Worker)
    requires maxBatch >= 1 && Inv(maxBatch, w) && Next(maxBatch, w, Infer(answer), v)
    ensures Inv(maxBatch, v)
  {
    OwnTextsStep(maxBatch, w, Infer(answer), v);
    hide OwnTexts, Concat, AllDelivered, Delivered, TextsAt;
    ConcatSnoc(w.batches, w.phase.batch);
    Snoc(w.batches, w.phase.batch);
    Snoc(w.answers, answer);
    NoneDelivered(w.phase.batch, answer);
    assert Concat(v.batches) + [] == Concat(v.batches);
    assert w.completions + [] == w.completions;
  }

  lemma CompleteInv(maxBatch: nat, w: Worker, v: Worker)
    requires Inv(maxBatch, w) && Next(maxBatch, w, CompleteNext, v)
    ensures Inv(maxBatch, v)
  {
    OwnTextsStep(maxBatch, w, CompleteNext, v);
    var last := |w.batches| - 1;
    var batch := w.batches[last];
    assert Delivered(batch, w.answers[last], w.phase.next + 1) == Delivered(batch, w.answers[last], w.phase.next)
      + [(batch[w.phase.next], OutcomeAt(w.answers[last], |batch|, w.phase.next))];
    hide OwnTexts, Concat, AllDelivered, Delivered;
  }

  lemma FinishInv(maxBatch: nat, w: Worker, v: Worker)
    requires Inv(maxBatch, w) && Next(maxBatch, w, Finish, v)
    ensures Inv(maxBatch, v)
  {
    OwnTextsStep(maxBatch, w, Finish, v);
    hide OwnTexts, Concat, Delivered;
  }

  lemma StepInv(maxBatch: nat, w: Worker, step: Step, v: Worker)
    requires maxBatch >= 1 && Inv(maxBatch, w) && Next(maxBatch, w, step, v)
    ensures Inv(maxBatch, v)
  {
    hide Inv, Next;
    match step {
      case Infer(answer) => InferInv(maxBatch, w, answer, v);
      case CompleteNext => CompleteInv(maxBatch, w, v);
      case Finish => FinishInv(maxBatch, w, v);
      case _ => TakeInv(maxBatch, w, step, v);
    }
  }

  lemma {:induction false} RunInv(maxBatch: nat, ws: seq<Worker>, i: nat)
    requires maxBatch >= 1 && Run(maxBatch, ws) && i < |ws|
    ensures Inv(maxBatch, ws[i])
  {
    if i == 0 {
    } else {
      RunInv(maxBatch, ws, i - 1);
      assert Steps(maxBatch, ws[i - 1], ws[i - 1 + 1]);
      var step :| Next(maxBatch, ws[i - 1], step, ws[i]);
      StepInv(maxBatch, ws[i - 1], step, ws[i]);
    }
  }

  /** In every run the batches, one after the other, are the submission order;
      each holds 1 to maxBatch requests; when the worker waits, all taken
      requests are in them. */
  lemma BatchesAreSubmissionOrder(maxBatch: nat, ws: seq<Worker>, i: nat)
    requires maxBatch >= 1 && Run(maxBatch, ws) && i < |ws|
    ensures Concat(ws[i].batches) + Open(ws[i].phase) == Upto(ws[i].taken) && ws[i].taken <= |ws[i].submitted|
    ensures forall b :: 0 <= b < |ws[i].batches| ==> 1 <= |ws[i].batches[b]| <= maxBatch
  {
    RunInv(maxBatch, ws, i);
  }

  /** Delivery k is the completion of request k with the outcome, in inference
      call b, of position j, and the text at that position is the one submitted. */
  ghost predicate FromCall(w: Worker, k: nat, b: nat, j: nat)
    requires |w.calls| == |w.answers| && k < |w.completions|
  {
    && k < |w.submitted| && b < |w.calls| && j < |w.calls[b]|
    && w.calls[b][j] == w.submitted[k]
    && w.completions[k].0 == k
    && match w.answers[b]
       case Err(e) => w.completions[k].1 == Failed(e)
       case Ok(rows) => w.completions[k].1 == if |rows| == |w.calls[b]| then Success(rows[j]) else Failed(SIZE_MISMATCH)
  }

  function Ids(log: seq<(nat, Outcome)>): seq<nat> {
    if log == [] then [] else [log[0].0] + Ids(log[1..])
  }

  lemma {:induction false} IdsAppend(a: seq<(nat, Outcome)>, b: seq<(nat, Outcome)>)
    ensures Ids(a + b) == Ids(a) + Ids(b)
  {
    if a == [] {
      assert a + b == b;
    } else {
      assert (a + b)[1..] == a[1..] + b;
      IdsAppend(a[1..], b);
    }
  }

  lemma {:induction false} IdAt(log: seq<(nat, Outcome)>, k: nat)
    requires k < |log|
    ensures |Ids(log)| == |log| && Ids(log)[k] == log[k].0
  {
    if k > 0 {
      IdAt(log[1..], k - 1);
    } else if |log| > 1 {
      IdAt(log[1..], 0);
    }
  }

  lemma {:induction false} IdsOfDelivered(batch: seq<nat>, answer: Answer, n: nat)
    requires n <= |batch|
    ensures Ids(Delivered(batch, answer, n)) == batch[..n]
  {
    if n == 0 {
    } else {
      IdsOfDelivered(batch, answer, n - 1);
      var d := (batch[n - 1], OutcomeAt(answer, |batch|, n - 1));
      IdsAppend(Delivered(batch, answer, n - 1), [d]);
      assert Ids([d]) == [d.0] + Ids([]);
      assert batch[..n] == batch[..n - 1] + [batch[n - 1]];
    }
  }

  lemma {:induction false} IdsOfAll(batches: seq<seq<nat>>, answers: seq<Answer>)
    requires |batches| == |answers|
    ensures Ids(AllDelivered(batches, answers)) == Concat(batches)
  {
    if batches == [] {
    } else {
      var last := |batches| - 1;
      IdsOfAll(batches[..last], answers[..last]);
      IdsOfDelivered(batches[last], answers[last], |batches[last]|);
      IdsAppend(AllDelivered(batches[..last], answers[..last]),
        Delivered(batches[last], answers[last], |batches[last]|));
      assert batches == batches[..last] + [batches[last]];
      ConcatSnoc(batches[..last], batches[last]);
      assert batches[last][..|batches[last]|] == batches[last];
    }
  }

  /** The log so far, as a prefix of the deliveries of all batches. */
  lemma LogIsPrefix(maxBatch: nat, w: Worker)
    requires Inv(maxBatch, w)
    ensures w.completions <= AllDelivered(w.batches, w.answers)
    ensures w.phase == Waiting ==> w.completions == AllDelivered(w.batches, w.answers)
  {
    if w.phase.Dispatching? {
      var last := |w.batches| - 1;
      var batch, answer := w.batches[last], w.answers[last];
      var before := AllDelivered(w.batches[..last], w.answers[..last]);
      var whole, part := Delivered(batch, answer, |batch|), Delivered(batch, answer, w.phase.next);
      assert AllDelivered(w.batches, w.answers) == before + whole;
      assert part <= whole;
      hide AllDelivered, Delivered;
      assert before + part <= before + whole;
    }
  }

  /** How much the worker still has to do. */
  function Backlog(w: Worker): nat
    requires w.taken <= |w.submitted|
    requires w.phase.Dispatching? ==> w.batches != [] && w.phase.next <= |w.batches[|w.batches| - 1]|
  {
    4 * (|w.submitted| - w.taken) +
    match w.phase
    case Waiting => 0
    case Collecting(batch) => |batch| + 2
    case Dispatching(_, next) => |w.batches[|w.batches| - 1]| - next + 1
  }

  /** The worker always has a step to take unless it waits and everything
      submitted has been taken, and each of its steps lessens the backlog. So
      when nothing more is submitted it gets to that point, where every request
      has been completed. */
  lemma WorkerProgress(maxBatch: nat, w: Worker, answer: Answer) returns (step: Step, v: Worker)
    requires maxBatch >= 1 && Inv(maxBatch, w)
    ensures w.phase == Waiting && w.taken == |w.submitted| ==> |w.completions| == |w.submitted|
    ensures w.phase != Waiting || w.taken < |w.submitted| ==>
      !step.Submit? && Next(maxBatch, w, step, v) && Inv(maxBatch, v)
    ensures forall s: Step, t :: !s.Submit? && Next(maxBatch, w, s, t) ==> Inv(maxBatch, t) && Backlog(t) < Backlog(w)
  {
    forall s: Step, t | !s.Submit? && Next(maxBatch, w, s, t)
      ensures Inv(maxBatch, t) && Backlog(t) < Backlog(w)
    {
      StepInv(maxBatch, w, s, t);
      BacklogFalls(maxBatch, w, s, t);
    }
    hide Inv;
    step, v := WorkerStep(maxBatch, w, answer);
    if w.phase != Waiting || w.taken < |w.submitted| {
      StepInv(maxBatch, w, step, v);
    } else {
      WaitingIsDone(maxBatch, w);
    }
  }

  lemma BacklogFalls(maxBatch: nat, w: Worker, step: Step, v: Worker)
    requires Inv(maxBatch, w) && Inv(maxBatch, v) && Next(maxBatch, w, step, v) && !step.Submit?
    ensures Backlog(v) < Backlog(w)
  {
    hide Concat, AllDelivered, Delivered, OwnTexts;
  }

  lemma WorkerStep(maxBatch: nat, w: Worker, answer: Answer) returns (step: Step, v: Worker)
    requires Inv(maxBatch, w)
    ensures w.phase != Waiting || w.taken < |w.submitted| ==> !step.Submit? && Next(maxBatch, w, step, v)
  {
    hide Concat, AllDelivered, Delivered, OwnTexts, TextsAt;
    step, v := Finish, w;
    match w.phase {
      case Waiting =>
        step, v := TakeFirst, w.(taken := w.taken + 1, phase := Collecting([w.taken]));
      case Collecting(batch) =>
        step := Infer(answer);
        v := w.(phase := Dispatching(answer, 0), batches := w.batches + [batch],
                calls := w.calls + [TextsAt(w.submitted, batch)], answers := w.answers + [answer]);
      case Dispatching(current, next) =>
        var batch := w.batches[|w.batches| - 1];
        if next == |batch| {
          v := w.(phase := Waiting);
        } else {
          step := CompleteNext;
          v := w.(phase := w.phase.(next := next + 1),
                  completions := w.completions + [(batch[next], OutcomeAt(current, |batch|, next))]);
        }
    }
  }

  lemma WaitingIsDone(maxBatch: nat, w: Worker)
    requires Inv(maxBatch, w) && w.phase == Waiting
    ensures |w.completions| == w.taken
  {
    LogIsPrefix(maxBatch, w);
    IdsOfAll(w.batches, w.answers);
    IdsLength(w.completions);
    hide AllDelivered, Ids, OwnTexts;
    assert Concat(w.batches) + Open(w.phase) == Concat(w.batches);
  }

  /** Every future is completed at most once and in submission order: delivery k
      is the completion of request k. When the worker waits, every taken request
      has been completed. */
  lemma EachCompletedOnce(maxBatch: nat, ws: seq<Worker>, i: nat, k: nat)
    requires maxBatch >= 1 && Run(maxBatch, ws) && i < |ws|
    ensures k < |ws[i].completions| ==> ws[i].completions[k].0 == k < ws[i].taken
    ensures ws[i].phase == Waiting ==> |ws[i].completions| == ws[i].taken
  {
    var w := ws[i];
    RunInv(maxBatch, ws, i);
    LogIsPrefix(maxBatch, w);
    IdsOfAll(w.batches, w.answers);
    var all := AllDelivered(w.batches, w.answers);
    IdsLength(all);
    hide AllDelivered, Ids, Concat;
    assert |Concat(w.batches)| <= |Upto(w.taken)| == w.taken;
    if k < |w.completions| {
      IdAt(all, k);
      assert w.completions[k] == all[k];
      assert Concat(w.batches)[k] == (Concat(w.batches) + Open(w.phase))[k] == Upto(w.taken)[k];
    }
  }

  lemma IdsLength(log: seq<(nat, Outcome)>)
    ensures |Ids(log)| == |log|
  {
    if log != [] {
      IdAt(log, 0);
    }
  }

  /** Each delivery is a request's own row of its batch's result, at the position
      where inference was given the request's text, or the exception shared by
      its batch. */
  lemma EachGetsItsOwnOutcome(maxBatch: nat, ws: seq<Worker>, i: nat, k: nat)
    requires maxBatch >= 1 && Run(maxBatch, ws) && i < |ws| && k < |ws[i].completions|
    ensures |ws[i].calls| == |ws[i].answers|
    ensures exists b: nat, j: nat :: FromCall(ws[i], k, b, j)
  {
    var w := ws[i];
    RunInv(maxBatch, ws, i);
    LogIsPrefix(maxBatch, w);
    EachCompletedOnce(maxBatch, ws, i, k);
    var b, j := Locate(w.batches, w.answers, k);
    assert FromCall(w, k, b, j) by {
      assert w.batches[b][j] == k;
    }
  }

  /** Every answer has the row of each text it was given. */
  ghost predicate RowByRow(w: Worker, row: string -> Row)
    requires |w.calls| == |w.answers|
  {
    forall b :: 0 <= b < |w.calls| ==> HasRows(w.answers[b], w.calls[b], row)
  }

  /** If inference treats its texts one by one, batching does not show: request k
      gets the row of its own text, whatever batch it was in. */
  lemma BatchingDoesNotShow(maxBatch: nat, ws: seq<Worker>, i: nat, k: nat, row: string -> Row)
    requires maxBatch >= 1 && Run(maxBatch, ws) && i < |ws| && k < |ws[i].completions|
    requires |ws[i].calls| == |ws[i].answers| && RowByRow(ws[i], row)
    ensures k < |ws[i].submitted| && ws[i].completions[k] == (k, Success(row(ws[i].submitted[k])))
  {
    EachGetsItsOwnOutcome(maxBatch, ws, i, k);
    var b: nat, j: nat :| FromCall(ws[i], k, b, j);
  }

  lemma {:induction false} Locate(batches: seq<seq<nat>>, answers: seq<Answer>, k: nat) returns (b: nat, j: nat)
    requires |batches| == |answers| && k < |AllDelivered(batches, answers)|
    ensures b < |batches| && j < |batches[b]|
    ensures AllDelivered(batches, answers)[k] == (batches[b][j], OutcomeAt(answers[b], |batches[b]|, j))
  {
    var last := |batches| - 1;
    var front := AllDelivered(batches[..last], answers[..last]);
    if k < |front| {
      b, j := Locate(batches[..last], answers[..last], k);
    } else {
      b, j := last, k - |front|;
    }
  }
}
