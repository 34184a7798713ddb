/**
 Connection slots (src/handlers/connections.py). A connect or disconnect is
 several steps, at its awaits; any number of them interleave.
 */
module Connections {
  import opened Options

  /** free: permits of the semaphore. active: the tracked sockets. joining: the
      sockets that hold a permit and are not tracked yet. leaving: removals whose
      permit is not released yet. */
  datatype Slots<W> = Slots(free: nat, active: set<W>, joining: multiset<W>, leaving: nat)

  datatype Step<W> =
    | Acquire(w: W)       // connect: semaphore acquired
    | Reject(w: W)        // connect: timed out
    | Track(w: W)         // connect: added under the lock
    | TrackFails(w: W)    // connect: exception while adding, permit released
    | Remove(w: W)        // disconnect: removed under the lock
    | RemoveNothing(w: W) // disconnect of an untracked socket
    | Release             // disconnect: permit released

  function Init<W>(max: nat): Slots<W> {
    Slots(max, {}, multiset{}, 0)
  }

  ghost predicate Next<W(!new)>(s: Slots<W>, step: Step<W>, t: Slots<W>) {
    match step
    case Acquire(w) => s.free > 0 && t == s.(free := s.free - 1, joining := s.joining + multiset{w})
    case Reject(w) => t == s
    case Track(w) => w in s.joining && t == s.(active := s.active + {w}, joining := s.joining - multiset{w})
    case TrackFails(w) => w in s.joining && t == s.(free := s.free + 1, joining := s.joining - multiset{w})
    case Remove(w) => w in s.active && t == s.(active := s.active - {w}, leaving := s.leaving + 1)
    case RemoveNothing(w) => w !in s.active && t == s
    case Release => s.leaving > 0 && t == s.(free := s.free + 1, leaving := s.leaving - 1)
  }

  function Accounted<W>(s: Slots<W>): nat {
    s.free + |s.active| + |s.joining| + s.leaving
  }

  /** No step ever changes the number of accounted slots, except that tracking
      a socket that is tracked already loses one. */
  lemma StepAccounts<W(!new)>(s: Slots<W>, step: Step<W>, t: Slots<W>)
    requires Next(s, step, t)
    ensures Accounted(t) == Accounted(s) - if step.Track? && step.w in s.active then 1 else 0
  {
    match step {
      case Track(w) =>
        assert w in s.active ==> s.active + {w} == s.active;
      case _ =>
    }
  }

  /** A run, with the step taken at each point. */
  ghost predicate Run<W(!new)>(max: nat, ss: seq<Slots<W>>, steps: seq<Step<W>>) {
    && |ss| == |steps| + 1 && ss[0] == Init(max)
    && forall i :: 0 <= i < |steps| ==> Next(ss[i], steps[i], ss[i + 1])
  }

  /** How many times a run tracks a socket that is tracked already. */
  ghost function Retracked<W(!new)>(ss: seq<Slots<W>>, steps: seq<Step<W>>): (n: nat)
    requires |ss| == |steps| + 1
  {
    if steps == [] then 0
    else
      var last := |steps| - 1;
      Retracked(ss[..|ss| - 1], steps[..last])
      + if steps[last].Track? && steps[last].w in ss[last].active then 1 else 0
  }

  /** The points of the run where that happens. */
  ghost function RetrackedAt<W(!new)>(ss: seq<Slots<W>>, steps: seq<Step<W>>): set<nat>
    requires |ss| == |steps| + 1
  {
    set i: nat | i < |steps| && steps[i].Track? && steps[i].w in ss[i].active
  }

  lemma {:induction false} RetrackedIsCount<W(!new)>(ss: seq<Slots<W>>, steps: seq<Step<W>>)
    requires |ss| == |steps| + 1
    ensures Retracked(ss, steps) == |RetrackedAt(ss, steps)|
  {
    if steps == [] {
      assert RetrackedAt(ss, steps) == {};
    } else {
      var last := |steps| - 1;
      RetrackedIsCount(ss[..|ss| - 1], steps[..last]);
      var front := RetrackedAt(ss[..|ss| - 1], steps[..last]);
      if steps[last].Track? && steps[last].w in ss[last].active {
        assert RetrackedAt(ss, steps) == front + {last};
      } else {
        assert RetrackedAt(ss, steps) == front;
      }
    }
  }

  /** Over all interleavings: slots are lost exactly by tracking a tracked socket again. */
  lemma {:induction false} RunAccounts<W(!new)>(max: nat, ss: seq<Slots<W>>, steps: seq<Step<W>>)
    requires Run(max, ss, steps)
    ensures Accounted(ss[|steps|]) + Retracked(ss, steps) == max
  {
    if steps == [] {
    } else {
      var last := |steps| - 1;
      var front, frontSteps := ss[..|ss| - 1], steps[..last];
      assert Run(max, front, frontSteps) by {
        forall i | 0 <= i < |frontSteps|
          ensures Next(front[i], frontSteps[i], front[i + 1])
        {
          assert Next(ss[i], steps[i], ss[i + 1]);
        }
      }
      RunAccounts(max, front, frontSteps);
      assert front[last] == ss[last];
      StepAccounts(ss[last], steps[last], ss[last + 1]);
    }
  }

  /** With distinct sockets every slot is accounted for, so no more than the
      maximum are ever tracked, and the semaphore never grows beyond it. */
  lemma SlotsAreConserved<W(!new)>(max: nat, ss: seq<Slots<W>>, steps: seq<Step<W>>)
    requires Run(max, ss, steps)
    requires forall i :: 0 <= i < |steps| && steps[i].Track? ==> steps[i].w !in ss[i].active
    ensures var s := ss[|steps|]; s.free + |s.active| + |s.joining| + s.leaving == max
    ensures |ss[|steps|].active| <= max && ss[|steps|].free <= max
  {
    RunAccounts(max, ss, steps);
    NoneRetracked(ss, steps);
  }

  lemma {:induction false} NoneRetracked<W(!new)>(ss: seq<Slots<W>>, steps: seq<Step<W>>)
    requires |ss| == |steps| + 1
    requires forall i :: 0 <= i < |steps| && steps[i].Track? ==> steps[i].w !in ss[i].active
    ensures Retracked(ss, steps) == 0
  {
    if steps == [] {
    } else {
      NoneRetracked(ss[..|ss| - 1], steps[..|steps| - 1]);
    }
  }

  /** Even with repeated sockets the tracked ones never exceed the maximum. */
  lemma NeverOverCapacity<W(!new)>(max: nat, ss: seq<Slots<W>>, steps: seq<Step<W>>)
    requires Run(max, ss, steps)
    ensures |ss[|steps|].active| <= max
  {
    RunAccounts(max, ss, steps);
  }

  /** Connecting a socket twice does lose a slot. */
  lemma RetrackingLosesASlot<W(!new)>(max: nat, w: W)
    requires max >= 2
    ensures exists ss: seq<Slots<W>>, steps ::
      Run(max, ss, steps) && steps == [Acquire(w), Track(w), Acquire(w), Track(w)]
      && Accounted(ss[|steps|]) == max - 1
  {
    var s0 := Init<W>(max);
    var s1 := s0.(free := max - 1, joining := multiset{w});
    var s2 := s1.(active := {w}, joining := multiset{});
    var s3 := s2.(free := max - 2, joining := multiset{w});
    var s4 := s3.(joining := multiset{});
    var ss, steps := [s0, s1, s2, s3, s4], [Acquire(w), Track(w), Acquire(w), Track(w)];
    assert Next(s0, Acquire(w), s1) && Next(s1, Track(w), s2) && Next(s2, Acquire(w), s3) && Next(s3, Track(w), s4);
    assert Run(max, ss, steps);
    assert Accounted(ss[|steps|]) == max - 1;
  }

  // ------------------------------------------------------------------
  // The handler object, one step at a time
  // ------------------------------------------------------------------

  class ConnectionHandler<W(==, !new)> {
    const maxConnections: nat
    var activeConnections: set<W>
    var permits: nat
    /** Calls that are between two of their steps. */
    ghost var joining: multiset<W>
    ghost var leaving: nat

    ghost function View(): Slots<W>
      reads this
    {
      Slots(permits, activeConnections, joining, leaving)
    }

    constructor (maxConnections: nat)
      ensures this.maxConnections == maxConnections && View() == Init(maxConnections)
    {
      this.maxConnections, permits := maxConnections, maxConnections;
      activeConnections, joining, leaving := {}, multiset{}, 0;
    }

    /** timedOut: the wait for a permit ended without one. */
    method TryAcquire(w: W, timedOut: bool) returns (acquired: bool)
      requires permits == 0 ==> timedOut
      modifies this
      ensures acquired == !timedOut
      ensures Next(old(View()), if acquired then Acquire(w) else Reject(w), View())
    {
      if timedOut {
        return false;
      }
      permits := permits - 1;
      joining := joining + multiset{w};
      return true;
    }

    method AddConnection(w: W)
      requires w in joining
      modifies this
      ensures Next(old(View()), Track(w), View())
    {
      activeConnections := activeConnections + {w};
      joining := joining - multiset{w};
    }

    /** Whether a permit is to be released. */
    method RemoveConnection(w: W) returns (shouldRelease: bool)
      modifies this
      ensures shouldRelease == (w in old(activeConnections)) && w !in activeConnections
      ensures Next(old(View()), if shouldRelease then Remove(w) else RemoveNothing(w), View())
    {
      shouldRelease := false;
      if w in activeConnections {
        activeConnections := activeConnections - {w};
        shouldRelease := true;
        leaving := leaving + 1;
      }
    }

    method ReleasePermit()
      requires leaving > 0
      modifies this
      ensures Next(old(View()), Release, View())
    {
      permits := permits + 1;
      leaving := leaving - 1;
    }

    /** The exception path of a connect: the permit goes back. */
    method GiveUp(w: W)
      requires w in joining
      modifies this
      ensures Next(old(View()), TrackFails(w), View())
    {
      permits := permits + 1;
      joining := joining - multiset{w};
    }

    /** fails: adding the socket raises. */
    method Connect(w: W, timedOut: bool, fails: bool) returns (r: Result<bool, ()>)
      requires permits == 0 ==> timedOut
      modifies this
      ensures r == if timedOut then Ok(false) else if fails then Err(()) else Ok(true)
      ensures r == Ok(true) ==>
        View() == old(View()).(free := old(permits) - 1, active := old(activeConnections) + {w})
      ensures r != Ok(true) ==> View() == old(View())
    {
      var acquired := TryAcquire(w, timedOut);
      if !acquired {
        return Ok(false);
      }
      if fails {
        GiveUp(w);
        assert joining == old(joining);
        return Err(());
      }
      AddConnection(w);
      assert joining == old(joining);
      return Ok(true);
    }

    /** A second disconnect of the same socket releases nothing. */
    method Disconnect(w: W)
      modifies this
      ensures w in old(activeConnections) ==>
        View() == old(View()).(free := old(permits) + 1, active := old(activeConnections) - {w})
      ensures w !in old(activeConnections) ==> View() == old(View())
      ensures w !in activeConnections
    {
      var shouldRelease := RemoveConnection(w);
      if shouldRelease {
        ReleasePermit();
      }
    }
  }
}
