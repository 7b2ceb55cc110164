/** The outbound batches of state deltas in pbft/mvss_delta.go: deltas for a target shard
    are collected and sent together at the end of a block or when a timer fires. Each
    operation is taken as one step, at a time given by a clock that never goes back. */
module Outbound {
  import D = DeltaSync
  import opened Wrappers

  type Delta = D.Delta

  /** What is kept for one target shard, and the batches sent to it so far. */
  datatype Line = Line(queue: seq<Delta>, start: Option<int>, timer: Option<int>, sent: seq<seq<Delta>>)

  const EMPTY := Line([], None, None, [])

  predicate SameKey(d: Delta, e: Delta) {
    d.address == e.address && d.startN == e.startN && d.endN == e.endN
  }

  predicate Holds(queue: seq<Delta>, d: Delta) {
    exists e :: e in queue && SameKey(e, d)
  }

  function Offered(l: Line, d: Delta, now: int, window: nat): Line {
    if d.ack || Holds(l.queue, d) then l
    else if l.queue != [] then l.(queue := l.queue + [d])
    else l.(queue := [d], start := Some(now), timer := if window > 0 then Some(now + window) else l.timer)
  }

  function Flushed(l: Line, force: bool, now: int, window: nat): Line {
    if l.queue == [] then l
    else if !force && window > 0 && l.start.Some? && now - l.start.value < window then l
    else Line([], None, None, l.sent + [l.queue])
  }

  /** A delta joins the queue exactly if it is no ack and its segment of its account is not
      waiting; the first one starts the window. */
  lemma OfferRule(l: Line, d: Delta, now: int, window: nat)
    ensures
      var k := Offered(l, d, now, window);
      var joins := !d.ack && forall e :: e in l.queue ==>
                     d.address != e.address || d.startN != e.startN || d.endN != e.endN;
      && k.queue == l.queue + (if joins then [d] else []) && k.sent == l.sent
      && (joins && l.queue == [] ==> k.start == Some(now) && (window > 0 ==> k.timer == Some(now + window)))
      && (!joins || l.queue != [] ==> k.start == l.start)
      && (!joins || l.queue != [] || window == 0 ==> k.timer == l.timer)
  {
    assert l.queue + [] == l.queue;
  }

  /** The whole queue goes as one batch, but not within the window unless forced. */
  lemma FlushRule(l: Line, force: bool, now: int, window: nat)
    ensures
      var k := Flushed(l, force, now, window);
      var goes := l.queue != [] && (force || l.start.None? || now >= l.start.value + window || window == 0);
      && k.queue == (if goes then [] else l.queue) && k.sent == l.sent + (if goes then [l.queue] else [])
      && k.start == (if goes then None else l.start) && k.timer == (if goes then None else l.timer)
  {
    assert l.sent + [] == l.sent;
  }

  // ---------------------------------------------------------------------------
  // Runs

  datatype Event = Offer(d: Delta, now: int) | TimerFires(now: int) | BlockEnds(now: int)

  function Step(l: Line, e: Event, window: nat): Line {
    match e
    case Offer(d, now) => Offered(l, d, now, window)
    case TimerFires(now) => Flushed(l, true, now, window)
    case BlockEnds(now) => Flushed(l, window == 0, now, window)
  }

  function Run(events: seq<Event>, window: nat): Line {
    if events == [] then EMPTY else Step(Run(events[..|events| - 1], window), events[|events| - 1], window)
  }

  /** The deltas offered, without acks and without those whose key was waiting already. */
  function Accepted(events: seq<Event>, window: nat): seq<Delta> {
    if events == [] then [] else
    var front := events[..|events| - 1];
    Accepted(front, window) + Gained(Run(front, window), events[|events| - 1])
  }

  function Flat(batches: seq<seq<Delta>>): seq<Delta> {
    if batches == [] then [] else Flat(batches[..|batches| - 1]) + batches[|batches| - 1]
  }

  /** What one event accepts. */
  function Gained(l: Line, e: Event): seq<Delta> {
    if e.Offer? && !e.d.ack && !Holds(l.queue, e.d) then [e.d] else []
  }

  lemma StepKeepsOrder(l: Line, e: Event, window: nat)
    ensures
      var k := Step(l, e, window);
      Flat(k.sent) + k.queue == Flat(l.sent) + l.queue + Gained(l, e)
  {
  }

  /** Nothing accepted is lost, doubled or reordered on its way through the batches. */
  lemma {:induction false} RunKeepsOrder(events: seq<Event>, window: nat)
    ensures
      var l := Run(events, window);
      Flat(l.sent) + l.queue == Accepted(events, window)
  {
    hide Step, Holds, Flat;
    if events == [] {
      NoBatch();
    } else {
      var front := events[..|events| - 1];
      RunKeepsOrder(front, window);
      StepKeepsOrder(Run(front, window), events[|events| - 1], window);
    }
  }

  lemma NoBatch()
    ensures Flat([]) == []
  {
  }

  ghost predicate NoRepeats(batch: seq<Delta>) {
    forall i, j :: 0 <= i < j < |batch| ==> !SameKey(batch[i], batch[j])
  }

  /** No batch, sent or waiting, names the same segment of an account twice. */
  lemma {:induction false} BatchesDoNotRepeat(events: seq<Event>, window: nat)
    ensures
      var l := Run(events, window);
      NoRepeats(l.queue) && forall b :: b in l.sent ==> NoRepeats(b)
  {
    if events != [] { BatchesDoNotRepeat(events[..|events| - 1], window); }
  }

  /** A batch is waiting exactly when its timer is armed, for one window after it began,
      if there is a window at all; without one no timer is ever armed. */
  lemma {:induction false} TimerIsArmed(events: seq<Event>, window: nat)
    ensures
      var l := Run(events, window);
      && (l.queue != [] <==> l.start.Some?)
      && (window > 0 && l.queue != [] ==> l.timer == Some(l.start.value + window))
      && (l.timer.Some? ==> window > 0 && l.queue != [])
  {
    if events != [] { TimerIsArmed(events[..|events| - 1], window); }
  }

  /** Without a window nothing is left waiting at the end of a block. */
  lemma NothingWaitsAfterBlock(events: seq<Event>, now: int)
    ensures Run(events + [BlockEnds(now)], 0).queue == []
  {
    assert (events + [BlockEnds(now)])[..|events|] == events;
  }

  function Time(e: Event): int {
    e.now
  }

  /** No event comes after the deadline of a timer that is armed before it: the timer fires
      in time. */
  ghost predicate Punctual(events: seq<Event>, window: nat) {
    forall i :: 0 <= i < |events| && Run(events[..i], window).timer.Some? ==>
      Time(events[i]) <= Run(events[..i], window).timer.value
  }

  ghost predicate ClockRuns(events: seq<Event>) {
    forall i, j :: 0 <= i < j < |events| ==> Time(events[i]) <= Time(events[j])
  }

  /** When each waiting delta was offered. */
  function Since(events: seq<Event>, window: nat): seq<int> {
    if events == [] then [] else
    var front, e := events[..|events| - 1], events[|events| - 1];
    if Run(events, window).queue == [] then []
    else if Gained(Run(front, window), e) != [] then Since(front, window) + [e.now]
    else Since(front, window)
  }

  lemma {:induction false} WaitingSince(events: seq<Event>, window: nat)
    requires ClockRuns(events)
    ensures
      var l := Run(events, window);
      && |Since(events, window)| == |l.queue|
      && (l.queue != [] ==> l.start.Some? && l.start.value <= Time(events[|events| - 1]))
      && forall i :: 0 <= i < |l.queue| ==> l.start.value <= Since(events, window)[i]
  {
    hide Holds;
    if events != [] {
      var front := events[..|events| - 1];
      assert forall i :: 0 <= i < |front| ==> front[i] == events[i];
      WaitingSince(front, window);
      TimerIsArmed(events, window);
      TimerIsArmed(front, window);
    }
  }

  /** With timers that fire in time, no delta that is waiting when something happens has
      waited longer than the window. */
  lemma WaitIsBounded(events: seq<Event>, window: nat, e: Event)
    requires window > 0 && ClockRuns(events + [e]) && Punctual(events + [e], window)
    ensures |Since(events, window)| == |Run(events, window).queue|
    ensures forall i :: 0 <= i < |Since(events, window)| ==> Time(e) - Since(events, window)[i] <= window
  {
    var all := events + [e];
    assert all[..|events|] == events && all[|events|] == e;
    assert forall i :: 0 <= i < |events| ==> all[i] == events[i];
    WaitingSince(events, window);
    TimerIsArmed(events, window);
  }

  // ---------------------------------------------------------------------------
  // The queues of all target shards, updated in place

  class OutboundQueues {
    const window: nat
    var byTarget: map<int, seq<Delta>>
    var start: map<int, int>
    var timer: map<int, int>
    ghost var sent: map<int, seq<seq<Delta>>>

    ghost function LineOf(target: int): Line
      reads this
    {
      Line(if target in byTarget then byTarget[target] else [],
           if target in start then Some(start[target]) else None,
           if target in timer then Some(timer[target]) else None,
           if target in sent then sent[target] else [])
    }

    constructor (window: nat)
      ensures this.window == window && forall t :: LineOf(t) == EMPTY
    {
      this.window := window;
      byTarget, start, timer, sent := map[], map[], map[], map[];
    }

    method Enqueue(d: Delta, target: int, now: int)
      modifies this
      ensures LineOf(target) == Offered(old(LineOf(target)), d, now, window)
      ensures forall t :: t != target ==> LineOf(t) == old(LineOf(t))
    {
      if d.ack {
        return;
      }
      var queue := if target in byTarget then byTarget[target] else [];
      for i := 0 to |queue|
        invariant forall j :: 0 <= j < i ==> !SameKey(queue[j], d)
        invariant forall t :: LineOf(t) == old(LineOf(t))
      {
        if SameKey(queue[i], d) {
          return;
        }
      }
      var firstInBatch := |queue| == 0;
      if firstInBatch {
        start := start[target := now];
      }
      byTarget := byTarget[target := queue + [d]];
      if window > 0 && firstInBatch {
        timer := timer[target := now + window];
      }
    }

    method Flush(target: int, force: bool, now: int)
      modifies this
      ensures LineOf(target) == Flushed(old(LineOf(target)), force, now, window)
      ensures forall t :: t != target ==> LineOf(t) == old(LineOf(t))
    {
      var batch := if target in byTarget then byTarget[target] else [];
      if |batch| == 0 {
        return;
      }
      if !force && window > 0 && target in start && now - start[target] < window {
        return;
      }
      sent := sent[target := (if target in sent then sent[target] else []) + [batch]];
      byTarget, start, timer := byTarget - {target}, start - {target}, timer - {target};
    }

    /** The end of a block flushes every queue, at once when there is no window. */
    method FlushAllAtBlockEnd(now: int)
      modifies this
      ensures forall t :: LineOf(t) == Flushed(old(LineOf(t)), window == 0, now, window)
    {
      var left := byTarget.Items;
      while left != {}
        invariant forall t, q :: (t, q) in left ==> t in old(byTarget) && old(byTarget)[t] == q
        invariant forall t :: t in old(byTarget) && (t, old(byTarget)[t]) in left ==> LineOf(t) == old(LineOf(t))
        invariant forall t :: !(t in old(byTarget) && (t, old(byTarget)[t]) in left) ==>
                    LineOf(t) == Flushed(old(LineOf(t)), window == 0, now, window)
        decreases |left|
      {
        var item :| item in left;
        left := left - {item};
        Flush(item.0, window == 0, now);
      }
    }
  }
}
