/** The error recovery of `subscribeToDevices` and `subscribeToAlerts`
    (lib/firebase-service.ts:191-260). Both keep a retry counter and re-subscribe
    after an error, up to three times, with a linearly growing delay; a snapshot
    resets the counter. Listeners are numbered in the order they are attached. */
module Subscription {
  import opened Wrappers

  /** At most three re-subscriptions without a snapshot in between. */
  const MaxRetries: nat := 3

  /** The delay before re-subscription `n` is `n` seconds. */
  const DelayStep: nat := 1000

  /** Whatever can happen to a subscription. Errors and snapshots name the
      listener that reports them; a listener that is not attached reports nothing. */
  datatype Event =
    | Snapshot(listener: nat)
    | Failure(listener: nat)
    | TimerFires
    | Unsubscribe

  /** The closure state of one `subscribeTo…` call: the retry counter, the
      attached listeners, the handle that was returned to the caller, the number
      of the next listener, and how many re-subscriptions are waiting on a timer. */
  datatype Sub = Sub(retryCount: nat, live: set<nat>, handle: nat, next: nat, pending: nat)

  /** The call itself attaches listener 0 and returns its handle. */
  function Subscribe(): (s: Sub)
    ensures s.live == {s.handle} && s.retryCount == 0 && s.pending == 0
  {
    Sub(0, {0}, 0, 1, 0)
  }

  /** The counter never passes the limit. */
  predicate Valid(s: Sub) {
    s.retryCount <= MaxRetries
  }

  /** The state after an event, and the delay of the re-subscription it scheduled, if any. */
  datatype Stepped = Stepped(sub: Sub, scheduled: Option<nat>, delivered: bool)

  /** The reaction to one event, as the code is written. */
  function Step(s: Sub, e: Event): (r: Stepped)
    requires Valid(s)
    ensures Valid(r.sub)
    ensures r.delivered <==> e.Snapshot? && e.listener in s.live
    ensures r.delivered ==> r.sub.retryCount == 0
    ensures r.scheduled.Some? <==> e.Failure? && e.listener in s.live && s.retryCount < MaxRetries
    ensures r.scheduled.Some? ==> r.sub.retryCount == s.retryCount + 1
                                  && r.scheduled.value == DelayStep * r.sub.retryCount
                                  && r.sub.pending == s.pending + 1
    ensures !e.Snapshot? && r.scheduled.None? ==> r.sub.retryCount == s.retryCount
  {
    match e
    case Snapshot(l) =>
      if l in s.live then Stepped(s.(retryCount := 0), None, true) else Stepped(s, None, false)
    case Failure(l) =>
      if l !in s.live then Stepped(s, None, false)
      else
        var detached := s.(live := s.live - {l});
        if s.retryCount < MaxRetries then
          var n := s.retryCount + 1;
          Stepped(detached.(retryCount := n, pending := s.pending + 1), Some(DelayStep * n), false)
        else Stepped(detached, None, false)
    case TimerFires =>
      if s.pending == 0 then Stepped(s, None, false)
      else Stepped(s.(live := s.live + {s.next}, next := s.next + 1, pending := s.pending - 1), None, false)
    case Unsubscribe =>
      Stepped(s.(live := s.live - {s.handle}), None, false)
  }

  /** A run of events: the final state and the delays of every re-subscription scheduled. */
  datatype Trace = Trace(sub: Sub, delays: seq<nat>)

  function Run(s: Sub, events: seq<Event>): (r: Trace)
    requires Valid(s)
    ensures Valid(r.sub)
    decreases |events|
  {
    if |events| == 0 then Trace(s, [])
    else
      var st := Step(s, events[0]);
      var rest := Run(st.sub, events[1..]);
      Trace(rest.sub, (if st.scheduled.Some? then [st.scheduled.value] else []) + rest.delays)
  }

  /** No snapshot among the events. */
  predicate NoSnapshots(events: seq<Event>) {
    forall i :: 0 <= i < |events| ==> !events[i].Snapshot?
  }

  /** Without a snapshot in between, the re-subscriptions scheduled are at most the
      retries left, and their delays grow linearly: the `n`-th retry waits `n` seconds. */
  lemma {:induction false} RetriesAreBounded(s: Sub, events: seq<Event>)
    requires Valid(s) && NoSnapshots(events)
    ensures |Run(s, events).delays| <= MaxRetries - s.retryCount
    ensures Run(s, events).sub.retryCount == s.retryCount + |Run(s, events).delays|
    ensures forall i :: 0 <= i < |Run(s, events).delays| ==> Run(s, events).delays[i] == DelayStep * (s.retryCount + i + 1)
    decreases |events|
  {
    if |events| != 0 {
      var st := Step(s, events[0]);
      assert NoSnapshots(events[1..]) by {
        forall i | 0 <= i < |events| - 1
          ensures !events[1..][i].Snapshot?
        {
          assert events[1..][i] == events[i + 1];
        }
      }
      RetriesAreBounded(st.sub, events[1..]);
    }
  }

  /** A snapshot from an attached listener restores the full retry budget. */
  lemma SnapshotResets(s: Sub, l: nat)
    requires Valid(s) && l in s.live
    ensures Step(s, Snapshot(l)).sub.retryCount == 0
    ensures Step(s, Snapshot(l)).delivered
  {
  }

  /** The handle the caller holds names only the first listener: after one error and
      the re-subscription it schedules, unsubscribing leaves the new listener attached. */
  lemma UnsubscribeLeaksResubscription()
    ensures Run(Subscribe(), [Failure(0), TimerFires, Unsubscribe]).sub.live == {1}
  {
    var s0 := Subscribe();
    var s1 := Step(s0, Failure(0)).sub;
    assert s1.live == {} && s1.pending == 1;
    var s2 := Step(s1, TimerFires).sub;
    assert s2.live == {1};
    var s3 := Step(s2, Unsubscribe).sub;
    assert s3.live == {1};
    assert [Failure(0), TimerFires, Unsubscribe][1..] == [TimerFires, Unsubscribe];
    assert [TimerFires, Unsubscribe][1..] == [Unsubscribe];
  }

  // ---------------------------------------------------------------------------
  // The evident intent: unsubscribing stops the subscription for good
  // ---------------------------------------------------------------------------

  /** The same machine, where the handle always names the current listener and an
      unsubscribe also cancels any waiting re-subscription. */
  datatype Tracked = Tracked(retryCount: nat, live: set<nat>, next: nat, pending: nat, closed: bool)

  function SubscribeTracked(): (s: Tracked)
    ensures s.live == {0} && !s.closed
  {
    Tracked(0, {0}, 1, 0, false)
  }

  /** At most one listener is attached, and none once the subscription is closed. */
  predicate TrackedValid(s: Tracked) {
    s.retryCount <= MaxRetries && (s.live == {} || s.live == {s.next - 1}) && (s.closed ==> s.live == {} && s.pending == 0)
  }

  function StepTracked(s: Tracked, e: Event): (r: Tracked)
    requires TrackedValid(s) && 0 < s.next
    ensures TrackedValid(r) && 0 < r.next
    ensures e.Unsubscribe? ==> r.live == {} && r.closed
    ensures s.closed ==> r.closed
  {
    match e
    case Snapshot(l) =>
      if l in s.live then s.(retryCount := 0) else s
    case Failure(l) =>
      if l !in s.live then s
      else if s.retryCount < MaxRetries then s.(live := {}, retryCount := s.retryCount + 1, pending := s.pending + 1)
      else s.(live := {})
    case TimerFires =>
      if s.pending == 0 || s.closed || s.live != {} then s.(pending := if s.pending == 0 then 0 else s.pending - 1)
      else s.(live := {s.next}, next := s.next + 1, pending := s.pending - 1)
    case Unsubscribe =>
      s.(live := {}, pending := 0, closed := true)
  }

  function RunTracked(s: Tracked, events: seq<Event>): (r: Tracked)
    requires TrackedValid(s) && 0 < s.next
    ensures TrackedValid(r) && 0 < r.next
    decreases |events|
  {
    if |events| == 0 then s else RunTracked(StepTracked(s, events[0]), events[1..])
  }

  /** Once unsubscribed, no event attaches a listener again. */
  lemma {:induction false} UnsubscribeIsFinal(s: Tracked, events: seq<Event>)
    requires TrackedValid(s) && 0 < s.next
    ensures RunTracked(StepTracked(s, Unsubscribe), events).live == {}
    decreases |events|
  {
    var u := StepTracked(s, Unsubscribe);
    ClosedStaysClosed(u, events);
  }

  lemma {:induction false} ClosedStaysClosed(s: Tracked, events: seq<Event>)
    requires TrackedValid(s) && 0 < s.next && s.closed
    ensures RunTracked(s, events).closed
    decreases |events|
  {
    if |events| != 0 {
      ClosedStaysClosed(StepTracked(s, events[0]), events[1..]);
    }
  }

  /** The example that leaks above: the tracked machine detaches everything. */
  lemma TrackedExampleCloses()
    ensures RunTracked(SubscribeTracked(), [Failure(0), TimerFires, Unsubscribe]).live == {}
  {
    var s := SubscribeTracked();
    UnsubscribeIsFinal(RunTracked(s, [Failure(0), TimerFires]), []);
    RunAppend(s, [Failure(0), TimerFires], [Unsubscribe]);
    assert [Failure(0), TimerFires] + [Unsubscribe] == [Failure(0), TimerFires, Unsubscribe];
  }

  lemma {:induction false} RunAppend(s: Tracked, a: seq<Event>, b: seq<Event>)
    requires TrackedValid(s) && 0 < s.next
    ensures RunTracked(s, a + b) == RunTracked(RunTracked(s, a), b)
    decreases |a|
  {
    if |a| == 0 {
      assert a + b == b;
    } else {
      assert (a + b)[1..] == a[1..] + b;
      RunAppend(StepTracked(s, a[0]), a[1..], b);
    }
  }
}
