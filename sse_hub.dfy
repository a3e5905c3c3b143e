/**
 * `SseHub` (src/services/SseHub.ts): the set of connected event-stream
 * clients, each with a 30 s keep-alive ping. Callbacks are named by
 * identifiers; time is an explicit clock advanced by `AdvanceTo`, and each
 * call to it reports how often every live interval fired.
 */
module Hub {
  import opened Common

  const PING_INTERVAL_MS: nat := 30000

  /** Identity of a `send` callback (the `Set` compares functions by identity). */
  type SendId = nat
  /** Identity of a `ping` callback. */
  type PingId = nat

  /** A running `setInterval(ping, 30000)` started at time `start`. */
  datatype Interval = Interval(id: nat, ping: PingId, start: int)

  /** The `cleanup` closure: which send to delete and which interval to clear. */
  datatype Handle = Handle(send: SendId, interval: nat)

  /** How many times an interval started at `start` has fired by time `t`. */
  function Fired(start: int, t: int): nat {
    if t < start then 0 else (t - start) / PING_INTERVAL_MS
  }

  /** An interval fires once per full period: never before 30 s, then exactly once per 30 s. */
  lemma FiredPerPeriod(start: int, k: nat)
    ensures Fired(start, start + k * PING_INTERVAL_MS) == k
    ensures k > 0 ==> Fired(start, start + k * PING_INTERVAL_MS - 1) == k - 1
  {
  }

  /** Advancing the clock never un-fires an interval. */
  lemma FiredMonotone(start: int, t1: int, t2: int)
    requires t1 <= t2
    ensures Fired(start, t1) <= Fired(start, t2)
  {
  }

  /** The tail of a duplicate-free sequence is duplicate-free and lacks the head. */
  lemma NoDuplicatesTail<T>(s: seq<T>)
    requires s != [] && NoDuplicates(s)
    ensures NoDuplicates(s[1..]) && s[0] !in s[1..]
  {
    var rest := s[1..];
    forall i, j | 0 <= i < j < |rest|
      ensures rest[i] != rest[j]
    {
      assert rest[i] == s[i + 1] && rest[j] == s[j + 1];
    }
    forall i | 0 <= i < |rest|
      ensures rest[i] != s[0]
    {
      assert rest[i] == s[i + 1];
    }
  }

  lemma NoDuplicatesTailIf<T>(s: seq<T>)
    requires s != []
    ensures NoDuplicates(s) ==> NoDuplicates(s[1..]) && s[0] !in s[1..]
  {
    if NoDuplicates(s) {
      NoDuplicatesTail(s);
    }
  }

  lemma NoDuplicatesConsIf<T>(x: T, r: seq<T>)
    ensures x !in r && NoDuplicates(r) ==> NoDuplicates([x] + r)
  {
    if x !in r && NoDuplicates(r) {
      NoDuplicatesCons(x, r);
    }
  }

  lemma NoDuplicatesCons<T>(x: T, r: seq<T>)
    requires x !in r && NoDuplicates(r)
    ensures NoDuplicates([x] + r)
  {
    var s := [x] + r;
    forall i, j | 0 <= i < j < |s|
      ensures s[i] != s[j]
    {
      assert s[j] == r[j - 1];
      if i > 0 {
        assert s[i] == r[i - 1];
      }
    }
  }

  /** `set.delete(x)` on an insertion-ordered set without duplicates. */
  function Remove(s: seq<SendId>, x: SendId): (r: seq<SendId>)
    ensures forall y :: y in r <==> y in s && y != x
    ensures NoDuplicates(s) ==> NoDuplicates(r)
    ensures |r| <= |s|
  {
    if s == [] then []
    else
      NoDuplicatesTailIf(s);
      var rest := Remove(s[1..], x);
      if s[0] == x then rest
      else
        NoDuplicatesConsIf(s[0], rest);
        [s[0]] + rest
  }

  /** `clearInterval(id)`: the interval with that id stops; the others keep their order. */
  function StopInterval(ivs: seq<Interval>, id: nat): (r: seq<Interval>)
    ensures forall iv :: iv in r <==> iv in ivs && iv.id != id
    ensures |r| <= |ivs|
  {
    if ivs == [] then []
    else if ivs[0].id == id then StopInterval(ivs[1..], id)
    else [ivs[0]] + StopInterval(ivs[1..], id)
  }

  /** Deleting twice is deleting once. */
  lemma {:induction false} RemoveIdempotent(s: seq<SendId>, x: SendId)
    ensures Remove(Remove(s, x), x) == Remove(s, x)
  {
    if s != [] {
      RemoveIdempotent(s[1..], x);
    }
  }

  /** Deleting an element that is absent changes nothing. */
  lemma {:induction false} RemoveAbsent(s: seq<SendId>, x: SendId)
    requires x !in s
    ensures Remove(s, x) == s
  {
    if s != [] {
      assert s[0] != x;
      RemoveAbsent(s[1..], x);
      assert s == [s[0]] + s[1..];
    }
  }

  /** Clearing twice is clearing once. */
  lemma {:induction false} StopIntervalIdempotent(ivs: seq<Interval>, id: nat)
    ensures StopInterval(StopInterval(ivs, id), id) == StopInterval(ivs, id)
  {
    if ivs != [] {
      StopIntervalIdempotent(ivs[1..], id);
    }
  }

  /** The elements of `s` as a set. */
  function ToSet<T>(s: seq<T>): set<T> {
    set x | x in s
  }

  /** Without duplicates, the number of elements is the size of the set they form. */
  lemma {:induction false} DistinctCardinality<T>(s: seq<T>)
    requires NoDuplicates(s)
    ensures |ToSet(s)| == |s|
  {
    if s != [] {
      var rest := s[1..];
      NoDuplicatesTail(s);
      DistinctCardinality(rest);
      assert ToSet(s) == ToSet(rest) + {s[0]} by {
        forall y
          ensures y in ToSet(s) <==> y in ToSet(rest) || y == s[0]
        {
          if y in ToSet(s) && y != s[0] {
            var i :| 0 <= i < |s| && s[i] == y;
            assert rest[i - 1] == y;
          }
        }
      }
      assert s[0] !in ToSet(rest);
    }
  }

  class SseHub<E> {
    /** The `clients` set, in insertion order (the order `for … of` visits it). */
    var clients: seq<SendId>
    /** The running ping intervals, oldest first. */
    var intervals: seq<Interval>
    var nextInterval: nat
    /** The current time in milliseconds. */
    var now: int

    ghost predicate Valid()
      reads this
    {
      && NoDuplicates(clients)
      && (forall i :: 0 <= i < |intervals| ==> intervals[i].id < nextInterval && intervals[i].start <= now)
    }

    constructor(now: int)
      ensures clients == [] && intervals == [] && nextInterval == 0 && this.now == now
      ensures Valid() && ClientCount() == 0
    {
      clients := [];
      intervals := [];
      nextInterval := 0;
      this.now := now;
    }

    /** `clientCount`: the size of the client set. */
    function ClientCount(): (n: nat)
      reads this
      requires Valid()
      ensures n == |ToSet(clients)|
    {
      DistinctCardinality(clients);
      |clients|
    }

    /**
     * `addClient`: add `send` to the set (no change if it is already there) and
     * start its ping interval now. The returned handle is also the handler
     * given to `onClose`.
     */
    method AddClient(send: SendId, ping: PingId) returns (cleanup: Handle)
      requires Valid()
      modifies this
      ensures Valid()
      ensures clients == if send in old(clients) then old(clients) else old(clients) + [send]
      ensures intervals == old(intervals) + [Interval(old(nextInterval), ping, now)]
      ensures now == old(now) && nextInterval == old(nextInterval) + 1
      ensures cleanup == Handle(send, old(nextInterval))
      ensures ClientCount() == old(ClientCount()) + (if send in old(clients) then 0 else 1)
    {
      if send !in clients {
        clients := clients + [send];
      }
      intervals := intervals + [Interval(nextInterval, ping, now)];
      cleanup := Handle(send, nextInterval);
      nextInterval := nextInterval + 1;
    }

    /** The `cleanup` closure: delete the send and clear the interval; running it again changes nothing. */
    method Cleanup(h: Handle)
      requires Valid()
      modifies this
      ensures Valid()
      ensures clients == Remove(old(clients), h.send) && h.send !in clients
      ensures intervals == StopInterval(old(intervals), h.interval)
      ensures forall iv :: iv in intervals ==> iv.id != h.interval
      ensures now == old(now) && nextInterval == old(nextInterval)
    {
      clients := Remove(clients, h.send);
      intervals := StopInterval(intervals, h.interval);
    }

    /**
     * `broadcast`: call every registered send once with the event, in set
     * order. The result lists the calls made.
     */
    method Broadcast(event: E) returns (calls: seq<(SendId, E)>)
      requires Valid()
      ensures |calls| == |clients|
      ensures forall i :: 0 <= i < |calls| ==> calls[i] == (clients[i], event)
      ensures forall s :: (s, event) in calls <==> s in clients
      ensures forall i, j :: 0 <= i < j < |calls| ==> calls[i].0 != calls[j].0
    {
      calls := [];
      for k := 0 to |clients|
        invariant |calls| == k
        invariant forall i :: 0 <= i < k ==> calls[i] == (clients[i], event)
      {
        calls := calls + [(clients[k], event)];
      }
      forall s | s in clients
        ensures (s, event) in calls
      {
        var i :| 0 <= i < |clients| && clients[i] == s;
        assert calls[i] == (s, event);
      }
    }

    /**
     * Let the clock run to `t`: every running interval fires once for each
     * period completed in between. The result pairs each interval's ping with
     * its number of calls, oldest interval first.
     */
    method AdvanceTo(t: int) returns (pings: seq<(PingId, nat)>)
      requires Valid() && now <= t
      modifies this
      ensures Valid()
      ensures now == t
      ensures clients == old(clients) && intervals == old(intervals) && nextInterval == old(nextInterval)
      ensures |pings| == |intervals|
      ensures forall i :: 0 <= i < |pings| ==>
                pings[i] == (intervals[i].ping, Fired(intervals[i].start, t) - Fired(intervals[i].start, old(now)))
    {
      pings := [];
      var k := 0;
      while k < |intervals|
        invariant 0 <= k <= |intervals|
        invariant |pings| == k
        invariant unchanged(this)
        invariant forall i :: 0 <= i < k ==>
                    pings[i] == (intervals[i].ping, Fired(intervals[i].start, t) - Fired(intervals[i].start, now))
      {
        var iv := intervals[k];
        FiredMonotone(iv.start, now, t);
        pings := pings + [(iv.ping, Fired(iv.start, t) - Fired(iv.start, now))];
        k := k + 1;
      }
      now := t;
    }
  }

  /**
   * Adding the same send twice stores it once but starts two intervals;
   * cleaning up the first registration removes the client while the second
   * interval keeps pinging.
   */
  method DuplicateSendScenario() returns (count: nat, running: nat, pinged: seq<(PingId, nat)>)
    ensures count == 0 && running == 1
    ensures pinged == [(2, 1)]
  {
    var hub := new SseHub<string>(0);
    var first := hub.AddClient(7, 1);
    var second := hub.AddClient(7, 2);
    assert hub.clients == [7];
    assert hub.intervals == [Interval(0, 1, 0), Interval(1, 2, 0)];
    hub.Cleanup(first);
    assert hub.clients == [];
    assert StopInterval([Interval(1, 2, 0)], 0) == [Interval(1, 2, 0)];
    assert hub.intervals == [Interval(1, 2, 0)];
    count := hub.ClientCount();
    running := |hub.intervals|;
    pinged := hub.AdvanceTo(PING_INTERVAL_MS);
    assert Fired(0, PING_INTERVAL_MS) == 1;
  }

  /** A client cleaned up before a broadcast does not receive it. */
  method CleanupBeforeBroadcastScenario() returns (calls: seq<(SendId, string)>)
    ensures calls == [(2, "test")]
  {
    var hub := TwoClientsFirstCleaned();
    calls := hub.Broadcast("test");
    assert |calls| == 1 && calls[0] == (hub.clients[0], "test");
  }

  /** Clients 1 and 2 added, then the first one's cleanup run. */
  method TwoClientsFirstCleaned() returns (hub: SseHub<string>)
    ensures fresh(hub) && hub.Valid() && hub.clients == [2]
  {
    hub := new SseHub<string>(0);
    var h1 := hub.AddClient(1, 10);
    var h2 := hub.AddClient(2, 20);
    assert hub.clients == [1, 2];
    hub.Cleanup(h1);
    assert hub.clients == [2] by {
      assert [1, 2][1..] == [2];
      RemoveAbsent([2], 1);
    }
  }

  /** One ping per 30 s while connected; none after the cleanup. */
  method PingScenario() returns (first: seq<(PingId, nat)>, second: seq<(PingId, nat)>, afterCleanup: seq<(PingId, nat)>)
    ensures first == [(5, 1)] && second == [(5, 1)]
    ensures afterCleanup == []
  {
    var hub := new SseHub<string>(0);
    var h := hub.AddClient(1, 5);
    first := hub.AdvanceTo(PING_INTERVAL_MS);
    second := hub.AdvanceTo(2 * PING_INTERVAL_MS);
    hub.Cleanup(h);
    assert hub.intervals == [];
    afterCleanup := hub.AdvanceTo(4 * PING_INTERVAL_MS);
  }
}
