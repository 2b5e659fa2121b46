// Event queues and packet queues when calls do not overlap.
module EventQueues {
  import opened Counting
  import opened Mbufs
  import ChainCopy

  /** ble_npl_event */
  class Event {
    var queued: bool

    /** ble_npl_event_init */
    constructor ()
      ensures !queued
    {
      queued := false;
    }
  }

  /** The number of messages rt_mq_create is asked for. */
  const SLOTS: nat := 32

  /** ble_npl_eventq: a bounded first-in first-out message queue of event pointers. */
  class EventQueue {
    var msgs: seq<Event>

    /** ble_npl_eventq_init */
    constructor ()
      ensures msgs == []
    {
      msgs := [];
    }

    /** For the events of this queue, the flag says whether the event is in the queue; none is in it twice. */
    ghost predicate Agrees(evs: set<Event>)
      reads this, evs
    {
      && (forall e | e in evs :: e.queued <==> e in msgs)
      && (forall i | 0 <= i < |msgs| :: msgs[i] in evs)
      && (forall i, j | 0 <= i < j < |msgs| :: msgs[i] != msgs[j])
      && |msgs| <= SLOTS
    }

    /** ble_npl_eventq_put; ok is the condition of RT_ASSERT. */
    method Put(ev: Event, ghost evs: set<Event>) returns (ok: bool)
      requires Agrees(evs) && ev in evs
      modifies this, ev
      ensures ok <==> old(ev.queued) || |old(msgs)| < SLOTS
      ensures ok ==> Agrees(evs) && ev.queued && msgs == if old(ev.queued) then old(msgs) else old(msgs) + [ev]
      ensures !ok ==> ev.queued && ev !in msgs && msgs == old(msgs)
    {
      if ev.queued {
        return true;
      }
      ev.queued := true;
      if |msgs| < SLOTS {
        msgs := msgs + [ev];
        ok := true;
      } else {
        ok := false;
      }
    }

    /** ble_npl_eventq_get: NULL when nothing arrives in time. */
    method Get(ghost evs: set<Event>) returns (ev: Event?)
      requires Agrees(evs)
      modifies this, evs
      ensures Agrees(evs)
      ensures old(msgs) == [] ==> ev == null && msgs == []
      ensures old(msgs) != [] ==> ev == old(msgs)[0] && msgs == old(msgs)[1..] && !ev.queued
      ensures forall e | e in evs && e != ev :: e.queued == old(e.queued)
    {
      ev := null;
      if msgs != [] {
        ev := msgs[0];
        msgs := msgs[1..];
      }
      if ev != null {
        ev.queued := false;
      }
    }

    /** At most 32 distinct events: the send cannot fail, so the assertion of ble_npl_eventq_put holds. */
    lemma RoomForAll(ev: Event, evs: set<Event>)
      requires Agrees(evs) && ev in evs && |evs| <= SLOTS
      ensures ev.queued || |msgs| < SLOTS
    {
      if !ev.queued {
        ElementsDistinct(msgs);
        var inside := Elements(msgs);
        assert inside <= evs - {ev};
        SubsetCount(inside, evs - {ev});
      }
    }

    /** Any run of puts and gets on up to 32 events: the flags agree, no assertion fails, and what is sent and got
        is what the calls make of an unbounded queue. */
    method Run(calls: seq<Call>, ghost evs: set<Event>) returns (sent: seq<Event>, got: seq<Event>, asserts: bool)
      requires Agrees(evs) && msgs == [] && |evs| <= SLOTS
      requires forall i | 0 <= i < |calls| && calls[i].Put? :: calls[i].ev in evs
      modifies this, evs
      ensures Agrees(evs) && asserts && sent == got + msgs
      ensures Trace(sent, got) == Play(calls)
    {
      sent, got, asserts := [], [], true;
      assert Trace(sent, got) == Play([]);
      hide Play;
      var n := 0;
      while n < |calls|
        invariant n <= |calls| && Agrees(evs) && asserts && sent == got + msgs
        invariant Trace(sent, got) == Play(calls[..n])
      {
        PlayNext(calls, n);
        assert sent[|got|..] == msgs;
        match calls[n] {
          case Put(ev) =>
            RoomForAll(ev, evs);
            sent := if ev.queued then sent else sent + [ev];
            var ok := Put(ev, evs);
            asserts := asserts && ok;
          case Get =>
            var ev := Get(evs);
            if ev != null {
              got := got + [ev];
            }
        }
        n := n + 1;
      }
      assert calls[..n] == calls;
    }
  }

  /** os_mqueue: packets in arrival order, with an event that announces them. */
  class Mqueue {
    /** mq_head; the links lie in the packet headers */
    var head: seq<Mbuf>
    /** mq_ev */
    const ev: Event

    /** os_mqueue_init */
    constructor (ev: Event)
      requires !ev.queued
      ensures head == [] && this.ev == ev
    {
      head := [];
      this.ev := ev;
    }

    /** os_mqueue_put; without event queue only the packet is queued. ok says whether the assertion
        in the event put holds; with at most 32 events it does. */
    method Put(evq: EventQueue?, m: Mbuf, ghost evs: set<Event>) returns (rc: int, ok: bool)
      requires evq != null ==> evq.Agrees(evs) && ev in evs
      modifies `head, evq, ev
      ensures rc == if m.IsPkthdr() then 0 else ChainCopy.OS_EINVAL
      ensures ok <==> rc != 0 || evq == null || old(ev.queued) || |old(evq.msgs)| < SLOTS
      ensures |evs| <= SLOTS ==> ok
      ensures rc != 0 ==> head == old(head) && ev.queued == old(ev.queued)
      ensures rc == 0 ==> head == old(head) + [m]
      ensures rc == 0 && evq != null && ok ==> evq.Agrees(evs) && ev in evq.msgs && old(evq.msgs) <= evq.msgs
    {
      if !m.IsPkthdr() {
        return ChainCopy.OS_EINVAL, true;
      }
      head := head + [m];
      ok := true;
      if evq != null {
        if |evs| <= SLOTS {
          evq.RoomForAll(ev, evs);
        }
        ok := evq.Put(ev, evs);
      }
      rc := 0;
    }

    /** os_mqueue_get */
    method Get() returns (m: Mbuf?)
      modifies `head
      ensures old(head) == [] ==> m == null && head == []
      ensures old(head) != [] ==> m == old(head)[0] && head == old(head)[1..]
    {
      m := null;
      if head != [] {
        m := head[0];
        head := head[1..];
      }
    }
  }

  datatype Call = Put(ev: Event) | Get

  /** All events sent and all events got so far. */
  datatype Trace = Trace(sent: seq<Event>, got: seq<Event>)

  /** A call on an unbounded queue that takes no event twice: a put sends an event unless it waits already, a get
      takes the event that waits longest. */
  function Play1(call: Call, t: Trace): (t': Trace)
    requires t.got <= t.sent
    ensures t'.got <= t'.sent && t.got <= t'.got && t.sent <= t'.sent
  {
    var waiting := t.sent[|t.got|..];
    match call
    case Put(ev) => if ev in waiting then t else t.(sent := t.sent + [ev])
    case Get => if waiting == [] then t else t.(got := t.got + [waiting[0]])
  }

  function Play(calls: seq<Call>): (t: Trace)
    ensures t.got <= t.sent
  {
    if calls == [] then Trace([], []) else Play1(calls[|calls| - 1], Play(calls[..|calls| - 1]))
  }

  lemma PlayNext(calls: seq<Call>, n: nat)
    requires n < |calls|
    ensures Play(calls[..n + 1]) == Play1(calls[n], Play(calls[..n]))
  {
    assert calls[..n + 1][..n] == calls[..n];
  }

  /** No event that was put is forgotten: it waits, or it has come out since. */
  lemma {:induction false} NoneForgotten(calls: seq<Call>, i: nat)
    requires i < |calls| && calls[i].Put?
    ensures var was, now := Play(calls[..i]), Play(calls);
            && was.sent <= now.sent && was.got <= now.got
            && (calls[i].ev in now.sent[|now.got|..] || calls[i].ev in now.got[|was.got|..])
  {
    hide Play1;
    var n := |calls| - 1;
    if i < n {
      NoneForgotten(calls[..n], i);
      assert calls[..n][..i] == calls[..i];
      StillThere(calls[n], Play(calls[..n]), calls[i].ev, |Play(calls[..i]).got|);
    } else {
      PutIn(calls[i].ev, Play(calls[..i]));
    }
  }

  lemma PutIn(ev: Event, t: Trace)
    requires t.got <= t.sent
    ensures ev in Play1(Put(ev), t).sent[|t.got|..] && Play1(Put(ev), t).got == t.got
  {
    assert (t.sent + [ev])[|t.sent|] == ev;
  }

  lemma StillThere(call: Call, t: Trace, ev: Event, from: nat)
    requires t.got <= t.sent && from <= |t.got| && (ev in t.sent[|t.got|..] || ev in t.got[from..])
    ensures var t' := Play1(call, t); ev in t'.sent[|t'.got|..] || ev in t'.got[from..]
  {
    var t', waiting := Play1(call, t), t.sent[|t.got|..];
    if t'.got == t.got {
      assert t'.sent == t.sent + t'.sent[|t.sent|..];
    } else {
      assert t'.got[from..] == t.got[from..] + [waiting[0]] && t'.sent[|t'.got|..] == waiting[1..];
    }
  }

  /** The first n of a list, or all of it. */
  function First(l: seq<Event>, n: nat): seq<Event> {
    if n <= |l| then l[..n] else l
  }

  lemma OneGet(t: Trace)
    requires t.got <= t.sent
    ensures Play1(Get, t) == Trace(t.sent, First(t.sent, |t.got| + 1))
  {
    assert t.got == t.sent[..|t.got|];
  }

  /** k gets in a row */
  function Gets(k: nat): seq<Call> {
    if k == 0 then [] else Gets(k - 1) + [Get]
  }

  lemma PlayOne(calls: seq<Call>, call: Call)
    ensures Play(calls + [call]) == Play1(call, Play(calls))
  {
    assert (calls + [call])[..|calls|] == calls;
  }

  lemma FirstMore(l: seq<Event>, n: nat)
    ensures First(l, |First(l, n)| + 1) == First(l, n + 1)
  {
  }

  lemma GetNone(calls: seq<Call>)
    ensures calls + Gets(0) == calls && First(Play(calls).sent, |Play(calls).got|) == Play(calls).got
  {
  }

  lemma GetLast(calls: seq<Call>, k: nat)
    requires k > 0
    ensures calls + Gets(k) == calls + Gets(k - 1) + [Get]
  {
  }

  lemma {:induction false} GetMany(calls: seq<Call>, k: nat)
    ensures var t := Play(calls); Play(calls + Gets(k)) == Trace(t.sent, First(t.sent, |t.got| + k))
  {
    hide Play1, Play, First, Gets;
    var t := Play(calls);
    if k == 0 {
      GetNone(calls);
    } else {
      GetMany(calls, k - 1);
      GetLast(calls, k);
      PlayOne(calls + Gets(k - 1), Get);
      OneGet(Play(calls + Gets(k - 1)));
      FirstMore(t.sent, |t.got| + k - 1);
    }
  }

  /** each event put once, in this order */
  function PutsOf(es: seq<Event>): (r: seq<Call>)
    ensures |r| == |es|
  {
    if es == [] then [] else PutsOf(es[..|es| - 1]) + [Put(es[|es| - 1])]
  }

  lemma {:induction false} PutEach(es: seq<Event>)
    requires forall i, j | 0 <= i < j < |es| :: es[i] != es[j]
    ensures Play(PutsOf(es)) == Trace(es, [])
  {
    if es != [] {
      var n := |es| - 1;
      PutEach(es[..n]);
      assert PutsOf(es)[..n] == PutsOf(es[..n]);
    }
  }

  /** Events put once each come out in that order, as many as there are gets; a second put of one that waits does
      nothing. */
  lemma InAndOut(es: seq<Event>, k: nat, calls: seq<Call>, ev: Event)
    requires forall i, j | 0 <= i < j < |es| :: es[i] != es[j]
    ensures Play(PutsOf(es) + Gets(k)) == Trace(es, First(es, k))
    ensures Play(calls + [Put(ev), Put(ev)]) == Play(calls + [Put(ev)])
  {
    PutEach(es);
    GetMany(PutsOf(es), k);
    hide PutsOf, Gets;
    assert (calls + [Put(ev)])[..|calls|] == calls;
    assert (calls + [Put(ev), Put(ev)])[..|calls| + 1] == calls + [Put(ev)];
    PutIn(ev, Play(calls));
  }
}
