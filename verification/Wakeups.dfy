// Packet queue and event queue under concurrency: any number of producers and one consumer;
// every test, set and send is a step of its own.
module Wakeups {
  import EventQueues

  /** The room of the event queue. */
  const SLOTS: nat := EventQueues.SLOTS

  type Packet = nat

  /** Where a producer is in os_mqueue_put: nothing to do, packet inserted, flag seen clear, flag set but event
      not sent. */
  datatype Producer = Idle | Inserted | SawClear | FlagSet

  /** Where the consumer is: waiting for an event, holding one whose flag is still set, emptying the packet queue. */
  datatype Consumer = Waiting | Holding | Draining

  /** Messages in the event queue: this packet queue's event, or some other event. */
  datatype Message = Wake | Other

  datatype State = State(producers: seq<Producer>, consumer: Consumer, evq: seq<Message>, queued: bool,
                         packets: seq<Packet>, inserted: seq<Packet>, delivered: seq<Packet>)

  datatype Step =
    | Insert(i: nat, p: Packet)
    | Test(i: nat)
    | SetFlag(i: nat)
    | Send(i: nat)
    | OtherSend
    | Receive
    | Clear
    | Take
    | Finish

  predicate At(s: State, i: nat, p: Producer) {
    i < |s.producers| && s.producers[i] == p
  }

  /** The i-th producer has inserted a packet and not finished its put. */
  predicate Busy(s: State, i: nat) {
    i < |s.producers| && s.producers[i] != Idle
  }

  predicate Enabled(s: State, step: Step) {
    match step
    case Insert(i, _) => At(s, i, Idle)
    case Test(i) => At(s, i, Inserted)
    case SetFlag(i) => At(s, i, SawClear)
    case Send(i) => At(s, i, FlagSet)
    case OtherSend => true
    case Receive => s.consumer == Waiting && s.evq != []
    case Clear => s.consumer == Holding
    case Take => s.consumer == Draining && s.packets != []
    case Finish => s.consumer == Draining && s.packets == []
  }

  function Move(s: State, i: nat, p: Producer): State
    requires i < |s.producers|
  {
    s.(producers := s.producers[i := p])
  }

  function Do(s: State, step: Step): State
    requires Enabled(s, step)
  {
    match step
    case Insert(i, p) => Move(s, i, Inserted).(packets := s.packets + [p], inserted := s.inserted + [p])
    case Test(i) => Move(s, i, if s.queued then Idle else SawClear)
    case SetFlag(i) => Move(s, i, FlagSet).(queued := true)
    case Send(i) => Move(s, i, Idle).(evq := s.evq + [Wake])
    case OtherSend => s.(evq := s.evq + [Other])
    case Receive => s.(evq := s.evq[1..], consumer := if s.evq[0] == Wake then Holding else Waiting)
    case Clear => s.(queued := false, consumer := Draining)
    case Take => s.(packets := s.packets[1..], delivered := s.delivered + [s.packets[0]])
    case Finish => s.(consumer := Waiting)
  }

  /** n idle producers and empty queues. */
  function Start(n: nat): State {
    State(seq(n, i => Idle), Waiting, [], false, [], [], [])
  }

  /** A run: each state but the last is left by an enabled step. */
  ghost predicate IsRun(run: seq<State>, steps: seq<Step>) {
    && |run| == |steps| + 1
    && forall k | 0 <= k < |steps| :: Enabled(run[k], steps[k]) && run[k + 1] == Do(run[k], steps[k])
  }

  /** A set flag is backed by an event on its way to the consumer. */
  ghost predicate Backed(s: State) {
    s.queued ==> Wake in s.evq || s.consumer == Holding || exists i: nat :: At(s, i, FlagSet)
  }

  /** Packets do not wait unannounced: an event is in the queue, the consumer has one and has not yet seen the packet
      queue empty, or some producer has not finished its put. */
  ghost predicate Announced(s: State) {
    s.packets != [] ==> Wake in s.evq || s.consumer != Waiting || exists i: nat :: Busy(s, i)
  }

  /** Packets leave in the order of their insertion, none is lost or doubled. */
  predicate InOrder(s: State) {
    s.inserted == s.delivered + s.packets
  }

  ghost predicate Inv(s: State) {
    Backed(s) && Announced(s) && InOrder(s)
  }

  lemma StepKeeps(s: State, step: Step)
    requires Inv(s) && Enabled(s, step)
    ensures Inv(Do(s, step))
  {
    var t := Do(s, step);
    forall j: nat | At(s, j, FlagSet) && step != Send(j) ensures At(t, j, FlagSet) && Busy(t, j) {
    }
    match step {
      case Insert(i, _) =>
        assert Busy(t, i);
      case Test(i) =>
        assert s.queued || Busy(t, i);
      case SetFlag(i) =>
        assert At(t, i, FlagSet) && Busy(t, i);
      case Send(i) =>
        assert t.evq[|s.evq|] == Wake;
      case OtherSend =>
        assert Wake in s.evq ==> Wake in t.evq;
        forall j: nat | Busy(s, j) ensures Busy(t, j) {
        }
      case Receive =>
        forall j: nat | Busy(s, j) ensures Busy(t, j) {
        }
      case _ =>
    }
  }

  /** The packets the steps insert, in order. */
  function Puts(steps: seq<Step>): seq<Packet> {
    if steps == [] then []
    else
      var n := |steps| - 1;
      match steps[n] case Insert(_, p) => Puts(steps[..n]) + [p] case _ => Puts(steps[..n])
  }

  /** How many packets the steps take out. */
  function Takes(steps: seq<Step>): nat {
    if steps == [] then 0 else Takes(steps[..|steps| - 1]) + if steps[|steps| - 1] == Take then 1 else 0
  }

  /** Every packet ever put is in Puts at the place that the earlier puts leave it. */
  lemma {:induction false} PutsHas(steps: seq<Step>, i: nat)
    requires i < |steps| && steps[i].Insert?
    ensures |Puts(steps[..i])| < |Puts(steps)| && Puts(steps)[|Puts(steps[..i])|] == steps[i].p
  {
    var n := |steps| - 1;
    if i < n {
      PutsHas(steps[..n], i);
      assert steps[..n][..i] == steps[..i];
    }
  }

  /** The packets delivered are the first ones put, one for every take, and the others wait, whatever the state keeps
      on record. */
  ghost predicate Carried(s: State, steps: seq<Step>) {
    var puts, n := Puts(steps), Takes(steps);
    n <= |puts| && s.delivered == puts[..n] && s.packets == puts[n..] && s.inserted == puts
  }

  lemma StepCarries(s: State, step: Step, steps: seq<Step>)
    requires Carried(s, steps) && Enabled(s, step)
    ensures Carried(Do(s, step), steps + [step])
  {
    assert (steps + [step])[..|steps|] == steps;
  }

  /** No lost wake-up, at every point of every run: what waits is announced, and what was put has been delivered or
      waits, in order, with one packet out for every take. */
  lemma {:induction false} NoLostWakeup(n: nat, run: seq<State>, steps: seq<Step>, k: nat)
    requires IsRun(run, steps) && run[0] == Start(n) && k < |run|
    ensures Announced(run[k]) && InOrder(run[k]) && Inv(run[k]) && Carried(run[k], steps[..k])
    ensures var puts, taken := Puts(steps[..k]), Takes(steps[..k]);
            taken <= |puts| && run[k].delivered == puts[..taken] && run[k].packets == puts[taken..]
  {
    if k > 0 {
      NoLostWakeup(n, run, steps, k - 1);
      StepKeeps(run[k - 1], steps[k - 1]);
      StepCarries(run[k - 1], steps[k - 1], steps[..k - 1]);
      assert steps[..k] == steps[..k - 1] + [steps[k - 1]];
    }
  }

  /** Steps that bring no new work: everything but inserting packets and sending other events. */
  predicate Internal(step: Step) {
    !step.Insert? && !step.OtherSend?
  }

  function ProducerWork(p: Producer): nat {
    match p case Idle => 0 case Inserted => 6 case SawClear => 5 case FlagSet => 4
  }

  function ProducersWork(ps: seq<Producer>): nat {
    if ps == [] then 0 else ProducerWork(ps[0]) + ProducersWork(ps[1..])
  }

  /** A bound on the internal steps still possible. */
  function Work(s: State): nat {
    ProducersWork(s.producers) + 3 * |s.evq| + |s.packets|
    + match s.consumer case Waiting => 0 case Holding => 2 case Draining => 1
  }

  lemma {:induction false} WorkUpdate(ps: seq<Producer>, i: nat, p: Producer)
    requires i < |ps|
    ensures ProducersWork(ps[i := p]) == ProducersWork(ps) - ProducerWork(ps[i]) + ProducerWork(p)
  {
    if i > 0 {
      assert ps[i := p][1..] == ps[1..][i - 1 := p];
      WorkUpdate(ps[1..], i - 1, p);
    } else {
      assert ps[i := p][1..] == ps[1..];
    }
  }

  lemma WorkShrinks(s: State, step: Step)
    requires Enabled(s, step) && Internal(step)
    ensures Work(Do(s, step)) < Work(s)
  {
    match step {
      case Test(i) => WorkUpdate(s.producers, i, if s.queued then Idle else SawClear);
      case SetFlag(i) => WorkUpdate(s.producers, i, FlagSet);
      case Send(i) => WorkUpdate(s.producers, i, Idle);
      case _ =>
    }
  }

  /** Nothing is left to do until a new packet or event comes. */
  ghost predicate Quiet(s: State) {
    forall step | Internal(step) :: !Enabled(s, step)
  }

  /** Once no more packets or other events come, the system falls quiet within Work steps, whatever the order
      of steps. */
  lemma {:induction false} FallsQuiet(run: seq<State>, steps: seq<Step>)
    requires IsRun(run, steps) && forall k | 0 <= k < |steps| :: Internal(steps[k])
    ensures |steps| + Work(run[|steps|]) <= Work(run[0])
    decreases |steps|
  {
    if steps != [] {
      var m := |steps| - 1;
      var run', steps' := run[..m + 1], steps[..m];
      assert IsRun(run', steps');
      FallsQuiet(run', steps');
      WorkShrinks(run[m], steps[m]);
    }
  }

  /** Whenever a run falls quiet, every packet inserted so far has been delivered, in order. */
  lemma QuietDelivered(n: nat, run: seq<State>, steps: seq<Step>)
    requires IsRun(run, steps) && run[0] == Start(n) && Quiet(run[|steps|])
    ensures run[|steps|].delivered == Puts(steps) && run[|steps|].packets == [] && Takes(steps) == |Puts(steps)|
  {
    var s := run[|steps|];
    NoLostWakeup(n, run, steps, |steps|);
    assert steps[..|steps|] == steps;
    assert !Enabled(s, Receive) && !Enabled(s, Clear) && !Enabled(s, Take) && !Enabled(s, Finish);
    assert s.consumer == Waiting && s.evq == [];
    forall i: nat | i < |s.producers| ensures !Busy(s, i) {
      assert !Enabled(s, Test(i)) && !Enabled(s, SetFlag(i)) && !Enabled(s, Send(i));
    }
  }

  /** One more enabled step makes a run longer. */
  lemma Longer(run: seq<State>, steps: seq<Step>, step: Step) returns (run': seq<State>, steps': seq<Step>)
    requires IsRun(run, steps) && Enabled(run[|steps|], step)
    ensures IsRun(run', steps') && run'[0] == run[0] && steps' == steps + [step]
    ensures run'[|steps'|] == Do(run[|steps|], step)
    ensures Puts(steps') == Puts(steps) + if step.Insert? then [step.p] else []
  {
    hide Do, Enabled;
    run', steps' := run + [Do(run[|steps|], step)], steps + [step];
    assert steps'[..|steps|] == steps;
  }

  /** The first producer is done with its puts, the consumer has not looked, and the packets ps wait, for one event. */
  ghost predicate Waits(s: State, ps: seq<Packet>) {
    && At(s, 0, Idle) && s.consumer == Waiting && s.packets == ps && s.queued == (ps != [])
    && s.evq == if ps == [] then [] else [Wake]
  }

  lemma FirstPut(run: seq<State>, steps: seq<Step>, p: Packet) returns (run': seq<State>, steps': seq<Step>)
    requires IsRun(run, steps) && Waits(run[|steps|], [])
    ensures IsRun(run', steps') && run'[0] == run[0] && Puts(steps') == Puts(steps) + [p]
    ensures Waits(run'[|steps'|], [p])
  {
    hide IsRun, Puts;
    run', steps' := Longer(run, steps, Insert(0, p));
    run', steps' := Longer(run', steps', Test(0));
    run', steps' := Longer(run', steps', SetFlag(0));
    run', steps' := Longer(run', steps', Send(0));
  }

  lemma NextPut(run: seq<State>, steps: seq<Step>, ps: seq<Packet>, p: Packet)
    returns (run': seq<State>, steps': seq<Step>)
    requires IsRun(run, steps) && Waits(run[|steps|], ps) && ps != []
    ensures IsRun(run', steps') && run'[0] == run[0] && Puts(steps') == Puts(steps) + [p]
    ensures Waits(run'[|steps'|], ps + [p])
  {
    hide IsRun, Puts;
    run', steps' := Longer(run, steps, Insert(0, p));
    run', steps' := Longer(run', steps', Test(0));
  }

  /** One producer can put any packets, as many as there are, before the consumer looks. */
  lemma {:induction false} AnyWait(n: nat, ps: seq<Packet>) returns (run: seq<State>, steps: seq<Step>)
    requires n > 0
    ensures IsRun(run, steps) && run[0] == Start(n) && Puts(steps) == ps && Waits(run[|steps|], ps)
  {
    if ps == [] {
      run, steps := [Start(n)], [];
    } else {
      hide IsRun, Puts, Waits;
      var m := |ps| - 1;
      run, steps := AnyWait(n, ps[..m]);
      assert ps == ps[..m] + [ps[m]];
      if m == 0 {
        run, steps := FirstPut(run, steps, ps[m]);
      } else {
        run, steps := NextPut(run, steps, ps[..m], ps[m]);
      }
    }
  }

  /** How often the packet queue's event is in the event queue. */
  function Copies(q: seq<Message>): (r: nat)
    ensures r <= |q|
  {
    if q == [] then 0 else (if q[0] == Wake then 1 else 0) + Copies(q[1..])
  }

  lemma {:induction false} CopiesConcat(a: seq<Message>, b: seq<Message>)
    ensures Copies(a + b) == Copies(a) + Copies(b)
  {
    if a == [] {
      assert a + b == b;
    } else {
      assert (a + b)[1..] == a[1..] + b;
      CopiesConcat(a[1..], b);
    }
  }

  /** The event on its way, in any form, with a single producer. */
  function Pending(s: State): nat {
    Copies(s.evq) + (if At(s, 0, FlagSet) then 1 else 0) + (if s.consumer == Holding then 1 else 0)
  }

  /** With one producer the flag is exact at every step: the event is on its way once if it is set, and not at
      all otherwise. */
  lemma {:induction false} OneProducer(run: seq<State>, steps: seq<Step>, k: nat)
    requires IsRun(run, steps) && run[0] == Start(1) && k < |run|
    ensures |run[k].producers| == 1 && Pending(run[k]) == (if run[k].queued then 1 else 0)
        && (At(run[k], 0, SawClear) ==> !run[k].queued)
  {
    if k > 0 {
      OneProducer(run, steps, k - 1);
      OneProducerStep(run[k - 1], steps[k - 1]);
    }
  }

  lemma OneProducerStep(s: State, step: Step)
    requires Enabled(s, step) && |s.producers| == 1
    requires Pending(s) == (if s.queued then 1 else 0) && (At(s, 0, SawClear) ==> !s.queued)
    ensures var t := Do(s, step);
            |t.producers| == 1 && Pending(t) == (if t.queued then 1 else 0) && (At(t, 0, SawClear) ==> !t.queued)
  {
    CopiesConcat(s.evq, [Wake]);
    CopiesConcat(s.evq, [Other]);
    assert Copies([Wake]) == 1 && Copies([Other]) == 0;
  }

  /** Every message found a slot, and no other events came. */
  ghost predicate Fitting(run: seq<State>, steps: seq<Step>) {
    && (forall k | 0 <= k < |run| :: |run[k].evq| <= SLOTS)
    && (forall k | 0 <= k < |steps| :: !steps[k].OtherSend?)
  }

  /** s can be reached with n producers while every send so far has succeeded. */
  ghost predicate Reached(n: nat, s: State) {
    exists run, steps :: IsRun(run, steps) && run[0] == Start(n) && run[|steps|] == s && Fitting(run, steps)
  }

  lemma ReachedStep(n: nat, s: State, step: Step)
    requires Reached(n, s) && Enabled(s, step) && !step.OtherSend? && |Do(s, step).evq| <= SLOTS
    ensures Reached(n, Do(s, step))
  {
    hide Do, Enabled, Start;
    var run, steps :| IsRun(run, steps) && run[0] == Start(n) && run[|steps|] == s && Fitting(run, steps);
    var run', steps' := run + [Do(s, step)], steps + [step];
    assert IsRun(run', steps');
    assert Fitting(run', steps');
  }

  /** All quiet but for c copies of the event in the queue. */
  ghost predicate Resting(s: State, c: nat) {
    && At(s, 0, Idle) && At(s, 1, Idle) && s.consumer == Waiting && !s.queued && s.packets == []
    && |s.evq| == c && forall i | 0 <= i < c :: s.evq[i] == Wake
  }

  /** Two producers that both test the flag before either sets it: one has sent the event, the other is about to. */
  lemma OneSent(n: nat, s: State, c: nat) returns (t: State)
    requires Reached(n, s) && Resting(s, c) && c < SLOTS
    ensures Reached(n, t) && At(t, 0, Idle) && At(t, 1, FlagSet) && t.consumer == Waiting
        && t.evq == s.evq + [Wake] && t.packets == [0, 0]
  {
    hide IsRun, Reached;
    t := s;
    ReachedStep(n, t, Insert(0, 0)); t := Do(t, Insert(0, 0));
    ReachedStep(n, t, Insert(1, 0)); t := Do(t, Insert(1, 0));
    ReachedStep(n, t, Test(0)); t := Do(t, Test(0));
    ReachedStep(n, t, Test(1)); t := Do(t, Test(1));
    ReachedStep(n, t, SetFlag(0)); t := Do(t, SetFlag(0));
    ReachedStep(n, t, SetFlag(1)); t := Do(t, SetFlag(1));
    ReachedStep(n, t, Send(0)); t := Do(t, Send(0));
  }

  /** Both have sent; the consumer takes one copy and empties the packet queue: one copy more than before stays
      behind. */
  lemma OneMoreCopy(n: nat, s: State, c: nat) returns (t: State)
    requires Reached(n, s) && Resting(s, c) && c + 2 <= SLOTS
    ensures Reached(n, t) && Resting(t, c + 1)
  {
    t := OneSent(n, s, c);
    hide IsRun, Reached;
    ReachedStep(n, t, Send(1)); t := Do(t, Send(1));
    ReachedStep(n, t, Receive); t := Do(t, Receive);
    ReachedStep(n, t, Clear); t := Do(t, Clear);
    ReachedStep(n, t, Take); t := Do(t, Take);
    ReachedStep(n, t, Take); t := Do(t, Take);
    ReachedStep(n, t, Finish); t := Do(t, Finish);
  }

  /** With two or more producers the copies pile up, one by one. */
  lemma {:induction false} ManyCopies(n: nat, c: nat) returns (s: State)
    requires n >= 2 && c < SLOTS
    ensures Reached(n, s) && Resting(s, c)
  {
    if c == 0 {
      s := Start(n);
      assert IsRun([s], []) && Fitting([s], []);
    } else {
      s := ManyCopies(n, c - 1);
      s := OneMoreCopy(n, s, c - 1);
    }
  }

  /** The assertion of ble_npl_eventq_put fails: a producer is about to send, all sends so far have succeeded, and the
      32 slots are taken. */
  lemma SendFails(n: nat) returns (s: State)
    requires n >= 2
    ensures Reached(n, s) && |s.evq| == SLOTS && At(s, 1, FlagSet)
  {
    s := ManyCopies(n, SLOTS - 1);
    s := OneSent(n, s, SLOTS - 1);
  }

  lemma {:induction false} OnlyWakes(run: seq<State>, steps: seq<Step>, n: nat, k: nat)
    requires IsRun(run, steps) && run[0] == Start(n) && k < |run| && Fitting(run, steps)
    ensures Copies(run[k].evq) == |run[k].evq| && |run[k].producers| == n
  {
    if k > 0 {
      OnlyWakes(run, steps, n, k - 1);
      CopiesConcat(run[k - 1].evq, [Wake]);
    }
  }

  /** Whenever a producer is about to send its event, there is a slot for it. */
  ghost predicate SendsSucceed(n: nat) {
    forall s: State, i: nat | Reached(n, s) && At(s, i, FlagSet) :: |s.evq| < SLOTS
  }

  /** The sends of n producers on one packet queue always succeed exactly if there is no more than one producer. */
  lemma SendsSucceedIff(n: nat)
    ensures SendsSucceed(n) <==> n <= 1
  {
    if n >= 2 {
      var s := SendFails(n);
      assert Reached(n, s) && At(s, 1, FlagSet);
    } else {
      forall s: State, i: nat | Reached(n, s) && At(s, i, FlagSet) ensures |s.evq| < SLOTS {
        var run, steps :| IsRun(run, steps) && run[0] == Start(n) && run[|steps|] == s && Fitting(run, steps);
        OnlyWakes(run, steps, n, |steps|);
        OneProducer(run, steps, |steps|);
      }
    }
  }
}
