/**
  The propagation delay line (src/systems/propagation.rs). Each receiving
  antenna keeps a queue of future samples. On every tick each transfer
  grows its receiver's queue to the transfer's horizon. Each of the
  transfer's events then adds the emitter's current sample times the event
  gain at the event's delay. Finally every receiver pops the front of its
  queue into `current`.
*/
module Propagation {
  import opened Options

  /** An entity of the simulated world, named by its index. */
  type Entity = nat

  /** One propagation path: a delay in ticks and a gain. */
  datatype SignalEvent = SignalEvent(time: nat, gain: real)

  /** The paths from one emitter to one receiver, and how far ahead they reach. */
  datatype Transfer = Transfer(target: Entity, events: seq<SignalEvent>, maxTime: nat)

  /** An emitting antenna: its sample for this tick and its transfers. */
  datatype Emission = Emission(current: real, transfer: seq<Transfer>)

  // ----------------------------------------------------------------------
  // One transfer into one queue

  /** The queue grown, never shrunk, to `maxTime` slots; new slots hold zero. */
  function Grow(buffer: seq<real>, maxTime: nat): (r: seq<real>)
    ensures |r| == if |buffer| < maxTime then maxTime else |buffer|
    ensures r[..|buffer|] == buffer
    ensures forall i :: |buffer| <= i < |r| ==> r[i] == 0.0
  {
    if |buffer| < maxTime then buffer + seq(maxTime - |buffer|, _ => 0.0) else buffer
  }

  /** What one path delivers: the emitted sample scaled by the path's gain. */
  function Weighted(current: real, gain: real): real
  {
    current * gain
  }

  /** Every event falls inside a queue of `len` slots. */
  predicate InRange(events: seq<SignalEvent>, len: nat)
  {
    forall i :: 0 <= i < |events| ==> events[i].time < len
  }

  /** What `events` deliver to slot `slot` of the queue for the emitted sample `current`. */
  function Arrived(events: seq<SignalEvent>, current: real, slot: nat): real
  {
    if events == [] then 0.0
    else
      var e := events[|events| - 1];
      Arrived(events[..|events| - 1], current, slot) + (if e.time == slot then Weighted(current, e.gain) else 0.0)
  }

  /** A slot that no event targets receives nothing. */
  lemma {:induction false} ArrivedElsewhere(events: seq<SignalEvent>, current: real, slot: nat)
    requires forall i :: 0 <= i < |events| ==> events[i].time != slot
    ensures Arrived(events, current, slot) == 0.0
  {
    if events != [] {
      ArrivedElsewhere(events[..|events| - 1], current, slot);
    }
  }

  /**
    The events added one after another into `buffer`; `None` when one of
    them falls outside the queue, which is fatal.
  */
  function Accumulate(buffer: seq<real>, current: real, events: seq<SignalEvent>): (r: Option<seq<real>>)
    ensures r.Some? ==> |r.value| == |buffer|
    ensures r.Some? ==> InRange(events, |buffer|)
  {
    if events == [] then Some(buffer)
    else
      var e := events[|events| - 1];
      match Accumulate(buffer, current, events[..|events| - 1])
      case None => None
      case Some(b) =>
        if e.time < |b| then Some(b[e.time := b[e.time] + Weighted(current, e.gain)]) else None
  }

  /** One more event is added to the queue the earlier events left. */
  lemma AccumulateSnoc(buffer: seq<real>, current: real, events: seq<SignalEvent>, e: SignalEvent)
    ensures Accumulate(buffer, current, events + [e])
            == match Accumulate(buffer, current, events)
               case None => None
               case Some(b) =>
                 if e.time < |b| then Some(b[e.time := b[e.time] + Weighted(current, e.gain)]) else None
  {
    assert (events + [e])[..|events|] == events;
  }

  /**
    Accumulating fails exactly when an event lies outside the queue; otherwise
    the queue keeps its length and each slot gains what the events deliver
    to it, so a slot no event targets is unchanged.
  */
  lemma {:induction false} AccumulateSpec(buffer: seq<real>, current: real, events: seq<SignalEvent>)
    ensures var r := Accumulate(buffer, current, events);
            && (r.Some? <==> InRange(events, |buffer|))
            && (r.Some? ==> |r.value| == |buffer|)
            && (r.Some? ==> forall i :: 0 <= i < |buffer| ==> r.value[i] == buffer[i] + Arrived(events, current, i))
  {
    if events != [] {
      var n := |events| - 1;
      AccumulateSpec(buffer, current, events[..n]);
      assert InRange(events, |buffer|) <==> InRange(events[..n], |buffer|) && events[n].time < |buffer|;
    }
  }

  /** One more event of `events`, added to the queue the first `i` of them left. */
  lemma AccumulateStep(buffer: seq<real>, current: real, events: seq<SignalEvent>, i: nat, b: seq<real>)
    requires i < |events| && Accumulate(buffer, current, events[..i]) == Some(b)
    ensures |b| == |buffer|
    ensures events[i].time < |b| ==>
              Accumulate(buffer, current, events[..i + 1])
              == Some(b[events[i].time := b[events[i].time] + Weighted(current, events[i].gain)])
    ensures events[i].time >= |b| ==> !InRange(events, |buffer|)
  {
    AccumulateSpec(buffer, current, events[..i]);
    AccumulateSnoc(buffer, current, events[..i], events[i]);
    assert events[..i] + [events[i]] == events[..i + 1];
  }

  // ----------------------------------------------------------------------
  // One tick seen from one receiver

  /** A transfer as its receiver sees it: the emitter's sample and the paths. */
  datatype Delivery = Delivery(target: Entity, current: real, events: seq<SignalEvent>, maxTime: nat)

  /** A receiver: its sample for this tick and its queue of future samples. */
  datatype ReceptionState = ReceptionState(current: real, buffer: seq<real>)

  /**
    One transfer applied to a queue: grow, then add the events. It fails
    exactly when an event lies beyond the grown queue, and otherwise leaves
    a queue as long as the longer of the old queue and the transfer's horizon.
  */
  function Deliver(buffer: seq<real>, d: Delivery): (r: Option<seq<real>>)
    ensures r.Some? <==> InRange(d.events, |Grow(buffer, d.maxTime)|)
    ensures r.Some? ==> |r.value| == if |buffer| < d.maxTime then d.maxTime else |buffer|
  {
    AccumulateSpec(Grow(buffer, d.maxTime), d.current, d.events);
    Accumulate(Grow(buffer, d.maxTime), d.current, d.events)
  }

  /** The largest horizon among the deliveries, at least `len`. */
  function Horizon(len: nat, ds: seq<Delivery>): nat
  {
    if ds == [] then len
    else
      var h := Horizon(len, ds[..|ds| - 1]);
      if h < ds[|ds| - 1].maxTime then ds[|ds| - 1].maxTime else h
  }

  /** The deliveries applied in order; `None` once one of them is fatal. */
  function DeliverAll(buffer: seq<real>, ds: seq<Delivery>): (r: Option<seq<real>>)
    ensures r.Some? ==> |r.value| == Horizon(|buffer|, ds)
  {
    if ds == [] then Some(buffer)
    else
      match DeliverAll(buffer, ds[..|ds| - 1])
      case None => None
      case Some(b) =>
        AccumulateSpec(Grow(b, ds[|ds| - 1].maxTime), ds[|ds| - 1].current, ds[|ds| - 1].events);
        Deliver(b, ds[|ds| - 1])
  }

  /** The queue only ever grows: the deliveries never lose a slot. */
  lemma {:induction false} HorizonAtLeast(len: nat, ds: seq<Delivery>)
    ensures Horizon(len, ds) >= len
    ensures forall i :: 0 <= i < |ds| ==> Horizon(len, ds) >= ds[i].maxTime
  {
    if ds != [] {
      HorizonAtLeast(len, ds[..|ds| - 1]);
    }
  }

  /** A fatal delivery stays fatal whatever comes after it. */
  lemma {:induction false} DeliverAllFatal(buffer: seq<real>, ds: seq<Delivery>, more: seq<Delivery>)
    requires DeliverAll(buffer, ds).None?
    ensures DeliverAll(buffer, ds + more).None?
    decreases |more|
  {
    if more == [] {
      assert ds + more == ds;
    } else {
      var n := |more| - 1;
      DeliverAllFatal(buffer, ds, more[..n]);
      assert (ds + more)[..|ds + more| - 1] == ds + more[..n];
    }
  }

  /** The tick of one receiver: its deliveries, then the front of the queue becomes `current`. */
  function Tick(s: ReceptionState, ds: seq<Delivery>): (r: Option<ReceptionState>)
    ensures r.Some? ==> DeliverAll(s.buffer, ds).Some?
    ensures r.Some? ==> |r.value.buffer| + 1 == Horizon(|s.buffer|, ds)
  {
    match DeliverAll(s.buffer, ds)
    case None => None
    case Some(b) => if b == [] then None else Some(ReceptionState(b[0], b[1..]))
  }

  /** The state after `n` ticks with no deliveries, `None` if the queue runs dry. */
  function Silent(s: ReceptionState, n: nat): Option<ReceptionState>
    decreases n
  {
    if n == 0 then Some(s)
    else
      match Tick(s, [])
      case None => None
      case Some(t) => Silent(t, n - 1)
  }

  /** A sample `k` slots down the queue reaches `current` after `k + 1` silent ticks. */
  lemma {:induction false} DelayLine(s: ReceptionState, k: nat)
    requires k < |s.buffer|
    ensures Silent(s, k + 1).Some?
    ensures Silent(s, k + 1).value.current == s.buffer[k]
    ensures Silent(s, k + 1).value.buffer == s.buffer[k + 1..]
    decreases k
  {
    var t := ReceptionState(s.buffer[0], s.buffer[1..]);
    assert Tick(s, []) == Some(t);
    if k > 0 {
      DelayLine(t, k - 1);
    }
  }

  /** A single path into an empty queue leaves `current * g` at slot `d` of a queue of `maxTime` slots. */
  lemma SinglePath(current: real, d: nat, g: real, maxTime: nat, target: Entity)
    requires d < maxTime
    ensures var r := DeliverAll([], [Delivery(target, current, [SignalEvent(d, g)], maxTime)]);
            r.Some? && |r.value| == maxTime && r.value[d] == current * g
  {
    var del := Delivery(target, current, [SignalEvent(d, g)], maxTime);
    var events := [SignalEvent(d, g)];
    assert events[..0] == [];
    assert Arrived(events, current, d) == current * g;
    AccumulateSpec(Grow([], maxTime), current, events);
    assert [del][..0] == [];
  }

  /**
    A single path of delay `d > 0` and gain `g`, reaching an empty receiver,
    delivers `current * g` to the receiver's `current` exactly `d` ticks
    after the tick that carried it; the zero delay delivers it on the spot.
  */
  lemma PathDelay(current: real, d: nat, g: real, maxTime: nat, target: Entity)
    requires d < maxTime
    ensures var del := Delivery(target, current, [SignalEvent(d, g)], maxTime);
            var r := Tick(ReceptionState(0.0, []), [del]);
            && r.Some?
            && (d == 0 ==> r.value.current == current * g)
            && (d > 0 ==> Silent(r.value, d).Some? && Silent(r.value, d).value.current == current * g)
  {
    var del := Delivery(target, current, [SignalEvent(d, g)], maxTime);
    SinglePath(current, d, g, maxTime, target);
    var b := DeliverAll([], [del]).value;
    TickPops(ReceptionState(0.0, []), [del], b);
    var r := Tick(ReceptionState(0.0, []), [del]).value;
    if d > 0 {
      DelayLine(r, d - 1);
    }
  }

  // ----------------------------------------------------------------------
  // The whole system

  /** The transfers of one emitter, in order, as deliveries. */
  function Spread(em: Emission): (ds: seq<Delivery>)
    ensures |ds| == |em.transfer|
  {
    seq(|em.transfer|, j requires 0 <= j < |em.transfer| =>
      Delivery(em.transfer[j].target, em.current, em.transfer[j].events, em.transfer[j].maxTime))
  }

  /** Every transfer of every emitter, in the order the system visits them. */
  function Flatten(emissions: seq<Emission>): seq<Delivery>
  {
    if emissions == [] then [] else Flatten(emissions[..|emissions| - 1]) + Spread(emissions[|emissions| - 1])
  }

  /** The deliveries aimed at `e`, in order. */
  function For(ds: seq<Delivery>, e: Entity): (r: seq<Delivery>)
    ensures forall i :: 0 <= i < |r| ==> r[i].target == e
  {
    if ds == [] then []
    else For(ds[..|ds| - 1], e) + (if ds[|ds| - 1].target == e then [ds[|ds| - 1]] else [])
  }

  lemma ForSnoc(ds: seq<Delivery>, d: Delivery, e: Entity)
    ensures For(ds + [d], e) == For(ds, e) + (if d.target == e then [d] else [])
  {
    assert (ds + [d])[..|ds|] == ds;
  }

  class Reception {
    /** The sample the antenna receives this tick. */
    var current: real
    /** Future samples, front first. */
    var receiveBuffer: seq<real>

    ghost function State(): ReceptionState
      reads this
    {
      ReceptionState(current, receiveBuffer)
    }

    constructor ()
      ensures current == 0.0 && receiveBuffer == []
    {
      current := 0.0;
      receiveBuffer := [];
    }

    /** Grows the queue to `maxTime` and adds every event; `false` where the source panics. */
    method Deliver(emitCurrent: real, events: seq<SignalEvent>, maxTime: nat) returns (ok: bool)
      modifies this`receiveBuffer
      ensures ok <==> InRange(events, |Grow(old(receiveBuffer), maxTime)|)
      ensures ok ==> Accumulate(Grow(old(receiveBuffer), maxTime), emitCurrent, events) == Some(receiveBuffer)
    {
      if |receiveBuffer| < maxTime {
        receiveBuffer := receiveBuffer + seq(maxTime - |receiveBuffer|, _ => 0.0);
      }
      ghost var grown := receiveBuffer;
      assert grown == Grow(old(receiveBuffer), maxTime);
      var queue := receiveBuffer;
      for i := 0 to |events|
        invariant Accumulate(grown, emitCurrent, events[..i]) == Some(queue)
      {
        AccumulateStep(grown, emitCurrent, events, i, queue);
        var e := events[i];
        if e.time >= |queue| {
          return false;
        }
        queue := queue[e.time := queue[e.time] + Weighted(emitCurrent, e.gain)];
      }
      receiveBuffer := queue;
      assert events[..|events|] == events;
      assert InRange(events, |grown|) by {
        AccumulateSpec(grown, emitCurrent, events);
      }
      return true;
    }

    /** Pops the front of the queue into `current`; `false` where the source panics. */
    method PopFront() returns (ok: bool)
      modifies this
      ensures ok <==> old(receiveBuffer) != []
      ensures ok ==> current == old(receiveBuffer[0]) && receiveBuffer == old(receiveBuffer[1..])
    {
      if receiveBuffer == [] {
        return false;
      }
      current := receiveBuffer[0];
      receiveBuffer := receiveBuffer[1..];
      return true;
    }
  }

  /** `p` is an initial part of `q`. */
  ghost predicate IsPrefix<T>(p: seq<T>, q: seq<T>)
  {
    |p| <= |q| && q[..|p|] == p
  }

  /** The transfers visited first are an initial part of all the transfers. */
  lemma {:induction false} FlattenPrefix(emissions: seq<Emission>, i: nat)
    requires i <= |emissions|
    ensures IsPrefix(Flatten(emissions[..i]), Flatten(emissions))
    decreases |emissions|
  {
    if i < |emissions| {
      var n := |emissions| - 1;
      assert emissions[..n][..i] == emissions[..i];
      FlattenPrefix(emissions[..n], i);
      var p, q := Flatten(emissions[..i]), Flatten(emissions[..n]);
      assert Flatten(emissions)[..|q|] == q;
      assert Flatten(emissions)[..|p|] == q[..|p|];
    } else {
      assert emissions[..i] == emissions;
    }
  }

  /** Selecting one receiver's deliveries keeps initial parts initial. */
  lemma {:induction false} ForPrefix(p: seq<Delivery>, q: seq<Delivery>, e: Entity)
    requires IsPrefix(p, q)
    ensures IsPrefix(For(p, e), For(q, e))
    decreases |q|
  {
    if |p| < |q| {
      var n := |q| - 1;
      assert q[..n][..|p|] == p;
      ForPrefix(p, q[..n], e);
      var a := For(q[..n], e);
      assert For(q, e)[..|a|] == a;
      assert For(q, e)[..|For(p, e)|] == a[..|For(p, e)|];
    } else {
      assert q == p;
    }
  }

  /** A fatal delivery in the middle of a tick makes the receiver's whole tick fatal. */
  lemma FatalTick(s: ReceptionState, p: seq<Delivery>, q: seq<Delivery>, e: Entity)
    requires IsPrefix(p, q) && DeliverAll(s.buffer, For(p, e)).None?
    ensures Tick(s, For(q, e)).None?
  {
    ForPrefix(p, q, e);
    var a, b := For(p, e), For(q, e);
    DeliverAllFatal(s.buffer, a, b[|a|..]);
    assert a + b[|a|..] == b by {
      assert b[..|a|] == a;
      assert b == b[..|a|] + b[|a|..];
    }
  }

  /** Each entity has its own reception component. */
  ghost predicate Distinct(receptions: map<Entity, Reception>)
  {
    forall a, b :: a in receptions && b in receptions && a != b ==> receptions[a] != receptions[b]
  }

  /** Every receiver has taken in its share of `ds`, starting from `start`, and not yet popped. */
  ghost predicate Accumulated(receptions: map<Entity, Reception>, start: map<Entity, ReceptionState>, ds: seq<Delivery>)
    reads receptions.Values
  {
    && receptions.Keys == start.Keys
    && forall e :: e in receptions ==>
         && receptions[e].current == start[e].current
         && DeliverAll(start[e].buffer, For(ds, e)) == Some(receptions[e].receiveBuffer)
  }

  /** One more delivery is applied to the queue the earlier ones left. */
  lemma DeliverAllSnoc(buffer: seq<real>, ds: seq<Delivery>, d: Delivery)
    ensures DeliverAll(buffer, ds + [d]) ==
            match DeliverAll(buffer, ds)
            case None => None
            case Some(b) => Deliver(b, d)
  {
    assert (ds + [d])[..|ds|] == ds;
  }

  /** The target's share after one more delivery, from the queue its earlier share left. */
  lemma DeliverStep(buffer: seq<real>, ds: seq<Delivery>, d: Delivery, queue: seq<real>)
    requires DeliverAll(buffer, For(ds, d.target)) == Some(queue)
    ensures DeliverAll(buffer, For(ds + [d], d.target)) == Deliver(queue, d)
    ensures Deliver(queue, d).Some? <==> InRange(d.events, |Grow(queue, d.maxTime)|)
  {
    ForSnoc(ds, d, d.target);
    DeliverAllSnoc(buffer, For(ds, d.target), d);
    AccumulateSpec(Grow(queue, d.maxTime), d.current, d.events);
  }

  /** One transfer: applied to its target's reception, or skipped when the target has none. */
  method DeliverOne(receptions: map<Entity, Reception>, ghost start: map<Entity, ReceptionState>,
                    ghost ds: seq<Delivery>, d: Delivery) returns (ok: bool)
    requires Distinct(receptions) && Accumulated(receptions, start, ds)
    modifies receptions.Values
    ensures ok ==> Accumulated(receptions, start, ds + [d])
    ensures !ok ==> d.target in start && DeliverAll(start[d.target].buffer, For(ds + [d], d.target)).None?
  {
    forall e | e in receptions && e != d.target ensures For(ds + [d], e) == For(ds, e) {
      ForSnoc(ds, d, e);
    }
    if d.target !in receptions {
      return true;
    }
    var rec := receptions[d.target];
    DeliverStep(start[d.target].buffer, ds, d, rec.receiveBuffer);
    ok := rec.Deliver(d.current, d.events, d.maxTime);
  }

  /** The tick's outcome is decided by the queue the deliveries leave. */
  lemma TickPops(s: ReceptionState, ds: seq<Delivery>, queue: seq<real>)
    requires DeliverAll(s.buffer, ds) == Some(queue)
    ensures Tick(s, ds) == if queue == [] then None else Some(ReceptionState(queue[0], queue[1..]))
  {
  }

  /** The end of the tick: every receiver pops the front of its queue. */
  method PopAll(receptions: map<Entity, Reception>, ghost start: map<Entity, ReceptionState>,
                ghost ds: seq<Delivery>) returns (ok: bool)
    requires Distinct(receptions) && Accumulated(receptions, start, ds)
    modifies receptions.Values
    ensures ok ==> forall e :: e in receptions ==> Tick(start[e], For(ds, e)) == Some(receptions[e].State())
    ensures !ok ==> exists e :: e in receptions && Tick(start[e], For(ds, e)).None?
  {
    var todo := receptions.Keys;
    while todo != {}
      invariant todo <= receptions.Keys
      invariant forall e :: e in todo ==>
                  && receptions[e].current == start[e].current
                  && DeliverAll(start[e].buffer, For(ds, e)) == Some(receptions[e].receiveBuffer)
      invariant forall e :: e in receptions && e !in todo ==>
                  Tick(start[e], For(ds, e)) == Some(receptions[e].State())
      decreases todo
    {
      var e :| e in todo;
      var rec := receptions[e];
      TickPops(start[e], For(ds, e), rec.receiveBuffer);
      var popped := rec.PopFront();
      if !popped {
        return false;
      }
      forall x | x in todo && x != e
        ensures receptions[x].current == start[x].current
        ensures DeliverAll(start[x].buffer, For(ds, x)) == Some(receptions[x].receiveBuffer)
      {
        assert receptions[x] != rec;
      }
      forall x | x in receptions && (x !in todo || x == e)
        ensures Tick(start[x], For(ds, x)) == Some(receptions[x].State())
      {
        assert x != e ==> receptions[x] != rec;
      }
      todo := todo - {e};
    }
    return true;
  }

  /** Extending the part already visited by the next element keeps it an initial part of the whole. */
  lemma PrefixStep<T>(done: seq<T>, rest: seq<T>, j: nat)
    requires j < |rest|
    ensures done + rest[..j] + [rest[j]] == done + rest[..j + 1]
    ensures IsPrefix(done + rest[..j + 1], done + rest)
  {
    assert rest[..j + 1] == rest[..j] + [rest[j]];
    assert (done + rest)[..|done| + j + 1] == done + rest[..j + 1];
  }

  /** The transfers of one emitter, each to its target; on a fatal one, which receiver and after which deliveries. */
  method DeliverEmission(receptions: map<Entity, Reception>, ghost start: map<Entity, ReceptionState>,
                         ghost done: seq<Delivery>, emit: Emission)
    returns (ok: bool, ghost fatal: seq<Delivery>, ghost who: Entity)
    requires Distinct(receptions) && Accumulated(receptions, start, done)
    modifies receptions.Values
    ensures ok ==> Accumulated(receptions, start, done + Spread(emit))
    ensures !ok ==> IsPrefix(fatal, done + Spread(emit)) && who in start
                    && DeliverAll(start[who].buffer, For(fatal, who)).None?
  {
    ghost var all := Spread(emit);
    assert done + all[..0] == done;
    fatal, who := [], 0;
    for j := 0 to |emit.transfer|
      invariant Accumulated(receptions, start, done + all[..j])
    {
      var t := emit.transfer[j];
      var d := Delivery(t.target, emit.current, t.events, t.maxTime);
      assert all[j] == d;
      PrefixStep(done, all, j);
      ok := DeliverOne(receptions, start, done + all[..j], d);
      if !ok {
        fatal, who := done + all[..j + 1], d.target;
        return;
      }
    }
    assert all[..|all|] == all;
    ok := true;
  }

  lemma PrefixTransitive<T>(a: seq<T>, b: seq<T>, c: seq<T>)
    requires IsPrefix(a, b) && IsPrefix(b, c)
    ensures IsPrefix(a, c)
  {
    assert c[..|a|] == c[..|b|][..|a|];
  }

  /**
    One tick of the propagation system over all emitters and receivers. A
    transfer to an entity without a reception is skipped. The tick succeeds
    exactly when every receiver's own tick does, and then each receiver ends
    in the state its own tick gives.
  */
  method Run(emissions: seq<Emission>, receptions: map<Entity, Reception>) returns (ok: bool)
    requires Distinct(receptions)
    modifies receptions.Values
    ensures ok <==> forall e :: e in receptions ==>
              Tick(old(receptions[e].State()), For(Flatten(emissions), e)).Some?
    ensures ok ==> forall e :: e in receptions ==>
              Tick(old(receptions[e].State()), For(Flatten(emissions), e)) == Some(receptions[e].State())
  {
    ghost var start := map e | e in receptions :: receptions[e].State();
    ghost var all := Flatten(emissions);
    assert emissions[..0] == [];
    for i := 0 to |emissions|
      invariant Accumulated(receptions, start, Flatten(emissions[..i]))
    {
      var emit := emissions[i];
      ghost var done := Flatten(emissions[..i]);
      assert emissions[..i + 1][..i] == emissions[..i];
      assert Flatten(emissions[..i + 1]) == done + Spread(emit);
      FlattenPrefix(emissions, i + 1);
      ghost var fatal, who;
      ok, fatal, who := DeliverEmission(receptions, start, done, emit);
      if !ok {
        PrefixTransitive(fatal, done + Spread(emit), all);
        FatalTick(start[who], fatal, all, who);
        return;
      }
    }
    assert emissions[..|emissions|] == emissions;
    ok := PopAll(receptions, start, all);
  }
}
