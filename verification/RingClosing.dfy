/**
 What a call on the ring comes to. A push publishes the record it was given, once, or returns because
 the ring is closed or its deadline has passed; a pop likewise. Closing lets everybody go: no call
 on a closed ring lasts, and only the Python producer still publishes there.
 */
module RingClosing {
  import opened Wrappers
  import opened Ring
  import opened RingWakeups

  // ----- How calls return -------------------------------------------------------------

  /** The record a push under way is to publish. */
  function Pushing(p: Producer): Option<Record> {
    match p
    case PIdle | PSignal | PExhausted | PCorrupt => None
    case PReadFlag(rec, _) => Some(rec)
    case PLoadProducer(rec, _) => Some(rec)
    case PLoadConsumer(rec, _, _) => Some(rec)
    case PCopy(rec, _, _) => Some(rec)
    case PFull(rec, _, _, _) => Some(rec)
    case PDrain(rec) => Some(rec)
    case PWait(rec, _, _) => Some(rec)
  }

  lemma ProducingCarries(s: State)
    requires Shaped(s)
    ensures var t := Produce(s);
      && (Pushing(t.prod).Some? ==> Pushing(t.prod) == Pushing(s.prod) && t.pushed == s.pushed)
      && (t.prod.PSignal? ==> Pushing(s.prod).Some? && t.pushed == s.pushed + [Pushing(s.prod).value])
      && (t.prod.PIdle? ==> t.pushed == s.pushed && (s.prod.PIdle? || s.prod.PSignal? || s.closed))
  {
  }

  lemma OthersPushNothing(s: State, step: Step)
    requires Shaped(s) && Enabled(s, step) && !step.ProducerMove?
    ensures var t := Do(s, step);
      && t.pushed == s.pushed
      && (!step.StartPush? && !step.ProducerTimeout? ==> t.prod == s.prod)
      && (step.StartPush? ==> Pushing(t.prod) == Some(step.rec)) && (step.ProducerTimeout? ==> t.prod.PIdle?)
  {
    hide Produce;
  }

  /** A push carries its caller's record until it publishes exactly that; it returns only then, on a
      closed ring, or at its deadline. */
  lemma PushReturns(s: State, step: Step)
    requires Shaped(s) && Enabled(s, step)
    ensures var t := Do(s, step);
      && (step.StartPush? ==> Pushing(t.prod) == Some(step.rec) && t.pushed == s.pushed)
      && (step.ProducerTimeout? ==> t.prod.PIdle?)
      && (!step.StartPush? && Pushing(t.prod).Some? ==> Pushing(t.prod) == Pushing(s.prod) && t.pushed == s.pushed)
      && (t.prod.PSignal? && !s.prod.PSignal? ==>
            Pushing(s.prod).Some? && t.pushed == s.pushed + [Pushing(s.prod).value])
      && (t.prod.PIdle? && !s.prod.PIdle? ==>
            t.pushed == s.pushed && (s.prod.PSignal? || s.closed || step.ProducerTimeout?))
  {
    if step.ProducerMove? {
      hide Produce, Pushing;
      ProducingCarries(s);
    } else {
      hide Do, Enabled;
      OthersPushNothing(s, step);
    }
  }

  lemma PopMoves(s: State, step: Step)
    requires Shaped(s) && Enabled(s, step)
    ensures var t := Do(s, step);
      && (step.StartPop? ==> t.cons.CLoadProducer?) && (step.ConsumerTimeout? ==> t.cons.CIdle?)
      && (t.cons.CSignal? && !s.cons.CSignal? ==> step.ConsumerMove? && s.cons.CCopy?)
      && (t.cons.CIdle? && !s.cons.CIdle? ==>
            !s.cons.CCopy? && (s.cons.CSignal? || (s.closed && s.cons.CEmpty?) || step.ConsumerTimeout?))
  {
    hide Produce;
    if step.ProducerMove? {
      ProducingAside(s);
    }
  }

  lemma ProducingAside(s: State)
    requires Shaped(s)
    ensures Produce(s).cons == s.cons && Produce(s).closed == s.closed
  {
  }

  lemma ConsumingAside(s: State)
    requires Shaped(s)
    ensures Consume(s).prod == s.prod && Consume(s).closed == s.closed
  {
  }

  /** A pop hands over the front of the queue, or returns empty-handed on a closed ring or at its deadline. */
  lemma PopReturns(s: State, step: Step)
    requires Safe(s) && Enabled(s, step)
    ensures var t := Do(s, step);
      && (step.StartPop? ==> t.cons.CLoadProducer?) && (step.ConsumerTimeout? ==> t.cons.CIdle?)
      && (t.cons.CSignal? && !s.cons.CSignal? ==> Queue(s) != [] && t.popped == s.popped + [Queue(s)[0]])
      && (t.cons.CIdle? && !s.cons.CIdle? ==>
            t.popped == s.popped && (s.cons.CSignal? || (s.closed && s.cons.CEmpty?) || step.ConsumerTimeout?))
  {
    hide Do, Enabled, Fifo, ConsumerKnows, ProducerKnows;
    PopMoves(s, step);
    StepRefinesQueue(s, step);
  }

  /** A close is for good, and each closer writes both events. */
  lemma CloseEffect(s: State, step: Step)
    requires Shaped(s) && Enabled(s, step)
    ensures Do(s, step).closed <==> s.closed || step.Close?
    ensures step.Close? ==> Do(s, step) == s.(closed := true, atData := s.atData + 1)
    ensures step.CloserWritesData? ==> Do(s, step).data > 0 && Do(s, step).atSpace == s.atSpace + 1
    ensures step.CloserWritesSpace? ==> Do(s, step).space > 0
  {
    hide Produce, Consume;
    if step.ProducerMove? {
      ProducingAside(s);
    } else if step.ConsumerMove? {
      ConsumingAside(s);
    }
  }

  // ----- Calls on a closed ring -------------------------------------------------------

  /** How many moves a push has left on a closed ring. */
  function PushWork(s: State): nat {
    match s.prod
    case PIdle | PExhausted | PCorrupt => 0
    case PReadFlag(_, _) => 1
    case PSignal => 1
    case PFull(_, _, _, _) => 1
    case PCopy(_, _, copied) => 2 + if copied < s.cfg.words then s.cfg.words - copied else 0
    case PLoadConsumer(_, _, _) => 3 + s.cfg.words
    case PLoadProducer(_, _) => 4 + s.cfg.words
    case PDrain(_) => 5 + s.cfg.words
    case PWait(_, _, _) => 6 + s.cfg.words
  }

  function PopWork(s: State): nat {
    match s.cons
    case CIdle | CExhausted | CCorrupt => 0
    case CSignal(_, _) => 1
    case CEmpty(_, _) => 1
    case CCopy(_, _, buffer) => 2 + if |buffer| < s.cfg.words then s.cfg.words - |buffer| else 0
    case CLoadConsumer(_, _) => 3 + s.cfg.words
    case CLoadProducer(_) => 4 + s.cfg.words
    case CDrain => 5 + s.cfg.words
    case CWait(_) => 6 + s.cfg.words
  }

  lemma PushEnds(s: State)
    requires Shaped(s) && s.closed && PushWork(s) > 0 && !(s.prod.PWait? && s.space == 0)
    ensures PushWork(Produce(s)) < PushWork(s)
  {
  }

  lemma PopEnds(s: State)
    requires Shaped(s) && s.closed && PopWork(s) > 0 && !(s.cons.CWait? && s.data == 0)
    ensures PopWork(Consume(s)) < PopWork(s)
  {
  }

  /**
   Closing lets everybody go: on a closed ring each move of a push or a pop under way brings it nearer
   to its return and nothing else takes it further away; one asleep has its event set, or a closer
   is about to set it.
   */
  lemma ClosedCallsEnd(s: State)
    requires Reachable(s) && Shaped(s) && s.closed
    ensures PushWork(s) > 0 ==> PushWork(Produce(s)) < PushWork(s) || (s.prod.PWait? && (s.atData > 0 || s.atSpace > 0))
    ensures PopWork(s) > 0 ==> PopWork(Consume(s)) < PopWork(s) || (s.cons.CWait? && s.atData > 0)
    ensures PushWork(Consume(s)) == PushWork(s) && PopWork(Produce(s)) == PopWork(s)
  {
    hide Produce, Consume;
    NoLostWakeup(s);
    ProducingAside(s);
    ConsumingAside(s);
    WorkAside(s);
    if PushWork(s) > 0 && !(s.prod.PWait? && s.space == 0) {
      PushEnds(s);
    }
    if PopWork(s) > 0 && !(s.cons.CWait? && s.data == 0) {
      PopEnds(s);
    }
  }

  lemma WorkAside(s: State)
    requires Shaped(s)
    ensures Produce(s).cfg == s.cfg && Consume(s).cfg == s.cfg
  {
  }

  // ----- What a closed ring still takes -----------------------------------------------

  /** Steps one after the other, those not enabled having no effect. */
  ghost function After(s: State, steps: seq<Step>): State
    decreases |steps|
  {
    if steps == [] then s
    else After(if Shaped(s) && Enabled(s, steps[0]) then Do(s, steps[0]) else s, steps[1..])
  }

  lemma RefusesOn(s: State, step: Step)
    requires Safe(s) && Enabled(s, step) && s.closed && s.cfg.producer.Native?
    requires s.prod.PIdle? || s.prod.PReadFlag?
    ensures var t := Do(s, step);
      && t.pushed == s.pushed && t.closed && t.cfg == s.cfg && (t.prod.PIdle? || t.prod.PReadFlag?)
  {
    hide Fifo, ConsumerKnows;
    PushReturns(s, step);
    CloseEffect(s, step);
    DoShaped(s, step);
  }

  /** The native producer publishes nothing it is given after the close. */
  lemma {:induction false} NativeRefusesWhenClosed(s: State, steps: seq<Step>)
    requires Safe(s) && s.closed && s.cfg.producer.Native? && (s.prod.PIdle? || s.prod.PReadFlag?)
    ensures After(s, steps).pushed == s.pushed
    decreases |steps|
  {
    hide Safe, Do, Enabled;
    if steps != [] {
      var t := s;
      if Shaped(s) && Enabled(s, steps[0]) {
        RefusesOn(s, steps[0]);
        DoKeeps(s, steps[0]);
        t := Do(s, steps[0]);
      }
      NativeRefusesWhenClosed(t, steps[1..]);
    }
  }

  function Moves(n: nat): seq<Step> {
    seq(n, _ => ProducerMove)
  }

  lemma MoveFirst(s: State, n: nat)
    requires Shaped(s)
    ensures After(s, Moves(n + 1)) == After(Produce(s), Moves(n))
  {
    assert Moves(n + 1)[1..] == Moves(n);
  }

  lemma {:induction false} CopiesOut(s: State, rec: Record, copied: nat)
    requires Safe(s) && s.prod == PCopy(rec, s.p, copied)
    ensures copied <= s.cfg.words && |rec| == s.cfg.words
    ensures After(s, Moves(s.cfg.words - copied + 1)).pushed == s.pushed + [rec]
    decreases s.cfg.words - copied
  {
    hide Fifo, ConsumerKnows;
    MoveFirst(s, s.cfg.words - copied);
    ProduceKeeps(s);
    if copied < s.cfg.words {
      CopiesOut(Produce(s), rec, copied + 1);
    } else {
      assert Moves(0) == [];
    }
  }

  lemma PythonLooks(s: State, rec: Record)
    requires Safe(s) && s.prod == PLoadProducer(rec, First) && s.p < s.c + s.cfg.capacity && s.p < MAX_COUNTER
    ensures var t := Produce(s);
      && Safe(t) && Safe(Produce(t)) && t.cfg == s.cfg && Produce(t).cfg == s.cfg
      && Produce(t).prod == PCopy(rec, s.p, 0) && Produce(t).p == s.p && Produce(t).pushed == s.pushed
  {
    hide Fifo, ConsumerKnows;
    ProduceKeeps(s);
    ProduceKeeps(Produce(s));
  }

  lemma PythonStarts(s: State, rec: Record)
    requires Safe(s) && s.cfg.producer.Python? && s.prod.PIdle? && |rec| == s.cfg.words
    ensures Do(s, StartPush(rec)) == s.(prod := PLoadProducer(rec, First)) && Safe(Do(s, StartPush(rec)))
  {
    hide Fifo, ConsumerKnows;
    DoKeeps(s, StartPush(rec));
  }

  /** The Python producer does, while there is room: it looks at the flag only to sleep. */
  lemma PythonPushesWhenClosed(s: State, rec: Record)
    requires Safe(s) && s.cfg.producer.Python? && s.prod.PIdle? && |rec| == s.cfg.words
    requires |Queue(s)| < s.cfg.capacity && s.p < MAX_COUNTER
    ensures After(s, [StartPush(rec)] + Moves(s.cfg.words + 3)).pushed == s.pushed + [rec]
  {
    assert s.p < s.c + s.cfg.capacity;
    hide Safe, Do, Produce, Moves, Counted;
    SafeShaped(s);
    PythonStarts(s, rec);
    var t := Do(s, StartPush(rec));
    assert ([StartPush(rec)] + Moves(s.cfg.words + 3))[1..] == Moves(s.cfg.words + 3);
    SafeShaped(t);
    PythonLooks(t, rec);
    SafeShaped(Produce(t));
    MoveFirst(t, s.cfg.words + 2);
    MoveFirst(Produce(t), s.cfg.words + 1);
    CopiesOut(Produce(Produce(t)), rec, 0);
  }

  lemma SafeShaped(s: State)
    requires Safe(s)
    ensures Shaped(s) && Counted(s)
  {
  }
}
