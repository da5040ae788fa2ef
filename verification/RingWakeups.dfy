/**
 Lost wakeups. A sleeping endpoint that could go on always has a pending event, or a peer
 that is between its store and its write of the event; with one exception. The native pop
 signals space from the producer counter it loaded before, and that is enough exactly when
 the ring has capacity 1.
 */
module RingWakeups {
  import opened Ring

  /** A publication after the consumer's load has been, or will be, signalled. */
  ghost predicate DataPending(s: State, p: nat) {
    s.p > p ==> s.data > 0 || s.prod.PSignal?
  }

  ghost predicate DataHeard(s: State) {
    match s.cons
    case CLoadConsumer(_, p) => DataPending(s, p)
    case CEmpty(_, p) => DataPending(s, p)
    case CWait(p) => DataPending(s, p)
    case _ => true
  }

  ghost predicate CloseHeard(s: State) {
    && (s.cons.CWait? && s.closed ==> s.data > 0 || s.atData > 0)
    && (s.prod.PWait? && s.closed ==> s.space > 0 || s.atData > 0 || s.atSpace > 0)
  }

  /** A pop after the producer's load has been, or will be, signalled. */
  ghost predicate SpacePending(s: State, c: nat) {
    s.c > c ==> s.space > 0 || (s.cons.CSignal? && Signals(s.cfg, s.cons.p, s.cons.c))
  }

  ghost predicate SpaceHeard(s: State) {
    match s.prod
    case PFull(_, _, _, c) => SpacePending(s, c)
    case PWait(_, _, c) => SpacePending(s, c)
    case _ => true
  }

  lemma DataHeardKept(s: State, step: Step)
    requires Safe(s) && Enabled(s, step) && DataHeard(s)
    ensures DataHeard(Do(s, step))
  {
    match step
    case ProducerMove => DataHeardProducing(s);
    case ConsumerMove => DataHeardConsuming(s);
    case _ =>
  }

  lemma DataHeardProducing(s: State)
    requires Safe(s) && DataHeard(s)
    ensures DataHeard(Produce(s))
  {
    hide Fifo, Slot, Impossible;
  }

  lemma DataHeardConsuming(s: State)
    requires Safe(s) && DataHeard(s)
    ensures DataHeard(Consume(s))
  {
  }

  lemma CloseHeardKept(s: State, step: Step)
    requires Safe(s) && Enabled(s, step) && CloseHeard(s)
    ensures CloseHeard(Do(s, step))
  {
    match step
    case ProducerMove => CloseHeardProducing(s);
    case ConsumerMove => CloseHeardConsuming(s);
    case _ =>
  }

  lemma CloseHeardProducing(s: State)
    requires Safe(s) && CloseHeard(s)
    ensures CloseHeard(Produce(s))
  {
  }

  lemma CloseHeardConsuming(s: State)
    requires Safe(s) && CloseHeard(s)
    ensures CloseHeard(Consume(s))
  {
  }

  ghost predicate AlwaysSignals(cfg: Config) {
    cfg.consumer.Python? || cfg.capacity == 1
  }

  lemma SpaceHeardProducing(s: State)
    requires Safe(s) && SpaceHeard(s)
    ensures SpaceHeard(Produce(s))
  {
  }

  lemma SpaceHeardConsuming(s: State)
    requires Safe(s) && AlwaysSignals(s.cfg) && SpaceHeard(s)
    ensures SpaceHeard(Consume(s))
  {
    hide Fifo, Slot, Impossible;
  }

  lemma SpaceHeardKept(s: State, step: Step)
    requires Safe(s) && Enabled(s, step) && AlwaysSignals(s.cfg) && SpaceHeard(s)
    ensures SpaceHeard(Do(s, step))
  {
    match step
    case ProducerMove => SpaceHeardProducing(s);
    case ConsumerMove => SpaceHeardConsuming(s);
    case _ =>
  }

  lemma {:induction false} TraceHeard(t: Trace)
    requires Start(StartOf(t))
    ensures DataHeard(EndOf(t)) && CloseHeard(EndOf(t))
    ensures AlwaysSignals(StartOf(t).cfg) ==> SpaceHeard(EndOf(t))
    decreases t
  {
    if t.Then? {
      TraceHeard(t.before);
      TraceSafe(t.before);
      var s := EndOf(t.before);
      if Enabled(s, t.step) {
        DataHeardKept(s, t.step);
        CloseHeardKept(s, t.step);
        if AlwaysSignals(s.cfg) {
          SpaceHeardKept(s, t.step);
        }
      }
    }
  }

  // ----- What a sleeper is promised ---------------------------------------------------

  /** No sleeping consumer with a record to pop is left without an event or a signalling peer,
      and nobody sleeps through a close. */
  ghost predicate ConsumerWoken(s: State) {
    && (s.cons.CWait? && s.p > s.c ==> s.data > 0 || s.prod.PSignal?)
    && (s.cons.CWait? && s.closed ==> s.data > 0 || s.atData > 0)
    && (s.prod.PWait? && s.closed ==> s.space > 0 || s.atData > 0 || s.atSpace > 0)
  }

  /** No sleeping producer with space to push is left without an event or a signalling peer. */
  ghost predicate ProducerWoken(s: State) {
    s.prod.PWait? && s.p < s.c + s.cfg.capacity ==>
      s.space > 0 || (s.cons.CSignal? && Signals(s.cfg, s.cons.p, s.cons.c))
  }

  lemma NoLostWakeup(s: State)
    requires Reachable(s)
    ensures ConsumerWoken(s)
    ensures AlwaysSignals(s.cfg) ==> ProducerWoken(s)
  {
    var t :| Start(StartOf(t)) && EndOf(t) == s;
    TraceSafe(t);
    TraceHeard(t);
  }

  // ----- The native pop above capacity 1 ----------------------------------------------

  /** Nobody has closed or popped; `n` records were pushed; both endpoints are as given. */
  ghost predicate At(s: State, cfg: Config, n: nat, prod: Producer, cons: Consumer) {
    && Reachable(s) && Shaped(s) && s.cfg == cfg && s.p == n && s.c == 0 && s.prod == prod && s.cons == cons
    && !s.closed && s.space == 0
  }

  lemma {:induction false} CopyAll(s: State, cfg: Config, n: nat, rec: Record, copied: nat, cons: Consumer)
    returns (t: State)
    requires At(s, cfg, n, PCopy(rec, n, copied), cons) && copied <= cfg.words && |rec| == cfg.words
    ensures At(t, cfg, n, PCopy(rec, n, cfg.words), cons)
    decreases cfg.words - copied
  {
    t := s;
    if copied < cfg.words {
      OneMore(s, ProducerMove);
      t := CopyAll(Produce(s), cfg, n, rec, copied + 1, cons);
    }
  }

  /** The producer has looked at both counters for the first time since it was idle. */
  lemma PushLooks(s: State, cfg: Config, n: nat, rec: Record, cons: Consumer) returns (t: State)
    requires At(s, cfg, n, PIdle, cons) && n <= cfg.capacity && |rec| == cfg.words
    ensures At(t, cfg, n, t.prod, cons)
    ensures t.prod == if n == cfg.capacity then PFull(rec, First, n, 0)
                      else if n == MAX_COUNTER then PExhausted else PCopy(rec, n, 0)
  {
    OneMore(s, StartPush(rec));
    t := Do(s, StartPush(rec));
    if cfg.producer.Native? {
      t := Looks(t, cfg, n, PReadFlag(rec, First), cons);
    }
    t := Looks(t, cfg, n, PLoadProducer(rec, First), cons);
    t := Looks(t, cfg, n, PLoadConsumer(rec, First, n), cons);
  }

  lemma Looks(s: State, cfg: Config, n: nat, prod: Producer, cons: Consumer) returns (t: State)
    requires At(s, cfg, n, prod, cons) && !prod.PCopy? && !prod.PDrain? && !prod.PSignal?
    ensures t == Produce(s) && At(t, cfg, n, t.prod, cons)
  {
    OneMore(s, ProducerMove);
    t := Produce(s);
  }

  lemma PushOne(s: State, cfg: Config, n: nat, rec: Record, cons: Consumer) returns (t: State)
    requires At(s, cfg, n, PIdle, cons) && n < cfg.capacity && n < MAX_COUNTER && |rec| == cfg.words
    ensures At(t, cfg, n + 1, PIdle, cons)
  {
    t := PushLooks(s, cfg, n, rec, cons);
    t := CopyAll(t, cfg, n, rec, 0, cons);
    OneMore(t, ProducerMove);
    t := Produce(t);
    OneMore(t, ProducerMove);
    t := Produce(t);
  }

  lemma {:induction false} FillTo(cfg: Config, rec: Record, n: nat) returns (s: State)
    requires n <= cfg.capacity && n <= MAX_COUNTER && 0 < cfg.capacity && |rec| == cfg.words
    ensures At(s, cfg, n, PIdle, CIdle)
    decreases n
  {
    if n == 0 {
      s := State(cfg, 0, 0, seq(cfg.capacity, _ => rec), 0, 0, false, 0, 0, PIdle, CIdle, [], []);
      assert Start(StartOf(Begin(s))) && EndOf(Begin(s)) == s;
    } else {
      s := FillTo(cfg, rec, n - 1);
      s := PushOne(s, cfg, n - 1, rec, CIdle);
    }
  }

  /** A native producer drains the space event once and starts over. */
  lemma DrainsOnce(s: State, cfg: Config, n: nat, rec: Record, cons: Consumer) returns (t: State)
    requires At(s, cfg, n, PDrain(rec), cons) && cfg.producer.Native?
    ensures At(t, cfg, n, PReadFlag(rec, Second), cons)
  {
    OneMore(s, ProducerMove);
    t := Produce(s);
  }

  /** A push on a full ring goes to sleep, the native one after a second look. */
  lemma PushSleeps(s: State, cfg: Config, rec: Record, cons: Consumer) returns (t: State)
    requires At(s, cfg, cfg.capacity, PIdle, cons) && |rec| == cfg.words
    ensures At(t, cfg, cfg.capacity, PWait(rec, cfg.capacity, 0), cons)
  {
    hide At;
    var n := cfg.capacity;
    t := PushLooks(s, cfg, n, rec, cons);
    t := Looks(t, cfg, n, PFull(rec, First, n, 0), cons);
    if cfg.producer.Native? {
      t := DrainsOnce(t, cfg, n, rec, cons);
      t := Looks(t, cfg, n, PReadFlag(rec, Second), cons);
      t := Looks(t, cfg, n, PLoadProducer(rec, Second), cons);
      t := Looks(t, cfg, n, PLoadConsumer(rec, Second, n), cons);
      t := Looks(t, cfg, n, PFull(rec, Second, n, 0), cons);
    }
  }

  lemma {:induction false} ReadAll(s: State, cfg: Config, n: nat, prod: Producer, p: nat, buffer: Record)
    returns (t: State, whole: Record)
    requires At(s, cfg, n, prod, CCopy(p, 0, buffer)) && |buffer| <= cfg.words
    ensures At(t, cfg, n, prod, CCopy(p, 0, whole)) && |whole| == cfg.words
    decreases cfg.words - |buffer|
  {
    t, whole := s, buffer;
    if |buffer| < cfg.words {
      OneMore(s, ConsumerMove);
      t, whole := ReadAll(Consume(s), cfg, n, prod, p, Consume(s).cons.buffer);
    }
  }

  /** The consumer has loaded the counter one publication before the producer filled the ring
      and went to sleep. */
  lemma StaleLoad(cfg: Config, rec: Record) returns (s: State)
    requires 2 <= cfg.capacity < MAX_COUNTER && |rec| == cfg.words
    ensures At(s, cfg, cfg.capacity, PWait(rec, cfg.capacity, 0), CLoadConsumer(First, cfg.capacity - 1))
  {
    var n := cfg.capacity;
    s := FillTo(cfg, rec, n - 1);
    OneMore(s, StartPop);
    s := Do(s, StartPop);
    OneMore(s, ConsumerMove);
    s := Consume(s);
    s := PushOne(s, cfg, n - 1, rec, CLoadConsumer(First, n - 1));
    s := PushSleeps(s, cfg, rec, CLoadConsumer(First, n - 1));
  }

  /**
   With a native consumer and capacity 2 or more: the consumer loads the producer counter,
   the producer publishes the last free slot, finds the ring full and goes to sleep, and the
   consumer pops without signalling. The producer sleeps on with a slot free.
   */
  lemma SpaceWakeupLost(cfg: Config) returns (s: State)
    requires 2 <= cfg.capacity < MAX_COUNTER && cfg.consumer.Native?
    ensures Reachable(s) && s.cfg == cfg && !ProducerWoken(s)
  {
    var rec, n := seq(cfg.words, _ => 0), cfg.capacity;
    s := StaleLoad(cfg, rec);
    OneMore(s, ConsumerMove);
    s := Consume(s);
    ghost var whole;
    s, whole := ReadAll(s, cfg, n, PWait(rec, n, 0), n - 1, []);
    OneMore(s, ConsumerMove);
    s := Consume(s);
  }

  /** A ring whose capacity fits its 32-bit header field never leaves a producer asleep with
      space free exactly when its consumer always signals, or its capacity is 1. */
  lemma SpaceWakeupExactly(cfg: Config)
    requires 0 < cfg.capacity < 0x1_0000_0000
    ensures (forall s | Reachable(s) && s.cfg == cfg :: ProducerWoken(s)) <==>
      cfg.consumer.Python? || cfg.capacity == 1
  {
    if AlwaysSignals(cfg) {
      forall s | Reachable(s) && s.cfg == cfg ensures ProducerWoken(s) {
        NoLostWakeup(s);
      }
    } else {
      var s := SpaceWakeupLost(cfg);
    }
  }
}
