/**
 The shared-memory ring as an interleaving of one producer, one consumer and any number of
 closers. Loading a counter, copying one word of a slot, publishing a counter and writing
 an event are separate steps. Both endpoints exist in two forms, which differ in when the
 flag is read, when the events are drained and when space is signalled.
 */
module Ring {

  const MAX_COUNTER := 0xFFFF_FFFF_FFFF_FFFF

  /** A record as the words it is copied by. */
  type Record = seq<nat>

  datatype Side = Native | Python

  datatype Config = Config(capacity: nat, words: nat, producer: Side, consumer: Side)

  /** The native endpoints try a second time after draining the event, before they sleep. */
  datatype Attempt = First | Second

  datatype Producer =
    | PIdle
    | PReadFlag(rec: Record, attempt: Attempt)
    | PLoadProducer(rec: Record, attempt: Attempt)
    | PLoadConsumer(rec: Record, attempt: Attempt, p: nat)
    | PCopy(rec: Record, p: nat, copied: nat)
    | PSignal                                              // published, data event not written yet
    | PFull(rec: Record, attempt: Attempt, p: nat, c: nat) // no space seen, flag not read yet
    | PDrain(rec: Record)
    | PWait(rec: Record, p: nat, c: nat)                   // asleep until the space event is set
    | PExhausted                                           // the producer counter cannot grow
    | PCorrupt                                             // "impossible counters"

  datatype Consumer =
    | CIdle
    | CLoadProducer(attempt: Attempt)
    | CLoadConsumer(attempt: Attempt, p: nat)
    | CCopy(p: nat, c: nat, buffer: Record)
    | CSignal(p: nat, c: nat)                              // published, space event not written yet
    | CEmpty(attempt: Attempt, p: nat)                     // nothing seen, flag not read yet
    | CDrain
    | CWait(p: nat)                                        // asleep until the data event is set
    | CExhausted
    | CCorrupt

  /**
   `p` and `c` are the shared counters, `data` and `space` the events, `atData` and `atSpace`
   the closers that have set the flag but not yet written that event. `pushed` and `popped`
   record what was published and what was handed to the consumer.
   */
  datatype State = State(
    cfg: Config, p: nat, c: nat, slots: seq<Record>, data: nat, space: nat,
    closed: bool, atData: nat, atSpace: nat,
    prod: Producer, cons: Consumer, pushed: seq<Record>, popped: seq<Record>)

  datatype Step =
    | StartPush(rec: Record) | ProducerMove | ProducerTimeout
    | StartPop | ConsumerMove | ConsumerTimeout
    | Close | CloserWritesData | CloserWritesSpace

  function Slot(i: nat, capacity: nat): (r: nat)
    requires capacity > 0
    ensures r < capacity
  {
    i % capacity
  }

  predicate Impossible(p: nat, c: nat, capacity: nat) {
    p < c || p - c > capacity
  }

  function Produce(s: State): State
    requires Shaped(s)
  {
    match s.prod
    case PIdle | PExhausted | PCorrupt => s
    case PReadFlag(rec, attempt) =>
      s.(prod := if s.closed then PIdle else PLoadProducer(rec, attempt))
    case PLoadProducer(rec, attempt) => s.(prod := PLoadConsumer(rec, attempt, s.p))
    case PLoadConsumer(rec, attempt, p) =>
      s.(prod := if Impossible(p, s.c, s.cfg.capacity) then PCorrupt
                 else if p - s.c == s.cfg.capacity then PFull(rec, attempt, p, s.c)
                 else if p == MAX_COUNTER then PExhausted
                 else PCopy(rec, p, 0))
    case PCopy(rec, p, copied) =>
      if copied < s.cfg.words && copied < |rec| then
        var at := Slot(p, s.cfg.capacity);
        s.(slots := s.slots[at := s.slots[at][copied := rec[copied]]], prod := PCopy(rec, p, copied + 1))
      else
        s.(p := p + 1, prod := PSignal, pushed := s.pushed + [rec])
    case PSignal => s.(data := s.data + 1, prod := PIdle)
    case PFull(rec, attempt, p, c) =>
      s.(prod := if s.closed then PIdle
                 else if s.cfg.producer.Native? && attempt.First? then PDrain(rec)
                 else PWait(rec, p, c))
    case PDrain(rec) =>
      s.(space := 0, prod := if s.cfg.producer.Native? then PReadFlag(rec, Second) else PLoadProducer(rec, First))
    case PWait(rec, _, _) =>
      if s.space == 0 then s
      else s.(prod := if s.cfg.producer.Native? then PReadFlag(rec, First) else PDrain(rec))
  }

  function Consume(s: State): State
    requires Shaped(s)
  {
    match s.cons
    case CIdle | CExhausted | CCorrupt => s
    case CLoadProducer(attempt) => s.(cons := CLoadConsumer(attempt, s.p))
    case CLoadConsumer(attempt, p) =>
      s.(cons := if Impossible(p, s.c, s.cfg.capacity) then CCorrupt
                 else if p == s.c then CEmpty(attempt, p)
                 else if s.c == MAX_COUNTER then CExhausted
                 else CCopy(p, s.c, []))
    case CCopy(p, c, buffer) =>
      if |buffer| < s.cfg.words then
        s.(cons := CCopy(p, c, buffer + [s.slots[Slot(c, s.cfg.capacity)][|buffer|]]))
      else
        s.(c := c + 1, cons := CSignal(p, c), popped := s.popped + [buffer])
    case CSignal(p, c) =>
      s.(cons := CIdle, space := s.space + if Signals(s.cfg, p, c) then 1 else 0)
    case CEmpty(attempt, p) =>
      s.(cons := if s.closed then CIdle
                 else if s.cfg.consumer.Native? && attempt.First? then CDrain
                 else CWait(p))
    case CDrain =>
      s.(data := 0, cons := CLoadProducer(if s.cfg.consumer.Native? then Second else First))
    case CWait(_) =>
      if s.data == 0 then s
      else s.(cons := if s.cfg.consumer.Native? then CLoadProducer(First) else CDrain)
  }

  /** The native pop signals space only if the ring was full when it loaded the producer counter. */
  predicate Signals(cfg: Config, p: nat, c: nat) {
    cfg.consumer.Python? || p == c + cfg.capacity
  }

  predicate Shaped(s: State) {
    && s.cfg.capacity > 0 && |s.slots| == s.cfg.capacity
    && forall i | 0 <= i < |s.slots| :: |s.slots[i]| == s.cfg.words
  }

  predicate Enabled(s: State, step: Step) {
    match step
    case StartPush(rec) => s.prod.PIdle? && |rec| == s.cfg.words
    case ProducerMove => true
    case ProducerTimeout => s.prod.PWait?
    case StartPop => s.cons.CIdle?
    case ConsumerMove => true
    case ConsumerTimeout => s.cons.CWait?
    case Close => true
    case CloserWritesData => s.atData > 0
    case CloserWritesSpace => s.atSpace > 0
  }

  function Do(s: State, step: Step): State
    requires Shaped(s) && Enabled(s, step)
  {
    match step
    case StartPush(rec) =>
      s.(prod := if s.cfg.producer.Native? then PReadFlag(rec, First) else PLoadProducer(rec, First))
    case ProducerMove => Produce(s)
    case ProducerTimeout => s.(prod := PIdle)
    case StartPop => s.(cons := CLoadProducer(First))
    case ConsumerMove => Consume(s)
    case ConsumerTimeout => s.(cons := CIdle)
    case Close => s.(closed := true, atData := s.atData + 1)
    case CloserWritesData => s.(data := s.data + 1, atData := s.atData - 1, atSpace := s.atSpace + 1)
    case CloserWritesSpace => s.(space := s.space + 1, atSpace := s.atSpace - 1)
  }

  ghost predicate Start(s: State) {
    && Shaped(s) && s.p == s.c == 0 && s.data == s.space == 0
    && !s.closed && s.atData == s.atSpace == 0
    && s.prod.PIdle? && s.cons.CIdle? && s.pushed == [] && s.popped == []
  }

  // ----- The invariant ----------------------------------------------------------------

  ghost predicate Counted(s: State) {
    && Shaped(s)
    && s.p == |s.pushed| <= MAX_COUNTER && s.c == |s.popped|
    && s.c <= s.p <= s.c + s.cfg.capacity
    && forall r | r in s.pushed :: |r| == s.cfg.words
  }

  /** What the producer has loaded is still true of its own counter and conservative about the other. */
  ghost predicate ProducerKnows(s: State)
    requires Counted(s)
  {
    match s.prod
    case PIdle | PSignal | PExhausted => true
    case PReadFlag(rec, _) => |rec| == s.cfg.words
    case PLoadProducer(rec, _) => |rec| == s.cfg.words
    case PDrain(rec) => |rec| == s.cfg.words
    case PLoadConsumer(rec, _, p) => |rec| == s.cfg.words && p == s.p
    case PCopy(rec, p, copied) =>
      && |rec| == s.cfg.words && p == s.p < MAX_COUNTER && s.p < s.c + s.cfg.capacity
      && copied <= s.cfg.words && s.slots[Slot(p, s.cfg.capacity)][..copied] == rec[..copied]
    case PFull(rec, _, p, c) => |rec| == s.cfg.words && p == s.p && c <= s.c && p == c + s.cfg.capacity
    case PWait(rec, p, c) => |rec| == s.cfg.words && p == s.p && c <= s.c && p == c + s.cfg.capacity
    case PCorrupt => false
  }

  ghost predicate ConsumerKnows(s: State)
    requires Counted(s)
  {
    match s.cons
    case CIdle | CLoadProducer(_) | CDrain => true
    case CLoadConsumer(_, p) => s.c <= p <= s.p
    case CCopy(p, c, buffer) =>
      c == s.c < p <= s.p && |buffer| <= s.cfg.words && buffer == s.pushed[c][..|buffer|]
    case CSignal(p, c) => s.c == c + 1 && c < p <= s.p && p <= c + s.cfg.capacity
    case CEmpty(_, p) => p == s.c
    case CWait(p) => p == s.c
    case CExhausted | CCorrupt => false
  }

  /** Unread slots hold what was pushed, and what was popped is a prefix of what was pushed. */
  ghost predicate Fifo(s: State)
    requires Counted(s)
  {
    && s.popped == s.pushed[..s.c]
    && forall i | s.c <= i < s.p :: s.slots[Slot(i, s.cfg.capacity)] == s.pushed[i]
  }

  ghost predicate Safe(s: State) {
    Counted(s) && Fifo(s) && ConsumerKnows(s) && ProducerKnows(s)
  }

  lemma {:induction false} SlotsDiffer(i: nat, j: nat, capacity: nat)
    requires i < j < i + capacity
    ensures Slot(i, capacity) != Slot(j, capacity)
  {
    var q := j / capacity - i / capacity;
    assert j - i == q * capacity + (j % capacity - i % capacity);
    if q >= 1 {
      assert q * capacity >= capacity by { Product(q - 1, capacity); }
    } else {
      assert q * capacity <= 0 by { Product(-q, capacity); }
    }
  }

  lemma Product(a: int, b: nat)
    requires a >= 0
    ensures a * b >= 0
  {
  }

  // ----- What every step keeps --------------------------------------------------------

  lemma CopyKeeps(s: State)
    requires Safe(s) && s.prod.PCopy? && s.prod.copied < s.cfg.words
    ensures Safe(Produce(s))
  {
    var t, rec, at := Produce(s), s.prod.rec, Slot(s.prod.p, s.cfg.capacity);
    assert t.slots[at] == s.slots[at][s.prod.copied := rec[s.prod.copied]];
    assert t.slots[at][..s.prod.copied + 1] == rec[..s.prod.copied + 1] by {
      assert t.slots[at][..s.prod.copied] == rec[..s.prod.copied];
    }
    forall i | t.c <= i < t.p ensures t.slots[Slot(i, t.cfg.capacity)] == t.pushed[i] {
      SlotsDiffer(i, s.prod.p, s.cfg.capacity);
    }
  }

  lemma PublishCounts(s: State)
    requires Safe(s) && s.prod.PCopy? && s.prod.copied == s.cfg.words
    ensures Counted(Produce(s))
  {
  }

  /** The slot just filled holds the record. */
  lemma SlotFilled(s: State)
    requires Safe(s) && s.prod.PCopy? && s.prod.copied == s.cfg.words
    ensures s.slots[Slot(s.p, s.cfg.capacity)] == s.prod.rec
  {
    hide Fifo, ConsumerKnows;
    var rec, at := s.prod.rec, Slot(s.prod.p, s.cfg.capacity);
    assert s.slots[at] == s.slots[at][..s.cfg.words] && rec == rec[..s.cfg.words];
  }

  lemma FifoExtended(s: State, t: State, rec: Record)
    requires Counted(s) && Fifo(s) && s.slots[Slot(s.p, s.cfg.capacity)] == rec
    requires Counted(t) && t == s.(p := s.p + 1, prod := t.prod, pushed := s.pushed + [rec])
    ensures Fifo(t)
  {
    hide Slot;
    assert t.pushed[..s.c] == s.pushed[..s.c];
  }

  lemma PublishFifo(s: State)
    requires Safe(s) && s.prod.PCopy? && s.prod.copied == s.cfg.words && Counted(Produce(s))
    ensures Fifo(Produce(s))
  {
    hide Fifo, ConsumerKnows, Slot;
    SlotFilled(s);
    FifoExtended(s, Produce(s), s.prod.rec);
  }

  lemma PublishKeeps(s: State)
    requires Safe(s) && s.prod.PCopy? && s.prod.copied == s.cfg.words
    ensures Safe(Produce(s))
  {
    PublishCounts(s);
    PublishFifo(s);
    assert ConsumerKnows(Produce(s)) by {
      assert forall i | 0 <= i < s.p :: Produce(s).pushed[i] == s.pushed[i];
    }
  }

  ghost predicate SameMemory(s: State, t: State) {
    t.cfg == s.cfg && t.p == s.p && t.c == s.c && t.slots == s.slots && t.pushed == s.pushed && t.popped == s.popped
  }

  lemma MemoryKept(s: State, t: State)
    requires Safe(s) && SameMemory(s, t)
    ensures Counted(t) && Fifo(t)
    ensures t.cons == s.cons ==> ConsumerKnows(t)
    ensures t.prod == s.prod ==> ProducerKnows(t)
  {
  }

  lemma ProduceKeeps(s: State)
    requires Safe(s)
    ensures Safe(Produce(s))
  {
    hide Produce, Fifo, ConsumerKnows;
    if s.prod.PCopy? {
      if s.prod.copied < s.cfg.words { CopyKeeps(s); } else { PublishKeeps(s); }
    } else {
      QuietProduceKeeps(s);
    }
  }

  lemma QuietProduceKeeps(s: State)
    requires Safe(s) && !s.prod.PCopy?
    ensures Safe(Produce(s))
  {
    hide Produce, Fifo, ConsumerKnows, ProducerKnows;
    QuietlySameMemory(s);
    MemoryKept(s, Produce(s));
    QuietProducerKnows(s);
  }

  lemma QuietlySameMemory(s: State)
    requires Shaped(s) && !s.prod.PCopy?
    ensures SameMemory(s, Produce(s)) && Produce(s).cons == s.cons
  {
  }

  lemma LoadedProducerKnows(s: State)
    requires Safe(s) && s.prod.PLoadConsumer? && Counted(Produce(s))
    ensures ProducerKnows(Produce(s))
  {
    hide Fifo, ConsumerKnows;
    FullIsFull(s);
  }

  lemma QuietProducerKnows(s: State)
    requires Safe(s) && !s.prod.PCopy? && Counted(Produce(s))
    ensures ProducerKnows(Produce(s))
  {
    hide Fifo, ConsumerKnows, Slot, Impossible;
    if s.prod.PLoadConsumer? {
      LoadedProducerKnows(s);
    } else if s.prod.PFull? || s.prod.PWait? {
      WaitingProducerKnows(s);
    }
  }

  lemma WaitingProducerKnows(s: State)
    requires Safe(s) && (s.prod.PFull? || s.prod.PWait?) && Counted(Produce(s))
    ensures ProducerKnows(Produce(s))
  {
    hide Fifo, ConsumerKnows;
  }

  lemma ReadKeeps(s: State)
    requires Safe(s) && s.cons.CCopy? && |s.cons.buffer| < s.cfg.words
    ensures Safe(Consume(s))
  {
    var buffer := s.cons.buffer;
    assert s.slots[Slot(s.c, s.cfg.capacity)] == s.pushed[s.c];
    assert s.pushed[s.c][..|buffer| + 1] == s.pushed[s.c][..|buffer|] + [s.pushed[s.c][|buffer|]];
    MemoryKept(s, Consume(s));
  }

  lemma HandOverKeeps(s: State)
    requires Safe(s) && s.cons.CCopy? && |s.cons.buffer| == s.cfg.words
    ensures Safe(Consume(s))
  {
    assert s.cons.buffer == s.pushed[s.c][..|s.pushed[s.c]|] == s.pushed[s.c];
    assert s.pushed[..s.c + 1] == s.pushed[..s.c] + [s.pushed[s.c]];
    assert Counted(Consume(s)) && Fifo(Consume(s));
  }

  lemma ConsumeKeeps(s: State)
    requires Safe(s)
    ensures Safe(Consume(s))
  {
    hide Consume, Fifo, ProducerKnows, SameMemory;
    if s.cons.CCopy? {
      if |s.cons.buffer| < s.cfg.words { ReadKeeps(s); } else { HandOverKeeps(s); }
    } else {
      QuietlyConsumes(s);
      MemoryKept(s, Consume(s));
      QuietConsumerKnows(s);
    }
  }

  lemma QuietlyConsumes(s: State)
    requires Shaped(s) && !s.cons.CCopy?
    ensures SameMemory(s, Consume(s)) && Consume(s).prod == s.prod
  {
  }

  lemma QuietConsumerKnows(s: State)
    requires Safe(s) && !s.cons.CCopy? && Counted(Consume(s))
    ensures ConsumerKnows(Consume(s))
  {
    hide Fifo, ProducerKnows, Slot;
  }

  lemma DoKeeps(s: State, step: Step)
    requires Safe(s) && Enabled(s, step)
    ensures Safe(Do(s, step))
  {
    hide Produce, Consume, Fifo;
    if step.ProducerMove? {
      ProduceKeeps(s);
    } else if step.ConsumerMove? {
      ConsumeKeeps(s);
    } else {
      MemoryKept(s, Do(s, step));
    }
  }

  /** The bounded queue the ring stands for: what is published and not yet popped. */
  ghost function Queue(s: State): seq<Record>
    requires Counted(s)
  {
    s.pushed[s.c..]
  }

  ghost predicate Enqueues(s: State, t: State, rec: Record)
    requires Counted(s) && Counted(t)
  {
    |Queue(s)| < s.cfg.capacity && Queue(t) == Queue(s) + [rec] && t.popped == s.popped
  }

  ghost predicate Dequeues(s: State, t: State)
    requires Counted(s) && Counted(t)
  {
    Queue(s) != [] && Queue(t) == Queue(s)[1..] && t.popped == s.popped + [Queue(s)[0]]
  }

  ghost predicate Stutters(s: State, t: State)
    requires Counted(s) && Counted(t)
  {
    Queue(t) == Queue(s) && t.popped == s.popped
  }

  lemma PublishRefines(s: State)
    requires Safe(s) && s.prod.PCopy? && s.prod.copied == s.cfg.words
    ensures Counted(Produce(s)) && Produce(s).prod.PSignal? && Enqueues(s, Produce(s), s.prod.rec)
  {
    ProduceKeeps(s);
    assert (s.pushed + [s.prod.rec])[s.c..] == s.pushed[s.c..] + [s.prod.rec];
  }

  lemma CopyRefines(s: State)
    requires Safe(s) && s.prod.PCopy? && s.prod.copied < s.cfg.words
    ensures Counted(Produce(s)) && Produce(s).prod.PCopy? && Stutters(s, Produce(s))
  {
    ProduceKeeps(s);
  }

  lemma QuietProduceRefines(s: State)
    requires Safe(s) && !s.prod.PCopy?
    ensures Counted(Produce(s)) && Stutters(s, Produce(s))
  {
    QuietlySameMemory(s);
    MemoryKept(s, Produce(s));
  }

  lemma ProduceRefines(s: State)
    requires Safe(s)
    ensures Counted(Produce(s))
    ensures if s.prod.PCopy? && Produce(s).prod.PSignal? then Enqueues(s, Produce(s), s.prod.rec)
            else Stutters(s, Produce(s))
  {
    hide Produce, Fifo, ConsumerKnows, Enqueues, Stutters;
    if !s.prod.PCopy? {
      QuietProduceRefines(s);
    } else if s.prod.copied == s.cfg.words {
      PublishRefines(s);
    } else {
      CopyRefines(s);
    }
  }

  lemma HandOverRefines(s: State)
    requires Safe(s) && s.cons.CCopy? && |s.cons.buffer| == s.cfg.words
    ensures Counted(Consume(s)) && Consume(s).cons.CSignal? && Dequeues(s, Consume(s))
  {
    HandOverKeeps(s);
    assert s.cons.buffer == s.pushed[s.c][..s.cfg.words] == s.pushed[s.c];
    assert s.pushed[s.c..][1..] == s.pushed[s.c + 1..];
  }

  lemma ReadRefines(s: State)
    requires Safe(s) && s.cons.CCopy? && |s.cons.buffer| < s.cfg.words
    ensures Counted(Consume(s)) && Consume(s).cons.CCopy? && Stutters(s, Consume(s))
  {
    ReadKeeps(s);
  }

  lemma QuietConsumeRefines(s: State)
    requires Safe(s) && !s.cons.CCopy?
    ensures Counted(Consume(s)) && Stutters(s, Consume(s))
  {
    hide Consume;
    QuietlyConsumes(s);
    MemoryKept(s, Consume(s));
  }

  lemma ConsumeRefines(s: State)
    requires Safe(s)
    ensures Counted(Consume(s))
    ensures if s.cons.CCopy? && Consume(s).cons.CSignal? then Dequeues(s, Consume(s))
            else Stutters(s, Consume(s))
  {
    hide Consume, Dequeues, Stutters, Fifo;
    if !s.cons.CCopy? {
      QuietConsumeRefines(s);
    } else if |s.cons.buffer| == s.cfg.words {
      HandOverRefines(s);
    } else {
      ReadRefines(s);
    }
  }

  /**
   Every step is one step of a bounded queue. Only a producer's publication adds a record,
   the one its caller passed, to a queue that has room; only a consumer's publication removes
   one, the front, and hands exactly it over.
   */
  lemma StepRefinesQueue(s: State, step: Step)
    requires Safe(s) && Enabled(s, step)
    ensures var t := Do(s, step);
      && Counted(t)
      && if step.ProducerMove? && s.prod.PCopy? && t.prod.PSignal? then Enqueues(s, t, s.prod.rec)
         else if step.ConsumerMove? && s.cons.CCopy? && t.cons.CSignal? then Dequeues(s, t)
         else Stutters(s, t)
  {
    hide Fifo, ConsumerKnows, ProducerKnows, Enqueues, Dequeues;
    if step.ProducerMove? {
      ProduceRefines(s);
    } else if step.ConsumerMove? {
      ConsumeRefines(s);
    } else {
      MemoryKept(s, Do(s, step));
    }
  }

  /** A push finds the ring full only when it is, and copies only when it is not, and gives up
      for good only on an exhausted counter, although the counter it loaded may be stale. */
  lemma FullIsFull(s: State)
    requires Safe(s) && s.prod.PLoadConsumer?
    ensures var t := Produce(s);
      if |Queue(s)| == s.cfg.capacity then t.prod.PFull?
      else if s.p == MAX_COUNTER then t.prod.PExhausted?
      else t.prod == PCopy(s.prod.rec, s.p, 0)
  {
  }

  /** What a pop loads decides whether it finds the ring empty, and it does so exactly when the
      ring was empty at that moment, whatever is published before it looks at the other counter. */
  lemma EmptyWasEmpty(s: State, between: State)
    requires Safe(s) && s.cons.CLoadProducer?
    requires Safe(between) && between.cons == Consume(s).cons && between.c == s.c
    ensures Consume(between).cons.CEmpty? <==> Queue(s) == []
    ensures Consume(between).cons.CCopy? <==> Queue(s) != []
  {
  }

  /** A run: a start and the steps taken from it, those not enabled having no effect. */
  datatype Trace = Begin(start: State) | Then(before: Trace, step: Step)

  ghost function StartOf(t: Trace): State {
    match t case Begin(s) => s case Then(before, _) => StartOf(before)
  }

  ghost function EndOf(t: Trace): State {
    match t
    case Begin(s) => s
    case Then(before, step) =>
      var s := EndOf(before); if Shaped(s) && Enabled(s, step) then Do(s, step) else s
  }

  ghost predicate Reachable(s: State) {
    exists t :: Start(StartOf(t)) && EndOf(t) == s
  }

  lemma StartSafe(s: State)
    requires Start(s)
    ensures Safe(s)
  {
  }

  lemma DoShaped(s: State, step: Step)
    requires Safe(s) && Enabled(s, step)
    ensures Shaped(s) && Do(s, step).cfg == s.cfg
  {
  }

  lemma {:induction false} TraceSafe(t: Trace)
    requires Start(StartOf(t))
    ensures Safe(EndOf(t)) && EndOf(t).cfg == StartOf(t).cfg
    decreases t
  {
    hide Safe, Do, Start, Enabled;
    match t
    case Begin(s) => StartSafe(s);
    case Then(before, step) =>
      TraceSafe(before);
      var s := EndOf(before);
      if Enabled(s, step) {
        DoShaped(s, step);
        DoKeeps(s, step);
      }
  }

  lemma PopsArePrefix(s: State)
    requires Safe(s)
    ensures s.popped <= s.pushed && s.popped + Queue(s) == s.pushed && |Queue(s)| <= s.cfg.capacity
  {
    assert s.pushed == s.pushed[..s.c] + s.pushed[s.c..];
  }

  /** Each pushed record is popped at most once, in order and unmodified, never more than
      `capacity` are in between, no unread slot is overwritten, and the counter check never
      fires, in every interleaving. */
  lemma ReachableFifo(s: State)
    requires Reachable(s)
    ensures Counted(s) && Fifo(s)
    ensures s.popped <= s.pushed && s.popped + Queue(s) == s.pushed && |Queue(s)| <= s.cfg.capacity
    ensures !s.prod.PCorrupt? && !s.cons.CCorrupt? && !s.cons.CExhausted?
  {
    ReachableSafe(s);
    PopsArePrefix(s);
  }

  lemma ReachableSafe(s: State)
    requires Reachable(s)
    ensures Safe(s)
  {
    var t :| Start(StartOf(t)) && EndOf(t) == s;
    TraceSafe(t);
  }

  lemma OneMore(s: State, step: Step)
    requires Reachable(s) && Shaped(s) && Enabled(s, step)
    ensures Reachable(Do(s, step)) && Shaped(Do(s, step))
  {
    ReachableSafe(s);
    var t :| Start(StartOf(t)) && EndOf(t) == s;
    DoKeeps(s, step);
    assert EndOf(Then(t, step)) == Do(s, step) && StartOf(Then(t, step)) == StartOf(t);
  }
}
