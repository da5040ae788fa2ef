/**
 Submissions over the two rings: many callers, one command ring, one worker, one completion
 ring and one dispatcher thread. Each ring is the bounded queue it refines. One step is one
 critical section or one ring operation; deadlines and a close may strike at any time.
 */
module Dispatcher {

  const MAX_ID := 0xFFFF_FFFF_FFFF_FFFF

  const COMMAND_INVOKE := 1
  const COMMAND_PLAN_OUTPUTS := 2
  const COMMAND_PING := 3
  const COMMAND_SHUTDOWN := 4
  const COMPLETION_INVOKE := 257
  const COMPLETION_PLAN_OUTPUTS := 258
  const COMPLETION_PONG := 259
  const COMPLETION_SHUTDOWN := 260
  const STATUS_OK := 1
  const STATUS_OPERATION_ERROR := 4
  const STATUS_INTERNAL_ERROR := 5

  datatype Command = Command(kind: nat, flags: nat, submissionId: nat, invocationId: nat, operationId: nat)

  datatype Completion = Completion(
    kind: nat, flags: nat, submissionId: nat, invocationId: nat, operationId: nat,
    status: nat, plannedOutputs: nat, tensors: nat, scalars: nat, body: nat)

  /** What a pending submission expects of its completion. */
  datatype Expected = Expected(kind: nat, flags: nat, invocationId: nat, operationId: nat)

  /** How the worker's execution of one command ended, and what it left in the record. */
  datatype Execution = Finished(plannedOutputs: nat, body: nat) | OperationError(body: nat) | InternalError(body: nat)

  // ----- Identity of requests and replies ---------------------------------------------

  predicate KnownKind(kind: nat) {
    COMMAND_INVOKE <= kind <= COMMAND_SHUTDOWN
  }

  function CompletionKind(kind: nat): nat
    requires KnownKind(kind)
  {
    if kind == COMMAND_INVOKE then COMPLETION_INVOKE
    else if kind == COMMAND_PLAN_OUTPUTS then COMPLETION_PLAN_OUTPUTS
    else if kind == COMMAND_PING then COMPLETION_PONG
    else COMPLETION_SHUTDOWN
  }

  /** The caller's flags with the profile bit set or cleared. */
  function SubmittedFlags(flags: nat, profiled: bool): nat {
    flags - flags % 2 + if profiled then 1 else 0
  }

  function Expects(c: Command): Expected
    requires KnownKind(c.kind)
  {
    Expected(CompletionKind(c.kind), c.flags, c.invocationId, c.operationId)
  }

  /** The completion the worker builds for a command. */
  function Reply(c: Command, e: Execution): Completion {
    Completion(
      if c.kind == COMMAND_INVOKE then COMPLETION_INVOKE
      else if c.kind == COMMAND_PLAN_OUTPUTS then COMPLETION_PLAN_OUTPUTS
      else COMPLETION_PONG,
      c.flags, c.submissionId, c.invocationId, c.operationId,
      match e case Finished(_, _) => STATUS_OK case OperationError(_) => STATUS_OPERATION_ERROR
              case InternalError(_) => STATUS_INTERNAL_ERROR,
      if c.kind == COMMAND_PLAN_OUTPUTS && e.Finished? then e.plannedOutputs else 0, 0, 0, e.body)
  }

  /** The dispatcher's check of a completion against the submission it names. */
  predicate Matches(x: Expected, c: Completion) {
    && c.kind == x.kind && c.flags == x.flags
    && c.invocationId == x.invocationId && c.operationId == x.operationId
    && STATUS_OK <= c.status <= STATUS_INTERNAL_ERROR
    && (c.kind == COMPLETION_PLAN_OUTPUTS || c.plannedOutputs == 0)
    && c.tensors == 0 && c.scalars == 0
  }

  /** Every reply passes the check, except a reply to SHUTDOWN, which comes back as a PONG. */
  lemma ReplyMatchesExactly(c: Command, e: Execution)
    requires KnownKind(c.kind)
    ensures Matches(Expects(c), Reply(c, e)) <==> c.kind != COMMAND_SHUTDOWN
  {
  }

  /** What a completion says of its command and of how the execution of it ended. */
  predicate Answers(c: Completion, m: Command, e: Execution) {
    && c.submissionId == m.submissionId && c.flags == m.flags
    && c.invocationId == m.invocationId && c.operationId == m.operationId
    && (c.kind == COMPLETION_INVOKE <==> m.kind == COMMAND_INVOKE)
    && (c.kind == COMPLETION_PLAN_OUTPUTS <==> m.kind == COMMAND_PLAN_OUTPUTS)
    && (c.status == STATUS_OK <==> e.Finished?)
    && (c.status == STATUS_OPERATION_ERROR <==> e.OperationError?)
    && (c.status == STATUS_INTERNAL_ERROR <==> e.InternalError?)
    && c.body == e.body && c.tensors == 0 && c.scalars == 0
    && (c.plannedOutputs != 0 ==> m.kind == COMMAND_PLAN_OUTPUTS && e.Finished?)
    && (m.kind == COMMAND_PLAN_OUTPUTS && e.Finished? ==> c.plannedOutputs == e.plannedOutputs)
  }

  lemma ReplyAnswers(m: Command, e: Execution)
    requires KnownKind(m.kind)
    ensures Answers(Reply(m, e), m, e)
  {
  }

  /**
   Whatever submission it names, a completion is one the worker could send for the command exactly
   when it passes the check, has a status the worker uses, and no failed plan names planned outputs.
   */
  lemma CheckedExactly(m: Command, c: Completion)
    requires KnownKind(m.kind) && m.kind != COMMAND_SHUTDOWN
    ensures (exists e :: c.(submissionId := m.submissionId) == Reply(m, e)) <==>
      && Matches(Expects(m), c)
      && (c.status == STATUS_OK || c.status == STATUS_OPERATION_ERROR || c.status == STATUS_INTERNAL_ERROR)
      && (c.status != STATUS_OK ==> c.plannedOutputs == 0)
  {
    var d := c.(submissionId := m.submissionId);
    var e := if c.status == STATUS_OK then Finished(c.plannedOutputs, c.body)
             else if c.status == STATUS_OPERATION_ERROR then OperationError(c.body) else InternalError(c.body);
    assert d == Reply(m, e) || !exists x :: d == Reply(m, x);
  }

  // ----- The machine ------------------------------------------------------------------

  datatype Outcome = Completed(completion: Completion) | Failed

  datatype Caller =
    | Registered                  // in `pending`, its command not in the ring yet
    | Waiting                     // published, asleep until its submission is completed
    | Failing                     // about to fail the ring
    | Returned(outcome: Outcome)

  datatype Worker =
    | Idle
    | Executing(command: Command)
    | Replying(completion: Completion)
    | Stopped(unanswered: seq<nat>)

  datatype Dispatch =
    | Popping
    | Checking(completion: Completion)
    | Delivering(completion: Completion) // matched and erased, not handed over yet
    | Failing                            // about to fail the ring
    | Ended

  /**
   `failing` are submissions taken out of `pending` by a failure and not told yet; `delivered`
   and `errored` hold what a submission was told. `commands`, `executed`, `published` and
   `resolved` record what was submitted, what the worker did, and the order of both ends.
   */
  datatype State = State(
    capacity: nat, nextId: nat, ringError: bool, closed: bool,
    pending: map<nat, Expected>, callers: map<nat, Caller>,
    failing: set<nat>, delivered: map<nat, Completion>, errored: set<nat>,
    commandRing: seq<Command>, worker: Worker, completionRing: seq<Completion>, dispatch: Dispatch,
    commands: map<nat, Command>, executed: map<nat, Execution>, published: seq<nat>, resolved: seq<nat>)

  datatype Step =
    | Submit(command: Command, profiled: bool)
    | Publish(id: nat)
    | PublishFails(id: nat)   // the command ring stayed full until the deadline, or was closed
    | WaitExpires(id: nat)    // the completion deadline passed
    | FailRing(id: nat)       // a caller that gave up fails the ring and throws
    | Tell(id: nat)           // a failed submission is told
    | Wake(id: nat)           // a caller finds its submission completed and returns
    | WorkerPop | WorkerExecute(execution: Execution) | WorkerPush | WorkerStops
    | DispatchPop | DispatchCheck | DispatchDeliver | DispatchClosed | DispatchFails
    | Close

  predicate Is(s: State, id: nat, c: Caller) {
    id in s.callers && s.callers[id] == c
  }

  predicate Enabled(s: State, step: Step) {
    match step
    case Submit(c, _) => !s.ringError && s.nextId <= MAX_ID && KnownKind(c.kind) && c.kind != COMMAND_SHUTDOWN
    case Publish(id) => Is(s, id, Caller.Registered) && id in s.commands && !s.closed && |s.commandRing| < s.capacity
    case PublishFails(id) => Is(s, id, Caller.Registered)
    case WaitExpires(id) => Is(s, id, Waiting) && id !in s.delivered && id !in s.errored
    case FailRing(id) => Is(s, id, Caller.Failing)
    case Tell(id) => id in s.failing
    case Wake(id) => Is(s, id, Waiting) && (id in s.delivered || id in s.errored)
    case WorkerPop => s.worker.Idle? && s.commandRing != []
    case WorkerExecute(_) => s.worker.Executing?
    case WorkerPush => s.worker.Replying? && !s.closed && |s.completionRing| < s.capacity
    case WorkerStops => s.closed && ((s.worker.Idle? && s.commandRing == []) || s.worker.Replying?)
    case DispatchPop => s.dispatch.Popping? && s.completionRing != []
    case DispatchCheck => s.dispatch.Checking?
    case DispatchDeliver => s.dispatch.Delivering?
    case DispatchClosed => s.dispatch.Popping? && s.completionRing == [] && s.closed
    case DispatchFails => s.dispatch.Failing?
    case Close => true
  }

  /** The part of a ring failure under the lock: nothing stays pending, and nothing is added later. */
  function RingFailed(s: State): State {
    s.(ringError := true, failing := s.failing + s.pending.Keys, pending := map[])
  }

  function Do(s: State, step: Step): State
    requires Enabled(s, step)
  {
    match step
    case Submit(c, profiled) =>
      var command := c.(submissionId := s.nextId, flags := SubmittedFlags(c.flags, profiled));
      s.(nextId := s.nextId + 1,
         pending := s.pending[s.nextId := Expects(command)],
         callers := s.callers[s.nextId := Caller.Registered],
         commands := s.commands[s.nextId := command])
    case Publish(id) =>
      s.(callers := s.callers[id := Waiting],
         commandRing := s.commandRing + [s.commands[id]], published := s.published + [id])
    case PublishFails(id) => s.(pending := s.pending - {id}, callers := s.callers[id := Caller.Failing])
    case WaitExpires(id) => s.(callers := s.callers[id := Caller.Failing])
    case FailRing(id) => RingFailed(s).(callers := s.callers[id := Returned(Failed)])
    case Tell(id) => s.(failing := s.failing - {id}, errored := s.errored + {id})
    case Wake(id) =>
      s.(callers := s.callers[id := Returned(if id in s.errored then Failed else Completed(s.delivered[id]))])
    case WorkerPop => s.(worker := Executing(s.commandRing[0]), commandRing := s.commandRing[1..])
    case WorkerExecute(e) =>
      var command := s.worker.command;
      s.(worker := Replying(Reply(command, e)), executed := s.executed[command.submissionId := e])
    case WorkerPush => s.(worker := Idle, completionRing := s.completionRing + [s.worker.completion])
    case WorkerStops => s.(worker := Stopped(WorkerIds(s.worker)))
    case DispatchPop => s.(dispatch := Checking(s.completionRing[0]), completionRing := s.completionRing[1..])
    case DispatchCheck =>
      var c := s.dispatch.completion;
      var t := s.(resolved := s.resolved + [c.submissionId]);
      if c.submissionId in s.pending && Matches(s.pending[c.submissionId], c)
      then t.(pending := s.pending - {c.submissionId}, dispatch := Delivering(c))
      else t.(dispatch := Dispatch.Failing)
    case DispatchDeliver =>
      var c := s.dispatch.completion;
      s.(delivered := s.delivered[c.submissionId := c], dispatch := Popping)
    case DispatchClosed => s.(dispatch := Dispatch.Failing)
    case DispatchFails => RingFailed(s).(dispatch := Ended)
    case Close => s.(closed := true)
  }

  function Start(capacity: nat): State {
    State(capacity, 1, false, false, map[], map[], {}, map[], {}, [], Idle, [], Popping, map[], map[], [], [])
  }

  // ----- Where a published submission is ----------------------------------------------

  function CommandIds(ring: seq<Command>): seq<nat> {
    seq(|ring|, i requires 0 <= i < |ring| => ring[i].submissionId)
  }

  function CompletionIds(ring: seq<Completion>): seq<nat> {
    seq(|ring|, i requires 0 <= i < |ring| => ring[i].submissionId)
  }

  function WorkerIds(w: Worker): seq<nat> {
    match w
    case Executing(c) => [c.submissionId]
    case Replying(c) => [c.submissionId]
    case Stopped(ids) => ids
    case Idle => []
  }

  function DispatchIds(d: Dispatch): seq<nat> {
    if d.Checking? then [d.completion.submissionId] else []
  }

  /** Published and not resolved, the longest published first. */
  function InFlight(s: State): seq<nat> {
    DispatchIds(s.dispatch) + CompletionIds(s.completionRing) + WorkerIds(s.worker) + CommandIds(s.commandRing)
  }

  // ----- The invariant ----------------------------------------------------------------

  /** Everything published is resolved or in flight, in the order of publication, once. */
  ghost predicate InOrder(s: State) {
    && (forall i, j | 0 <= i < j < |s.published| :: s.published[i] != s.published[j])
    && s.published == s.resolved + InFlight(s)
    && (forall id | id in s.published :: id in s.callers && !s.callers[id].Registered?)
  }

  ghost predicate Recorded(s: State) {
    && s.nextId >= 1
    && s.commands.Keys == s.callers.Keys
    && (forall id | id in s.commands ::
          && 1 <= id < s.nextId && s.commands[id].submissionId == id
          && KnownKind(s.commands[id].kind) && s.commands[id].kind != COMMAND_SHUTDOWN)
    && (forall id | id in s.pending :: id in s.commands && s.pending[id] == Expects(s.commands[id]))
    && (forall id | id in s.failing || id in s.errored :: id in s.commands)
  }

  ghost predicate IsCommand(s: State, c: Command) {
    c.submissionId in s.commands && s.commands[c.submissionId] == c
  }

  /** The completion is the worker's reply to the very command its submission made. */
  ghost predicate IsReply(s: State, c: Completion) {
    && c.submissionId in s.commands && c.submissionId in s.executed
    && c == Reply(s.commands[c.submissionId], s.executed[c.submissionId])
  }

  ghost predicate Genuine(s: State) {
    && (forall c | c in s.commandRing :: IsCommand(s, c))
    && (s.worker.Executing? ==> IsCommand(s, s.worker.command))
    && (s.worker.Replying? ==> IsReply(s, s.worker.completion))
    && (forall c | c in s.completionRing :: IsReply(s, c))
    && (s.dispatch.Checking? || s.dispatch.Delivering? ==> IsReply(s, s.dispatch.completion))
    && (forall id | id in s.delivered :: s.delivered[id].submissionId == id && IsReply(s, s.delivered[id]))
  }

  /** The worker has executed only what was published, and nothing it is yet to execute. */
  ghost predicate ExecutedOnce(s: State) {
    forall id | id in s.executed ::
      && id in s.published && id !in CommandIds(s.commandRing)
      && !(s.worker.Executing? && s.worker.command.submissionId == id)
  }

  /** Until a failure, pending is exactly what is about to be published or in flight. */
  ghost predicate InOnePlace(s: State) {
    if s.ringError then s.pending == map[]
    else
      && s.failing == {} && s.errored == {}
      && forall id :: id in s.pending <==> Is(s, id, Caller.Registered) || id in InFlight(s)
  }

  ghost predicate HandedTo(s: State, id: nat) {
    id in s.delivered || (s.dispatch.Delivering? && s.dispatch.completion.submissionId == id)
  }

  /** A submission is told of its completion or of a failure, never of both. */
  ghost predicate ToldOnce(s: State) {
    && (forall id | HandedTo(s, id) :: id in s.resolved && id !in s.pending && id !in s.failing && id !in s.errored)
    && s.failing !! s.errored && s.pending.Keys !! s.failing + s.errored
    && (s.dispatch.Delivering? ==> s.dispatch.completion.submissionId !in s.delivered)
  }

  /** Nobody waits for something that can no longer come. */
  ghost predicate NobodyForgotten(s: State) {
    && (forall id | Is(s, id, Waiting) :: id in s.pending || id in s.failing || id in s.errored || HandedTo(s, id))
    && (forall id | Is(s, id, Caller.Registered) :: id in s.pending || id in s.failing || id in s.errored)
  }

  ghost predicate Truthful(s: State) {
    forall id | id in s.callers && s.callers[id].Returned? && s.callers[id].outcome.Completed? ::
      id in s.delivered && s.callers[id].outcome.completion == s.delivered[id]
  }

  ghost predicate Inv(s: State) {
    InOrder(s) && Recorded(s) && Genuine(s) && ExecutedOnce(s) && InOnePlace(s) && ToldOnce(s) &&
      NobodyForgotten(s) && Truthful(s)
  }

  // ----- What every step keeps --------------------------------------------------------

  lemma PublishLengthensFlight(s: State, id: nat)
    requires Enabled(s, Publish(id)) && Recorded(s)
    ensures InFlight(Do(s, Publish(id))) == InFlight(s) + [id]
  {
    var t := Do(s, Publish(id));
    assert CommandIds(t.commandRing) == CommandIds(s.commandRing) + [id];
  }

  lemma FirstOf(x: nat, a: seq<nat>, b: seq<nat>, c: seq<nat>)
    ensures [x] + ([] + a + b + c) == [x] + a + b + c
  {
  }

  lemma CheckShortensFlight(s: State)
    requires Enabled(s, DispatchCheck)
    ensures [s.dispatch.completion.submissionId] + InFlight(Do(s, DispatchCheck)) == InFlight(s)
  {
    FirstOf(s.dispatch.completion.submissionId,
      CompletionIds(s.completionRing), WorkerIds(s.worker), CommandIds(s.commandRing));
  }

  lemma CommandPops(ring: seq<Command>)
    requires ring != []
    ensures CommandIds(ring) == [ring[0].submissionId] + CommandIds(ring[1..])
  {
  }

  lemma CompletionPops(ring: seq<Completion>)
    requires ring != []
    ensures CompletionIds(ring) == [ring[0].submissionId] + CompletionIds(ring[1..])
  {
  }

  lemma Regroup(a: seq<nat>, b: seq<nat>, x: nat, c: seq<nat>)
    ensures a + b + [] + ([x] + c) == a + b + [x] + c
    ensures [] + ([x] + c) + a + b == [x] + c + a + b
  {
  }

  lemma PopsKeepFlight(s: State, step: Step)
    requires Enabled(s, step) && (step.WorkerPop? || step.DispatchPop?)
    ensures InFlight(Do(s, step)) == InFlight(s)
  {
    var ds, cs, ws, qs :=
      DispatchIds(s.dispatch), CompletionIds(s.completionRing), WorkerIds(s.worker), CommandIds(s.commandRing);
    if step.WorkerPop? {
      CommandPops(s.commandRing);
      Regroup(ds, cs, s.commandRing[0].submissionId, CommandIds(s.commandRing[1..]));
    } else {
      CompletionPops(s.completionRing);
      Regroup(ws, qs, s.completionRing[0].submissionId, CompletionIds(s.completionRing[1..]));
    }
  }

  lemma Handed(a: seq<nat>, b: seq<nat>, x: nat, c: seq<nat>)
    ensures a + (b + [x]) + [] + c == a + b + [x] + c
  {
  }

  lemma PushKeepsFlight(s: State)
    requires Enabled(s, WorkerPush)
    ensures InFlight(Do(s, WorkerPush)) == InFlight(s)
  {
    var c := s.worker.completion;
    assert CompletionIds(s.completionRing + [c]) == CompletionIds(s.completionRing) + [c.submissionId];
    Handed(DispatchIds(s.dispatch), CompletionIds(s.completionRing), c.submissionId, CommandIds(s.commandRing));
  }

  lemma WorkerKeepsFlight(s: State, step: Step)
    requires Enabled(s, step) && (step.WorkerExecute? || step.WorkerPush? || step.WorkerStops?)
    ensures InFlight(Do(s, step)) == InFlight(s)
  {
    hide CommandIds, CompletionIds;
    if step.WorkerPush? {
      PushKeepsFlight(s);
    }
  }

  predicate Travels(step: Step) {
    step.Publish? || step.DispatchCheck? || step.WorkerPop? || step.DispatchPop? ||
    step.WorkerExecute? || step.WorkerPush? || step.WorkerStops?
  }

  lemma OthersKeepFlight(s: State, step: Step)
    requires Enabled(s, step) && !Travels(step)
    ensures InFlight(Do(s, step)) == InFlight(s)
    ensures Do(s, step).published == s.published && Do(s, step).resolved == s.resolved
  {
  }

  lemma PublishKeepsOrder(s: State, id: nat)
    requires InOrder(s) && Recorded(s) && Enabled(s, Publish(id))
    ensures InOrder(Do(s, Publish(id)))
  {
    PublishLengthensFlight(s, id);
    assert id !in s.published;
  }

  lemma Shift(before: seq<nat>, id: nat, after: seq<nat>)
    ensures before + ([id] + after) == before + [id] + after
  {
  }

  lemma CheckKeepsOrder(s: State)
    requires InOrder(s) && Enabled(s, DispatchCheck)
    ensures InOrder(Do(s, DispatchCheck))
  {
    hide CommandIds, CompletionIds, WorkerIds, InFlight, Matches;
    CheckShortensFlight(s);
    var t := Do(s, DispatchCheck);
    Shift(s.resolved, s.dispatch.completion.submissionId, InFlight(t));
    assert t.published == t.resolved + InFlight(t);
  }

  lemma KeepsOrder(s: State, step: Step)
    requires InOrder(s) && Recorded(s) && Enabled(s, step)
    ensures InOrder(Do(s, step))
  {
    hide InFlight, Recorded;
    if step.Publish? {
      PublishKeepsOrder(s, step.id);
    } else if step.DispatchCheck? {
      CheckKeepsOrder(s);
    } else if step.WorkerPop? || step.DispatchPop? {
      PopsKeepFlight(s, step);
    } else if step.WorkerExecute? || step.WorkerPush? || step.WorkerStops? {
      WorkerKeepsFlight(s, step);
    } else {
      OthersKeepFlight(s, step);
      CallersStayPublished(s, step);
    }
  }

  lemma CallersStayPublished(s: State, step: Step)
    requires InOrder(s) && Recorded(s) && Enabled(s, step) && !Travels(step)
    ensures forall id | id in s.published :: id in Do(s, step).callers && !Do(s, step).callers[id].Registered?
  {
  }

  lemma SubmitKeepsRecords(s: State, step: Step)
    requires Recorded(s) && Enabled(s, step) && step.Submit?
    ensures Recorded(Do(s, step))
  {
  }

  /** A check resolves one submission and touches nothing else but its entry and the dispatcher. */
  lemma CheckChanges(s: State)
    requires Enabled(s, DispatchCheck)
    ensures exists p, d, r :: Do(s, DispatchCheck) == s.(pending := p, dispatch := d, resolved := r)
    ensures var t := Do(s, DispatchCheck);
      var c := s.dispatch.completion;
      if t.dispatch == Delivering(c)
      then c.submissionId in s.pending && t.pending == s.pending - {c.submissionId}
      else t.dispatch == Dispatch.Failing && t.pending == s.pending
  {
    hide Matches;
  }

  lemma RecordsFollow(s: State, t: State)
    requires Recorded(s) && t.nextId == s.nextId && t.commands == s.commands && t.callers.Keys == s.callers.Keys
    requires forall id | id in t.failing || id in t.errored :: id in s.commands
    requires forall id | id in t.pending :: id in s.pending && t.pending[id] == s.pending[id]
    ensures Recorded(t)
  {
  }

  lemma CallersKeepRecords(s: State, step: Step)
    requires Recorded(s) && Enabled(s, step)
    requires step.Publish? || step.PublishFails? || step.WaitExpires? || step.FailRing? || step.Tell? || step.Wake?
    ensures Recorded(Do(s, step))
  {
    RecordsFollow(s, Do(s, step));
  }

  lemma WorkerKeepsRecords(s: State, step: Step)
    requires Recorded(s) && Enabled(s, step)
    requires step.WorkerPop? || step.WorkerExecute? || step.WorkerPush? || step.WorkerStops? || step.Close?
    ensures Recorded(Do(s, step))
  {
    RecordsFollow(s, Do(s, step));
  }

  lemma DispatchKeepsRecords(s: State, step: Step)
    requires Recorded(s) && Enabled(s, step)
    requires step.DispatchPop? || step.DispatchDeliver? || step.DispatchClosed? || step.DispatchFails?
    ensures Recorded(Do(s, step))
  {
    RecordsFollow(s, Do(s, step));
  }

  lemma CheckKeepsRecords(s: State)
    requires Recorded(s) && Enabled(s, DispatchCheck)
    ensures Recorded(Do(s, DispatchCheck))
  {
    CheckChanges(s);
    RecordsFollow(s, Do(s, DispatchCheck));
  }

  lemma KeepsRecords(s: State, step: Step)
    requires Recorded(s) && Enabled(s, step)
    ensures Recorded(Do(s, step))
  {
    hide Do, Enabled, Recorded;
    match step {
      case Submit(_, _) => SubmitKeepsRecords(s, step);
      case Publish(_) | PublishFails(_) | WaitExpires(_) | FailRing(_) | Tell(_) | Wake(_) =>
        CallersKeepRecords(s, step);
      case WorkerPop | WorkerExecute(_) | WorkerPush | WorkerStops | Close => WorkerKeepsRecords(s, step);
      case DispatchCheck => CheckKeepsRecords(s);
      case _ => DispatchKeepsRecords(s, step);
    }
  }

  /** Until a failure, the reply the dispatcher holds is expected and passes the identity check. */
  lemma ChecksPass(s: State)
    requires Inv(s) && s.dispatch.Checking? && !s.ringError
    ensures s.dispatch.completion.submissionId in s.pending
    ensures Matches(s.pending[s.dispatch.completion.submissionId], s.dispatch.completion)
  {
    var c := s.dispatch.completion;
    assert InFlight(s)[0] == c.submissionId;
    ReplyMatchesExactly(s.commands[c.submissionId], s.executed[c.submissionId]);
  }

  lemma SubmitKeepsPlaces(s: State, step: Step)
    requires InOnePlace(s) && Recorded(s) && InOrder(s) && Enabled(s, step) && step.Submit?
    ensures InOnePlace(Do(s, step))
  {
    hide InFlight;
    OthersKeepFlight(s, step);
  }

  lemma PublishKeepsPlaces(s: State, id: nat)
    requires InOnePlace(s) && Recorded(s) && Enabled(s, Publish(id))
    ensures InOnePlace(Do(s, Publish(id)))
  {
    PublishLengthensFlight(s, id);
  }

  lemma ResolvedLeavesPlace(s: State, t: State, id: nat)
    requires InOnePlace(s) && !s.ringError && !t.ringError && InFlight(s) == [id] + InFlight(t)
    requires id !in InFlight(t) && !Is(s, id, Caller.Registered)
    requires t.callers == s.callers && t.failing == s.failing && t.errored == s.errored && t.pending == s.pending - {id}
    ensures InOnePlace(t)
  {
    hide InFlight;
  }

  lemma CheckKeepsPlaces(s: State)
    requires Inv(s) && Enabled(s, DispatchCheck)
    ensures InOnePlace(Do(s, DispatchCheck))
  {
    hide Genuine, ToldOnce, NobodyForgotten, Truthful, ExecutedOnce, InFlight, Matches;
    CheckShortensFlight(s);
    if !s.ringError {
      ChecksPass(s);
      CheckOnce(s);
      ResolvedLeavesPlace(s, Do(s, DispatchCheck), s.dispatch.completion.submissionId);
    }
  }

  /** What the dispatcher resolves is nowhere else in flight, and no longer waits to be published. */
  lemma CheckOnce(s: State)
    requires InOrder(s) && Recorded(s) && s.dispatch.Checking?
    ensures s.dispatch.completion.submissionId !in InFlight(Do(s, DispatchCheck))
    ensures !Is(s, s.dispatch.completion.submissionId, Caller.Registered)
  {
    hide CommandIds, CompletionIds, WorkerIds, Matches;
    CheckShortensFlight(s);
    var id := s.dispatch.completion.submissionId;
    var n := |s.resolved|;
    assert s.published[n] == id;
    assert forall k | 0 <= k < |InFlight(Do(s, DispatchCheck))| ::
        InFlight(Do(s, DispatchCheck))[k] == s.published[n + 1 + k];
  }

  lemma MovesKeepPlaces(s: State, step: Step)
    requires InOnePlace(s) && Recorded(s) && Enabled(s, step)
    requires step.WorkerPop? || step.DispatchPop? || step.WorkerExecute? || step.WorkerPush? || step.WorkerStops?
    ensures InOnePlace(Do(s, step))
  {
    hide InFlight;
    if step.WorkerPop? || step.DispatchPop? {
      PopsKeepFlight(s, step);
    } else {
      WorkerKeepsFlight(s, step);
    }
  }

  lemma RestKeepPlaces(s: State, step: Step)
    requires InOnePlace(s) && Recorded(s) && InOrder(s) && Enabled(s, step) && !Travels(step) && !step.Submit?
    ensures InOnePlace(Do(s, step))
  {
    hide InFlight;
    OthersKeepFlight(s, step);
    if step.PublishFails? {
      assert step.id !in InFlight(s);
    }
  }

  lemma KeepsPlaces(s: State, step: Step)
    requires Inv(s) && Enabled(s, step)
    ensures InOnePlace(Do(s, step))
  {
    hide Do, Genuine, Recorded, ExecutedOnce, InOrder, InOnePlace, ToldOnce, NobodyForgotten, Truthful;
    if step.Submit? {
      SubmitKeepsPlaces(s, step);
    } else if step.Publish? {
      PublishKeepsPlaces(s, step.id);
    } else if step.DispatchCheck? {
      CheckKeepsPlaces(s);
    } else if Travels(step) {
      MovesKeepPlaces(s, step);
    } else {
      RestKeepPlaces(s, step);
    }
  }

  lemma CheckKeepsTold(s: State)
    requires Inv(s) && Enabled(s, DispatchCheck)
    ensures ToldOnce(Do(s, DispatchCheck))
  {
    if !s.ringError {
      ChecksPass(s);
      NotResolvedYet(s);
    }
  }

  lemma NotResolvedYet(s: State)
    requires InOrder(s) && s.dispatch.Checking?
    ensures s.dispatch.completion.submissionId !in s.resolved
  {
    assert s.published[|s.resolved|] == s.dispatch.completion.submissionId;
    assert forall k | 0 <= k < |s.resolved| :: s.resolved[k] == s.published[k];
  }

  lemma SubmitKeepsTold(s: State, step: Step)
    requires ToldOnce(s) && Recorded(s) && InOrder(s) && Enabled(s, step) && step.Submit?
    ensures ToldOnce(Do(s, step))
  {
  }

  lemma FailureKeepsTold(s: State, step: Step)
    requires ToldOnce(s) && Enabled(s, step) && (step.FailRing? || step.DispatchFails?)
    ensures ToldOnce(Do(s, step))
  {
  }

  lemma OthersKeepTold(s: State, step: Step)
    requires ToldOnce(s) && Enabled(s, step)
    requires !step.Submit? && !step.DispatchCheck? && !step.FailRing? && !step.DispatchFails?
    ensures ToldOnce(Do(s, step))
  {
  }

  lemma KeepsTold(s: State, step: Step)
    requires Inv(s) && Enabled(s, step)
    ensures ToldOnce(Do(s, step))
  {
    hide Do, Genuine, Recorded, ExecutedOnce, InOrder, InOnePlace, ToldOnce, NobodyForgotten, Truthful;
    if step.Submit? {
      SubmitKeepsTold(s, step);
    } else if step.DispatchCheck? {
      CheckKeepsTold(s);
    } else if step.FailRing? || step.DispatchFails? {
      FailureKeepsTold(s, step);
    } else {
      OthersKeepTold(s, step);
    }
  }

  lemma CallerKeepsNobodyForgotten(s: State, step: Step)
    requires NobodyForgotten(s) && Enabled(s, step)
    requires step.Submit? || step.Publish? || step.PublishFails? || step.WaitExpires? || step.Wake?
    ensures NobodyForgotten(Do(s, step))
  {
  }

  lemma FailureKeepsNobodyForgotten(s: State, step: Step)
    requires NobodyForgotten(s) && Enabled(s, step)
    requires step.FailRing? || step.Tell? || step.DispatchFails?
    ensures NobodyForgotten(Do(s, step))
  {
  }

  lemma CheckKeepsNobodyForgotten(s: State)
    requires Inv(s) && Enabled(s, DispatchCheck)
    ensures NobodyForgotten(Do(s, DispatchCheck))
  {
    hide Genuine, Truthful, ExecutedOnce, Matches, InFlight, ToldOnce, InOnePlace;
    CheckOnce(s);
    CheckChanges(s);
  }

  lemma OthersKeepNobodyForgotten(s: State, step: Step)
    requires NobodyForgotten(s) && Enabled(s, step)
    requires step.DispatchPop? || step.DispatchDeliver? || step.DispatchClosed? || step.Close? ||
             step.WorkerPop? || step.WorkerExecute? || step.WorkerPush? || step.WorkerStops?
    ensures NobodyForgotten(Do(s, step))
  {
    var t := Do(s, step);
    assert t.callers == s.callers && t.pending == s.pending && t.failing == s.failing && t.errored == s.errored;
    assert forall id | HandedTo(s, id) :: HandedTo(t, id);
  }

  lemma KeepsNobodyForgotten(s: State, step: Step)
    requires Inv(s) && Enabled(s, step)
    ensures NobodyForgotten(Do(s, step))
  {
    hide Do, Enabled, Genuine, Recorded, ExecutedOnce, InOrder, InOnePlace, ToldOnce, NobodyForgotten, Truthful;
    match step {
      case Submit(_, _) | Publish(_) | PublishFails(_) | WaitExpires(_) | Wake(_) =>
        CallerKeepsNobodyForgotten(s, step);
      case FailRing(_) | Tell(_) | DispatchFails => FailureKeepsNobodyForgotten(s, step);
      case DispatchCheck => CheckKeepsNobodyForgotten(s);
      case _ => OthersKeepNobodyForgotten(s, step);
    }
  }

  lemma CallersKeepTruth(s: State, step: Step)
    requires Truthful(s) && Recorded(s) && Enabled(s, step)
    requires step.Submit? || step.Publish? || step.PublishFails? || step.WaitExpires? || step.FailRing? || step.Wake?
    ensures Truthful(Do(s, step))
  {
  }

  lemma WorkerKeepsTruth(s: State, step: Step)
    requires Truthful(s) && Enabled(s, step)
    requires step.Tell? || step.WorkerPop? || step.WorkerExecute? || step.WorkerPush? || step.WorkerStops? ||
        step.Close?
    ensures Truthful(Do(s, step))
  {
  }

  lemma DispatchKeepsTruth(s: State, step: Step)
    requires Truthful(s) && ToldOnce(s) && Enabled(s, step)
    requires step.DispatchPop? || step.DispatchCheck? || step.DispatchDeliver? || step.DispatchClosed? ||
        step.DispatchFails?
    ensures Truthful(Do(s, step))
  {
    hide Matches, Expects;
  }

  lemma KeepsTruth(s: State, step: Step)
    requires Truthful(s) && ToldOnce(s) && Recorded(s) && Enabled(s, step)
    ensures Truthful(Do(s, step))
  {
    hide Do, Enabled, Recorded, ToldOnce, Truthful;
    match step {
      case Submit(_, _) | Publish(_) | PublishFails(_) | WaitExpires(_) | FailRing(_) | Wake(_) =>
        CallersKeepTruth(s, step);
      case Tell(_) | WorkerPop | WorkerExecute(_) | WorkerPush | WorkerStops | Close => WorkerKeepsTruth(s, step);
      case _ => DispatchKeepsTruth(s, step);
    }
  }

  lemma SubmitKeepsGenuine(s: State, step: Step)
    requires Recorded(s) && Genuine(s) && Enabled(s, step) && step.Submit?
    ensures Genuine(Do(s, step))
  {
    hide Reply;
  }

  lemma ExecuteKeepsGenuine(s: State, step: Step)
    requires Genuine(s) && ExecutedOnce(s) && Enabled(s, step) && step.WorkerExecute?
    ensures Genuine(Do(s, step))
  {
  }

  lemma PublishKeepsGenuine(s: State, id: nat)
    requires Recorded(s) && Genuine(s) && Enabled(s, Publish(id))
    ensures Genuine(Do(s, Publish(id)))
  {
  }

  lemma WorkerKeepsGenuine(s: State, step: Step)
    requires Genuine(s) && Enabled(s, step) && (step.WorkerPop? || step.WorkerPush? || step.WorkerStops?)
    ensures Genuine(Do(s, step))
  {
    var t := Do(s, step);
    if step.WorkerPop? {
      assert s.commandRing[0] in s.commandRing;
    }
    assert forall c | c in t.commandRing :: c in s.commandRing;
    assert forall c | c in t.completionRing :: c in s.completionRing || (step.WorkerPush? && c == s.worker.completion);
  }

  lemma DispatchKeepsGenuine(s: State, step: Step)
    requires Genuine(s) && Enabled(s, step)
    requires step.DispatchPop? || step.DispatchDeliver?
    ensures Genuine(Do(s, step))
  {
    hide Reply;
    var t := Do(s, step);
    if step.DispatchPop? {
      assert s.completionRing[0] in s.completionRing;
    }
    assert forall c | c in t.completionRing :: c in s.completionRing;
  }

  lemma CheckKeepsGenuine(s: State)
    requires Genuine(s) && Enabled(s, DispatchCheck)
    ensures Genuine(Do(s, DispatchCheck))
  {
    CheckChanges(s);
  }

  lemma OthersKeepGenuine(s: State, step: Step)
    requires Genuine(s) && Enabled(s, step)
    requires step.PublishFails? || step.WaitExpires? || step.FailRing? || step.Tell? || step.Wake? ||
             step.DispatchClosed? || step.DispatchFails? || step.Close?
    ensures Genuine(Do(s, step))
  {
    hide Reply;
  }

  lemma KeepsGenuine(s: State, step: Step)
    requires Inv(s) && Enabled(s, step)
    ensures Genuine(Do(s, step))
  {
    hide Do, Enabled, Genuine, Recorded, ExecutedOnce, InOrder, InOnePlace, ToldOnce, NobodyForgotten, Truthful;
    match step {
      case Submit(_, _) => SubmitKeepsGenuine(s, step);
      case Publish(id) => PublishKeepsGenuine(s, id);
      case WorkerExecute(_) => ExecuteKeepsGenuine(s, step);
      case WorkerPop | WorkerPush | WorkerStops => WorkerKeepsGenuine(s, step);
      case DispatchCheck => CheckKeepsGenuine(s);
      case DispatchPop | DispatchDeliver => DispatchKeepsGenuine(s, step);
      case _ => OthersKeepGenuine(s, step);
    }
  }

  lemma ExecutesOnlyNew(s: State)
    requires InOrder(s) && s.worker.Executing?
    ensures s.worker.command.submissionId !in CommandIds(s.commandRing)
    ensures s.worker.command.submissionId in s.published
  {
    var before := s.resolved + (DispatchIds(s.dispatch) + CompletionIds(s.completionRing));
    var id := s.worker.command.submissionId;
    Split(s.resolved, DispatchIds(s.dispatch) + CompletionIds(s.completionRing), id, CommandIds(s.commandRing));
    assert s.published == before + [id] + CommandIds(s.commandRing);
    assert s.published[|before|] == id;
    assert forall k | 0 <= k < |s.commandRing| ::
        CommandIds(s.commandRing)[k] == s.published[|before| + 1 + k];
  }

  lemma Split(a: seq<nat>, b: seq<nat>, x: nat, c: seq<nat>)
    ensures a + (b + [x] + c) == a + b + [x] + c
  {
  }

  lemma PublishKeepsExecuted(s: State, id: nat)
    requires InOrder(s) && Recorded(s) && ExecutedOnce(s) && Enabled(s, Publish(id))
    ensures ExecutedOnce(Do(s, Publish(id)))
  {
    assert id !in s.published;
    var c := s.commands[id];
    assert CommandIds(s.commandRing + [c]) == CommandIds(s.commandRing) + [c.submissionId];
  }

  lemma WorkerKeepsExecuted(s: State, step: Step)
    requires InOrder(s) && ExecutedOnce(s) && Enabled(s, step) && (step.WorkerExecute? || step.WorkerPop?)
    ensures ExecutedOnce(Do(s, step))
  {
    if step.WorkerExecute? {
      ExecutesOnlyNew(s);
    } else {
      CommandPops(s.commandRing);
    }
  }

  lemma CallersKeepExecuted(s: State, step: Step)
    requires ExecutedOnce(s) && Enabled(s, step)
    requires step.Submit? || step.PublishFails? || step.WaitExpires? || step.FailRing? || step.Tell? || step.Wake? ||
             step.Close?
    ensures ExecutedOnce(Do(s, step))
  {
  }

  lemma RepliesKeepExecuted(s: State, step: Step)
    requires ExecutedOnce(s) && Enabled(s, step) && (step.WorkerPush? || step.WorkerStops?)
    ensures ExecutedOnce(Do(s, step))
  {
    hide CommandIds;
  }

  lemma DispatchKeepsExecuted(s: State, step: Step)
    requires ExecutedOnce(s) && Enabled(s, step)
    requires step.DispatchPop? || step.DispatchDeliver? || step.DispatchClosed? || step.DispatchFails?
    ensures ExecutedOnce(Do(s, step))
  {
    hide CommandIds;
  }

  lemma CheckKeepsExecuted(s: State)
    requires ExecutedOnce(s) && Enabled(s, DispatchCheck)
    ensures ExecutedOnce(Do(s, DispatchCheck))
  {
    hide CommandIds, Matches;
    CheckChanges(s);
  }

  lemma KeepsExecutedOnce(s: State, step: Step)
    requires InOrder(s) && Recorded(s) && ExecutedOnce(s) && Enabled(s, step)
    ensures ExecutedOnce(Do(s, step))
  {
    hide Do, Enabled, InOrder, Recorded, ExecutedOnce;
    match step {
      case Publish(id) => PublishKeepsExecuted(s, id);
      case WorkerExecute(_) | WorkerPop => WorkerKeepsExecuted(s, step);
      case WorkerPush | WorkerStops => RepliesKeepExecuted(s, step);
      case DispatchPop | DispatchDeliver | DispatchClosed | DispatchFails => DispatchKeepsExecuted(s, step);
      case DispatchCheck => CheckKeepsExecuted(s);
      case _ => CallersKeepExecuted(s, step);
    }
  }

  /** Every step, in every state the others can reach, keeps all of it. */
  lemma DoKeeps(s: State, step: Step)
    requires Inv(s) && Enabled(s, step)
    ensures Inv(Do(s, step))
  {
    hide Do, Enabled, Genuine, Recorded, ExecutedOnce, InOrder, InOnePlace, ToldOnce, NobodyForgotten, Truthful;
    KeepsOrder(s, step);
    KeepsRecords(s, step);
    KeepsGenuine(s, step);
    KeepsExecutedOnce(s, step);
    KeepsPlaces(s, step);
    KeepsTold(s, step);
    KeepsNobodyForgotten(s, step);
    KeepsTruth(s, step);
  }
}
