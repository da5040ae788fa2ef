/**
 Whole runs of the submission protocol: what callers get, in which order, after a failure, and
 why nobody waits for ever.
 */
module DispatcherRuns {
  import opened Dispatcher

  // ----- Runs -------------------------------------------------------------------------

  predicate Runs(s: State, steps: seq<Step>)
    decreases |steps|
  {
    steps == [] || (Enabled(s, steps[0]) && Runs(Do(s, steps[0]), steps[1..]))
  }

  function End(s: State, steps: seq<Step>): State
    requires Runs(s, steps)
    decreases |steps|
  {
    if steps == [] then s else End(Do(s, steps[0]), steps[1..])
  }

  /** The dispatcher and the worker stop for a close or an earlier failure, never on their own. */
  ghost predicate StopsForCause(s: State) {
    && (s.dispatch == Dispatch.Failing ==> s.closed || s.ringError)
    && (s.dispatch.Ended? ==> s.ringError)
    && (s.worker.Stopped? ==> s.closed)
    && (!s.ringError ==> forall id | id in s.callers && s.callers[id].Returned? :: s.callers[id].outcome.Completed?)
  }

  ghost predicate Good(s: State) {
    Inv(s) && StopsForCause(s)
  }

  lemma CheckKeepsCause(s: State)
    requires Good(s) && Enabled(s, DispatchCheck)
    ensures StopsForCause(Do(s, DispatchCheck))
  {
    CheckChanges(s);
    if !s.ringError {
      ChecksPass(s);
    }
  }

  lemma CallersKeepCause(s: State, step: Step)
    requires StopsForCause(s) && InOnePlace(s) && Enabled(s, step)
    requires step.Submit? || step.Publish? || step.PublishFails? || step.WaitExpires? || step.FailRing? || step.Tell? ||
             step.Wake?
    ensures StopsForCause(Do(s, step))
  {
    hide InFlight;
  }

  lemma OthersKeepCause(s: State, step: Step)
    requires StopsForCause(s) && Enabled(s, step)
    requires step.WorkerPop? || step.WorkerExecute? || step.WorkerPush? || step.WorkerStops? || step.Close? ||
             step.DispatchPop? || step.DispatchDeliver? || step.DispatchClosed? || step.DispatchFails?
    ensures StopsForCause(Do(s, step))
  {
  }

  lemma GoodStep(s: State, step: Step)
    requires Good(s) && Enabled(s, step)
    ensures Good(Do(s, step))
  {
    hide Do, Enabled, StopsForCause, InOrder, Recorded, Genuine, ExecutedOnce, InOnePlace, ToldOnce, NobodyForgotten,
      Truthful;
    DoKeeps(s, step);
    match step {
      case Submit(_, _) | Publish(_) | PublishFails(_) | WaitExpires(_) | FailRing(_) | Tell(_) | Wake(_) =>
        CallersKeepCause(s, step);
      case DispatchCheck => CheckKeepsCause(s);
      case _ => OthersKeepCause(s, step);
    }
  }

  /** The invariant holds in every state any interleaving of callers, worker and dispatcher reaches. */
  lemma {:induction false} GoodRun(s: State, steps: seq<Step>)
    requires Good(s) && Runs(s, steps)
    ensures Good(End(s, steps))
    decreases |steps|
  {
    if steps != [] {
      GoodStep(s, steps[0]);
      GoodRun(Do(s, steps[0]), steps[1..]);
    }
  }

  lemma GoodStart(capacity: nat)
    ensures Good(Start(capacity))
  {
  }

  // ----- Where a submission is --------------------------------------------------------

  ghost function Places(s: State, id: nat): nat {
    (if Is(s, id, Caller.Registered) then 1 else 0) + multiset(CommandIds(s.commandRing))[id] +
    multiset(WorkerIds(s.worker))[id] + multiset(CompletionIds(s.completionRing))[id] +
    multiset(DispatchIds(s.dispatch))[id]
  }

  lemma {:induction false} DistinctOnce(ids: seq<nat>, id: nat)
    requires forall i, j | 0 <= i < j < |ids| :: ids[i] != ids[j]
    ensures multiset(ids)[id] == if id in ids then 1 else 0
  {
    if ids != [] {
      assert ids == [ids[0]] + ids[1..];
      DistinctOnce(ids[1..], id);
    }
  }

  lemma FlightIsDistinct(s: State)
    requires InOrder(s)
    ensures forall i, j | 0 <= i < j < |InFlight(s)| :: InFlight(s)[i] != InFlight(s)[j]
    ensures forall id | id in InFlight(s) :: id in s.published
  {
    var f, n := InFlight(s), |s.resolved|;
    assert forall i | 0 <= i < |f| :: f[i] == s.published[n + i];
  }

  /**
   Until a failure a pending submission is in exactly one place: about to be published, in the
   command ring, with the worker, in the completion ring or with the dispatcher; and what is
   pending is exactly what is in one of them.
   */
  lemma ExactlyOnePlace(s: State, id: nat)
    requires Good(s) && !s.ringError
    ensures Places(s, id) == if id in s.pending then 1 else 0
  {
    FlightIsDistinct(s);
    DistinctOnce(InFlight(s), id);
    assert multiset(InFlight(s))[id] ==
        multiset(DispatchIds(s.dispatch))[id] + multiset(CompletionIds(s.completionRing))[id]
                                        + multiset(WorkerIds(s.worker))[id] + multiset(CommandIds(s.commandRing))[id];
  }

  // ----- What callers get -------------------------------------------------------------

  /**
   In every run a caller that got a completion got the worker's reply to its own command, and
   the worker's replies were resolved in the order in which their commands were published.
   */
  lemma OwnReplies(capacity: nat, steps: seq<Step>)
    requires Runs(Start(capacity), steps)
    ensures var s := End(Start(capacity), steps);
      && s.resolved <= s.published
      && forall id | id in s.callers && s.callers[id].Returned? && s.callers[id].outcome.Completed? ::
        && id in s.commands && id in s.executed && s.commands[id].submissionId == id
        && s.callers[id].outcome.completion == Reply(s.commands[id], s.executed[id])
        && Answers(s.callers[id].outcome.completion, s.commands[id], s.executed[id])
  {
    hide Answers, Reply, Matches;
    GoodStart(capacity);
    GoodRun(Start(capacity), steps);
    var s := End(Start(capacity), steps);
    forall id | id in s.callers && s.callers[id].Returned? && s.callers[id].outcome.Completed?
      ensures id in s.executed && Answers(Reply(s.commands[id], s.executed[id]), s.commands[id], s.executed[id])
    {
      ReplyAnswers(s.commands[id], s.executed[id]);
    }
  }

  // ----- What is submitted and executed -----------------------------------------------

  function Asked(steps: seq<Step>): seq<Step> {
    if steps == [] then [] else (if steps[0].Submit? then [steps[0]] else []) + Asked(steps[1..])
  }

  /** The recorded command is the caller's, under its submission and with the profile bit as asked. */
  predicate Carries(c: Command, step: Step, id: nat)
    requires step.Submit?
  {
    && c.submissionId == id && c.kind == step.command.kind
    && c.invocationId == step.command.invocationId && c.operationId == step.command.operationId
    && c.flags / 2 == step.command.flags / 2 && (c.flags % 2 == 1 <==> step.profiled)
  }

  lemma SubmitEffect(s: State, step: Step)
    requires Enabled(s, step) && step.Submit?
    ensures var t := Do(s, step);
      && t.nextId == s.nextId + 1 && t.commands.Keys == s.commands.Keys + {s.nextId}
      && Carries(t.commands[s.nextId], step, s.nextId)
      && (forall id | id in s.commands && id != s.nextId :: t.commands[id] == s.commands[id])
      && t.executed == s.executed
  {
  }

  /** Between the two states exactly these commands were recorded, numbered in their order. */
  ghost predicate Records(s: State, asked: seq<Step>, t: State) {
    && t.nextId == s.nextId + |asked|
    && (forall id: nat :: id in t.commands <==> id in s.commands || s.nextId <= id < t.nextId)
    && (forall id | id in s.commands && id < s.nextId :: t.commands[id] == s.commands[id])
    && forall k: nat | k < |asked| :: asked[k].Submit? && Carries(t.commands[s.nextId + k], asked[k], s.nextId + k)
  }

  lemma CallersRecord(s: State, step: Step)
    requires Enabled(s, step)
    requires step.Publish? || step.PublishFails? || step.WaitExpires? || step.FailRing? || step.Tell? || step.Wake?
    ensures var t := Do(s, step);
      t.nextId == s.nextId && t.commands == s.commands && t.executed == s.executed
  {
  }

  lemma WorkerRecords(s: State, step: Step)
    requires Enabled(s, step)
    requires step.WorkerPop? || step.WorkerExecute? || step.WorkerPush? || step.WorkerStops? || step.Close?
    ensures var t := Do(s, step);
      && t.nextId == s.nextId && t.commands == s.commands
      && t.executed == if step.WorkerExecute? then s.executed[s.worker.command.submissionId := step.execution]
                       else s.executed
  {
  }

  lemma DispatcherRecords(s: State, step: Step)
    requires Enabled(s, step)
    requires step.DispatchPop? || step.DispatchDeliver? || step.DispatchClosed? || step.DispatchFails?
    ensures var t := Do(s, step);
      t.nextId == s.nextId && t.commands == s.commands && t.executed == s.executed
  {
  }

  /** What is recorded as executed is what the worker did with the command it had. */
  lemma RecordsEffect(s: State, step: Step)
    requires Enabled(s, step)
    ensures !step.Submit? ==> Do(s, step).nextId == s.nextId && Do(s, step).commands == s.commands
    ensures Do(s, step).executed ==
      if step.WorkerExecute? then s.executed[s.worker.command.submissionId := step.execution] else s.executed
  {
    hide Do, Enabled;
    match step {
      case Submit(_, _) => SubmitEffect(s, step);
      case Publish(_) | PublishFails(_) | WaitExpires(_) | FailRing(_) | Tell(_) | Wake(_) => CallersRecord(s, step);
      case WorkerPop | WorkerExecute(_) | WorkerPush | WorkerStops | Close => WorkerRecords(s, step);
      case DispatchCheck => CheckChanges(s);
      case _ => DispatcherRecords(s, step);
    }
  }

  lemma RecordsFirst(s: State, u: State, asked: seq<Step>, t: State, step: Step)
    requires Records(u, asked, t) && step.Submit? && u.nextId == s.nextId + 1
    requires u.commands.Keys == s.commands.Keys + {s.nextId} && Carries(u.commands[s.nextId], step, s.nextId)
    requires forall id | id in s.commands && id != s.nextId :: u.commands[id] == s.commands[id]
    ensures Records(s, [step] + asked, t)
  {
    hide Carries;
    var all := [step] + asked;
    forall k: nat | k < |all|
      ensures all[k].Submit? && Carries(t.commands[s.nextId + k], all[k], s.nextId + k)
    {
      if k > 0 {
        assert all[k] == asked[k - 1] && s.nextId + k == u.nextId + (k - 1);
      }
    }
  }

  lemma RecordsSame(s: State, u: State, asked: seq<Step>, t: State)
    requires Records(u, asked, t) && u.nextId == s.nextId && u.commands == s.commands
    ensures Records(s, asked, t)
  {
  }

  /** Submissions are numbered in their order, and each is recorded as its caller made it. */
  lemma {:induction false} CommandsAreAsked(s: State, steps: seq<Step>)
    requires Runs(s, steps)
    ensures Records(s, Asked(steps), End(s, steps))
    decreases |steps|
  {
    hide Do, Enabled, Records, Carries;
    if steps == [] {
      RecordsNone(s);
    } else {
      var t := Do(s, steps[0]);
      CommandsAreAsked(t, steps[1..]);
      if steps[0].Submit? {
        SubmitEffect(s, steps[0]);
        RecordsFirst(s, t, Asked(steps[1..]), End(t, steps[1..]), steps[0]);
      } else {
        RecordsEffect(s, steps[0]);
        RecordsSame(s, t, Asked(steps[1..]), End(t, steps[1..]));
        assert Asked(steps) == Asked(steps[1..]);
      }
    }
  }

  lemma RecordsNone(s: State)
    ensures Records(s, [], s)
  {
  }

  /** Closing closes the rings and nothing else. */
  lemma CloseEffect(s: State)
    ensures Do(s, Close).closed && Do(s, Close) == s.(closed := true)
  {
  }

  lemma SubmitStays(s: State, step: Step, id: nat)
    requires Recorded(s) && Enabled(s, step) && step.Submit? && id in s.callers
    ensures Is(Do(s, step), id, s.callers[id]) && id in Do(s, step).commands &&
        Do(s, step).commands[id] == s.commands[id]
  {
  }

  lemma CallersStay(s: State, step: Step, id: nat)
    requires Enabled(s, step) && id in s.callers
    requires step.Publish? || step.PublishFails? || step.WaitExpires? || step.FailRing? || step.Wake?
    ensures Do(s, step).commands == s.commands && id in Do(s, step).callers
    ensures s.callers[id].Returned? ==> Is(Do(s, step), id, s.callers[id])
  {
  }

  lemma WorkerStays(s: State, step: Step)
    requires Enabled(s, step) && (step.WorkerPop? || step.WorkerExecute? || step.WorkerPush? || step.WorkerStops?)
    ensures Do(s, step).commands == s.commands && Do(s, step).callers == s.callers
  {
  }

  lemma OthersStay(s: State, step: Step)
    requires Enabled(s, step)
    requires step.Tell? || step.DispatchPop? || step.DispatchDeliver? || step.DispatchClosed? || step.DispatchFails? ||
             step.Close?
    ensures Do(s, step).commands == s.commands && Do(s, step).callers == s.callers
  {
  }

  lemma CommandsStay(s: State, step: Step, id: nat)
    requires Recorded(s) && Enabled(s, step) && id in s.callers
    ensures id in Do(s, step).callers
    ensures id in Do(s, step).commands && Do(s, step).commands[id] == s.commands[id]
    ensures s.callers[id].Returned? ==> Is(Do(s, step), id, s.callers[id])
  {
    if step.Submit? {
      SubmitStays(s, step, id);
    } else if step.Publish? || step.PublishFails? || step.WaitExpires? || step.FailRing? || step.Wake? {
      CallersStay(s, step, id);
    } else if step.WorkerPop? || step.WorkerExecute? || step.WorkerPush? || step.WorkerStops? {
      WorkerStays(s, step);
    } else if step.DispatchCheck? {
      CheckChanges(s);
    } else {
      OthersStay(s, step);
    }
  }

  /** Exactly one outcome: a caller that returned has returned for good. */
  lemma {:induction false} OneOutcome(s: State, steps: seq<Step>, id: nat)
    requires Good(s) && Runs(s, steps) && id in s.callers && s.callers[id].Returned?
    ensures Is(End(s, steps), id, s.callers[id])
    ensures id in s.commands && id in End(s, steps).commands && End(s, steps).commands[id] == s.commands[id]
    decreases |steps|
  {
    if steps != [] {
      CommandsStay(s, steps[0], id);
      GoodStep(s, steps[0]);
      OneOutcome(Do(s, steps[0]), steps[1..], id);
    }
  }

  lemma FailureStays(s: State, step: Step)
    requires Recorded(s) && InOnePlace(s) && s.ringError && Enabled(s, step)
    ensures Do(s, step).ringError && Do(s, step).callers.Keys == s.callers.Keys
  {
    hide Expects, Matches, Reply, Recorded;
  }

  /** After the first failure nothing is ever pending again and every submission is refused. */
  lemma {:induction false} FailureIsFinal(s: State, steps: seq<Step>, command: Command, profiled: bool)
    requires Good(s) && Runs(s, steps) && s.ringError
    ensures End(s, steps).ringError && End(s, steps).pending == map[] && End(s, steps).callers.Keys == s.callers.Keys
    ensures !Enabled(End(s, steps), Submit(command, profiled))
    decreases |steps|
  {
    if steps != [] {
      var t := Do(s, steps[0]);
      FailureStays(s, steps[0]);
      GoodStep(s, steps[0]);
      FailureIsFinal(t, steps[1..], command, profiled);
    }
  }

  /** The ring fails first because a caller gave up or the session closed, never over a reply's identity. */
  lemma FirstFailure(s: State, step: Step)
    requires Good(s) && Enabled(s, step) && !s.ringError && Do(s, step).ringError
    ensures step.FailRing? || (step.DispatchFails? && s.closed)
  {
    if step.DispatchCheck? {
      CheckChanges(s);
    }
  }

  // ----- Nobody waits for ever --------------------------------------------------------

  /** Steps taken without a new submission, a close, or anybody losing patience. */
  predicate Unforced(step: Step) {
    step.Publish? || step.FailRing? || step.Tell? || step.Wake? || step.WorkerPop? || step.WorkerExecute? ||
    step.WorkerPush? || step.DispatchPop? || step.DispatchCheck? || step.DispatchDeliver? || step.DispatchClosed? ||
    step.DispatchFails?
  }

  /** A step of the dispatcher, unless it has nothing to do. */
  function DispatcherStep(s: State): Step
    requires !s.dispatch.Ended?
  {
    match s.dispatch
    case Popping => if s.completionRing == [] then DispatchClosed else DispatchPop
    case Checking(_) => DispatchCheck
    case Delivering(_) => DispatchDeliver
    case Failing => DispatchFails
  }

  lemma DispatcherCan(s: State)
    requires !s.dispatch.Ended? && !(s.dispatch.Popping? && s.completionRing == [] && !s.closed)
    ensures Enabled(s, DispatcherStep(s)) && Unforced(DispatcherStep(s))
  {
  }

  /** While the ring works, whoever is pending can be moved along by somebody. */
  lemma PendingMoves(s: State, id: nat) returns (step: Step)
    requires Good(s) && s.capacity > 0 && !s.ringError && id in s.pending
    ensures Enabled(s, step) && Unforced(step)
  {
    if s.dispatch.Popping? && s.completionRing == [] && !s.closed {
      if s.worker.Executing? {
        step := WorkerExecute(Finished(0, 0));
      } else if s.worker.Replying? {
        step := WorkerPush;
      } else if s.commandRing != [] {
        step := WorkerPop;
      } else {
        assert InFlight(s) == [];
        step := Publish(id);
      }
    } else {
      DispatcherCan(s);
      step := DispatcherStep(s);
    }
  }

  /** In every reachable state, failed or closed or not, a sleeping caller is owed a step it need not force. */
  lemma WaitingIsServed(s: State, id: nat) returns (step: Step)
    requires Good(s) && s.capacity > 0 && Is(s, id, Waiting)
    ensures Enabled(s, step) && Unforced(step)
  {
    if id in s.failing {
      step := Tell(id);
    } else if id in s.errored || id in s.delivered {
      step := Wake(id);
    } else if id in s.pending {
      step := PendingMoves(s, id);
    } else {
      step := DispatchDeliver;
    }
  }

  lemma QuietMeansReturned(s: State, id: nat)
    requires Good(s) && s.capacity > 0 && !s.ringError && !s.closed && id in s.callers
    requires forall step | Unforced(step) :: !Enabled(s, step)
    ensures id in s.commands && id in s.executed && s.pending == map[]
    ensures Is(s, id, Returned(Completed(Reply(s.commands[id], s.executed[id]))))
  {
    forall k ensures k !in s.pending {
      if k in s.pending {
        var step := PendingMoves(s, k);
        assert false;
      }
    }
    match s.callers[id]
    case Registered => assert false;
    case Waiting =>
      var step := WaitingIsServed(s, id);
      assert false;
    case Failing =>
      assert Enabled(s, FailRing(id)) && Unforced(FailRing(id));
      assert false;
    case Returned(_) =>
  }

  /** With the session open and nobody impatient, when nothing more can happen everyone has their own reply. */
  lemma QuietMeansAnswered(s: State, id: nat)
    requires Good(s) && s.capacity > 0 && !s.ringError && !s.closed && id in s.callers
    requires forall step | Unforced(step) :: !Enabled(s, step)
    ensures id in s.commands && id in s.executed && s.pending == map[]
    ensures Is(s, id, Returned(Completed(Reply(s.commands[id], s.executed[id]))))
    ensures Answers(s.callers[id].outcome.completion, s.commands[id], s.executed[id])
  {
    hide Enabled, Answers, Reply;
    QuietMeansReturned(s, id);
    ReplyAnswers(s.commands[id], s.executed[id]);
  }

  // How much is left to do: every step but a submission or a close lowers it.

  function CallerWork(c: Caller): nat {
    match c
    case Registered => 9
    case Waiting => 2
    case Failing => 1
    case Returned(_) => 0
  }

  function IdWork(s: State, id: nat): nat {
    (if id in s.callers then CallerWork(s.callers[id]) else 0) + (if id in s.pending || id in s.failing then 1 else 0)
  }

  function IdsWork(s: State, n: nat): nat {
    if n == 0 then 0 else IdsWork(s, n - 1) + IdWork(s, n - 1)
  }

  function WorkerWork(w: Worker): nat {
    match w
    case Idle => 1
    case Executing(_) => 6
    case Replying(_) => 5
    case Stopped(_) => 0
  }

  function DispatchWork(d: Dispatch): nat {
    match d
    case Popping => 2
    case Checking(_) => 4
    case Delivering(_) => 3
    case Failing => 1
    case Ended => 0
  }

  function RingWork(s: State): nat {
    6 * |s.commandRing| + WorkerWork(s.worker) + 3 * |s.completionRing| + DispatchWork(s.dispatch)
  }

  function Work(s: State): nat {
    IdsWork(s, s.nextId) + RingWork(s)
  }

  lemma {:induction false} IdsDrop(s: State, t: State, n: nat)
    requires forall id | 0 <= id < n :: IdWork(t, id) <= IdWork(s, id)
    ensures IdsWork(t, n) <= IdsWork(s, n)
  {
    if n > 0 {
      IdsDrop(s, t, n - 1);
    }
  }

  lemma {:induction false} IdDrops(s: State, t: State, n: nat, id: nat, drop: nat)
    requires id < n && IdWork(t, id) + drop <= IdWork(s, id)
    requires forall k | 0 <= k < n && k != id :: IdWork(t, k) <= IdWork(s, k)
    ensures IdsWork(t, n) + drop <= IdsWork(s, n)
  {
    if id < n - 1 {
      IdDrops(s, t, n - 1, id, drop);
    } else {
      IdsDrop(s, t, n - 1);
    }
  }

  lemma SubmitWork(s: State, step: Step)
    requires Recorded(s) && Enabled(s, step) && step.Submit?
    ensures Work(Do(s, step)) <= Work(s) + 10
  {
    IdsDrop(s, Do(s, step), s.nextId);
  }

  lemma PublicationWork(s: State, step: Step)
    requires Recorded(s) && Enabled(s, step) && (step.Publish? || step.PublishFails?)
    ensures Work(Do(s, step)) < Work(s)
  {
    IdDrops(s, Do(s, step), s.nextId, step.id, 7);
  }

  lemma CallerStepWork(s: State, step: Step)
    requires Recorded(s) && ToldOnce(s) && Enabled(s, step)
    requires step.WaitExpires? || step.FailRing? || step.Tell? || step.Wake?
    ensures Work(Do(s, step)) < Work(s)
  {
    hide IdsWork, Reply, Expects;
    IdDrops(s, Do(s, step), s.nextId, step.id, 1);
  }

  lemma WorkerStepWork(s: State, step: Step)
    requires Enabled(s, step)
    requires step.WorkerPop? || step.WorkerExecute? || step.WorkerPush? || step.WorkerStops?
    ensures Work(Do(s, step)) < Work(s)
  {
    IdsDrop(s, Do(s, step), s.nextId);
  }

  lemma DispatchStepWork(s: State, step: Step)
    requires Enabled(s, step)
    requires step.DispatchPop? || step.DispatchCheck? || step.DispatchDeliver? || step.DispatchClosed? ||
             step.DispatchFails?
    ensures Work(Do(s, step)) < Work(s)
  {
    hide IdsWork, Reply, Matches;
    if step.DispatchCheck? {
      CheckChanges(s);
    }
    IdsDrop(s, Do(s, step), s.nextId);
  }

  lemma CloseWork(s: State)
    ensures Work(Do(s, Close)) <= Work(s)
  {
    IdsDrop(s, Do(s, Close), s.nextId);
  }

  /** A submission brings at most ten units of work; every other step but a close uses some up. */
  lemma WorkFalls(s: State, step: Step)
    requires Good(s) && Enabled(s, step)
    ensures Work(Do(s, step)) <= Work(s) + (if step.Submit? then 10 else if step.Close? then 0 else -1)
  {
    hide Do, Enabled, Recorded, ToldOnce, Work;
    match step {
      case Submit(_, _) => SubmitWork(s, step);
      case Publish(_) | PublishFails(_) => PublicationWork(s, step);
      case WaitExpires(_) | FailRing(_) | Tell(_) | Wake(_) => CallerStepWork(s, step);
      case WorkerPop | WorkerExecute(_) | WorkerPush | WorkerStops => WorkerStepWork(s, step);
      case Close => CloseWork(s);
      case _ => DispatchStepWork(s, step);
    }
  }

  function Submissions(steps: seq<Step>): nat {
    if steps == [] then 0 else (if steps[0].Submit? then 1 else 0) + Submissions(steps[1..])
  }

  function Closes(steps: seq<Step>): nat {
    if steps == [] then 0 else (if steps[0].Close? then 1 else 0) + Closes(steps[1..])
  }

  /** No livelock: a run is as long as what it started with, its submissions and its closes account for. */
  lemma {:induction false} RunsEnd(s: State, steps: seq<Step>)
    requires Good(s) && Runs(s, steps)
    ensures |steps| + Work(End(s, steps)) <= Work(s) + 11 * Submissions(steps) + Closes(steps)
    decreases |steps|
  {
    if steps != [] {
      WorkFalls(s, steps[0]);
      GoodStep(s, steps[0]);
      RunsEnd(Do(s, steps[0]), steps[1..]);
    }
  }

  lemma CapacityStays(s: State, step: Step)
    requires Enabled(s, step)
    ensures Do(s, step).capacity == s.capacity
  {
  }

  /**
   Steps somebody takes sooner or later, with nothing coming from outside: also a worker that stops
   and a caller that gives up publishing because the session is closed.
   */
  predicate Prompt(s: State, step: Step) {
    Unforced(step) || step.WorkerStops? || (step.PublishFails? && s.closed)
  }

  ghost predicate AtRest(s: State) {
    forall step | Prompt(s, step) :: !Enabled(s, step)
  }

  lemma WorkerRests(s: State)
    requires AtRest(s) && !s.closed && s.commandRing != [] && !s.worker.Stopped?
    ensures s.worker.Replying? && |s.completionRing| >= s.capacity
  {
    hide Do, Reply;
    assert !Enabled(s, WorkerPop) && !Enabled(s, WorkerPush) && !Enabled(s, WorkerExecute(Finished(0, 0)));
  }

  lemma DispatcherRests(s: State)
    requires AtRest(s) && s.completionRing != []
    ensures s.dispatch.Ended?
  {
    hide Do, Reply;
    if !s.dispatch.Ended? {
      DispatcherCan(s);
      assert false;
    }
  }

  /** With commands left in an open session the threads come to rest only after a failure. */
  lemma RingStands(s: State)
    requires StopsForCause(s) && s.capacity > 0 && AtRest(s) && !s.closed && s.commandRing != []
    ensures s.ringError
  {
    hide Do, Reply, Matches, Unforced;
    WorkerRests(s);
    DispatcherRests(s);
  }

  lemma RegisteredRests(s: State, id: nat)
    requires Good(s) && s.capacity > 0 && AtRest(s) && Is(s, id, Caller.Registered)
    ensures s.ringError && !s.closed && |s.commandRing| >= s.capacity
  {
    hide Do, Reply, Matches, Expects, Truthful, Genuine, InOrder, ExecutedOnce, InOnePlace, ToldOnce, NobodyForgotten;
    assert !Enabled(s, Publish(id)) && (s.closed ==> !Enabled(s, PublishFails(id)));
    RingStands(s);
  }

  /**
   At rest a caller has returned, unless there is no room for its command in the ring of a failed
   session that is still open: then it returns when its deadline passes.
   */
  ghost predicate Settled(s: State, id: nat) {
    id in s.callers &&
    (s.callers[id].Returned? ||
     (s.callers[id].Registered? && s.ringError && !s.closed && |s.commandRing| >= s.capacity))
  }

  lemma RestSettles(s: State, id: nat)
    requires Good(s) && s.capacity > 0 && AtRest(s) && id in s.callers
    ensures Settled(s, id)
  {
    hide Do, Good, Reply, Matches, Expects;
    assert !Enabled(s, FailRing(id));
    match s.callers[id]
    case Registered => RegisteredRests(s, id);
    case Waiting =>
      var step := WaitingIsServed(s, id);
      assert false;
    case Failing =>
    case Returned(_) =>
  }

  /** A run of prompt steps. */
  predicate Settles(s: State, steps: seq<Step>)
    decreases |steps|
  {
    steps == [] || (Prompt(s, steps[0]) && Enabled(s, steps[0]) && Settles(Do(s, steps[0]), steps[1..]))
  }

  lemma SameCallers(s: State, step: Step)
    requires Enabled(s, step) && Prompt(s, step)
    ensures Do(s, step).callers.Keys == s.callers.Keys
  {
    hide Do, Enabled, Expects;
    if step.Publish? || step.PublishFails? || step.FailRing? || step.Wake? {
      CallersMove(s, step);
    } else if step.WorkerPop? || step.WorkerExecute? || step.WorkerPush? || step.WorkerStops? {
      WorkerStays(s, step);
    } else if step.DispatchCheck? {
      CheckChanges(s);
    } else {
      OthersStay(s, step);
    }
  }

  lemma CallersMove(s: State, step: Step)
    requires Enabled(s, step) && (step.Publish? || step.PublishFails? || step.FailRing? || step.Wake?)
    ensures Do(s, step).callers.Keys == s.callers.Keys
  {
  }

  lemma RestEnds(s: State)
    requires Good(s) && s.capacity > 0 && AtRest(s)
    ensures forall id | id in s.callers :: Settled(s, id)
  {
    forall id | id in s.callers
      ensures Settled(s, id)
    {
      RestSettles(s, id);
    }
  }

  /**
   From every reachable state, open or closed, failed or not: however the threads are scheduled, once
   nobody submits, closes or loses patience every run is bounded and goes on until it comes to rest,
   and there each caller has returned or waits for room in the ring of a failed session.
   */
  lemma {:induction false} WaitingEnds(s: State, steps: seq<Step>) returns (more: seq<Step>)
    requires Good(s) && s.capacity > 0 && Settles(s, steps)
    ensures Settles(s, steps + more) && Runs(s, steps + more) && |steps + more| <= Work(s)
    ensures AtRest(End(s, steps + more))
    ensures forall id | id in s.callers :: Settled(End(s, steps + more), id)
    decreases Work(s)
  {
    hide Do, Enabled, Good, Work, Settled, AtRest, Prompt;
    if steps != [] {
      PromptStep(s, steps[0]);
      more := WaitingEnds(Do(s, steps[0]), steps[1..]);
      assert (steps + more)[1..] == steps[1..] + more;
    } else if step :| Prompt(s, step) && Enabled(s, step) {
      PromptStep(s, step);
      var rest := WaitingEnds(Do(s, step), []);
      assert [] + rest == rest;
      more := [step] + rest;
      assert (steps + more)[1..] == rest;
    } else {
      more := [];
      NothingPrompt(s);
      RestEnds(s);
    }
  }

  lemma NothingPrompt(s: State)
    requires forall step :: !(Prompt(s, step) && Enabled(s, step))
    ensures AtRest(s)
  {
  }

  lemma PromptStep(s: State, step: Step)
    requires Good(s) && s.capacity > 0 && Enabled(s, step) && Prompt(s, step)
    ensures Good(Do(s, step)) && Do(s, step).capacity > 0 && Do(s, step).callers.Keys == s.callers.Keys
    ensures Work(Do(s, step)) < Work(s)
  {
    hide Do, Enabled, Good, Work;
    WorkFalls(s, step);
    GoodStep(s, step);
    CapacityStays(s, step);
    SameCallers(s, step);
  }

  // ----- One submission through all of it ---------------------------------------------

  lemma Onwards(s: State, first: Step, rest: seq<Step>)
    requires Enabled(s, first) && Runs(Do(s, first), rest)
    ensures Runs(s, [first] + rest) && End(s, [first] + rest) == End(Do(s, first), rest)
  {
    assert ([first] + rest)[1..] == rest;
  }

  lemma NoMore(s: State)
    ensures Runs(s, []) && End(s, []) == s && Asked([]) == []
  {
  }

  /** The session's state around its only submission. */
  function With(s: State, caller: Caller, ring: seq<Command>, worker: Worker, back: seq<Completion>,
                dispatch: Dispatch): State
  {
    s.(callers := map[1 := caller], commandRing := ring, worker := worker, completionRing := back, dispatch := dispatch)
  }

  lemma ToTheWorker(s: State, m: Command)
    requires s == With(s, Caller.Registered, [], Idle, [], Popping) && s.capacity > 0 && !s.closed
    requires s.commands == map[1 := m]
    ensures var u := s.(published := s.published + [1]);
      && Enabled(s, Publish(1)) && Do(s, Publish(1)) == With(u, Waiting, [m], Idle, [], Popping)
      && Enabled(With(u, Waiting, [m], Idle, [], Popping), WorkerPop)
      && Do(With(u, Waiting, [m], Idle, [], Popping), WorkerPop) == With(u, Waiting, [], Executing(m), [], Popping)
  {
    hide Reply, Matches;
  }

  lemma FromTheWorker(u: State, m: Command, e: Execution)
    requires u.capacity > 0 && !u.closed && m.submissionId == 1 && u.executed == map[]
    ensures var v, c := u.(executed := map[1 := e]), Reply(m, e);
      && Enabled(With(u, Waiting, [], Executing(m), [], Popping), WorkerExecute(e))
      && Do(With(u, Waiting, [], Executing(m), [], Popping), WorkerExecute(e)) ==
         With(v, Waiting, [], Replying(c), [], Popping)
      && Enabled(With(v, Waiting, [], Replying(c), [], Popping), WorkerPush)
      && Do(With(v, Waiting, [], Replying(c), [], Popping), WorkerPush) == With(v, Waiting, [], Idle, [c], Popping)
  {
    hide Reply, Matches;
  }

  lemma AndBack(s: State, m: Command, c: Completion)
    requires KnownKind(m.kind) && c.submissionId == 1 && Matches(Expects(m), c)
    requires s == With(s, Waiting, [], Idle, [c], Popping) && s.pending == map[1 := Expects(m)]
    requires s.delivered == map[] && s.errored == {}
    ensures var u := s.(pending := map[], resolved := s.resolved + [1]);
      var v := u.(delivered := map[1 := c]);
      && Enabled(s, DispatchPop) && Do(s, DispatchPop) == With(s, Waiting, [], Idle, [], Checking(c))
      && Enabled(With(s, Waiting, [], Idle, [], Checking(c)), DispatchCheck)
      && Enabled(With(u, Waiting, [], Idle, [], Delivering(c)), DispatchDeliver)
      && Do(With(s, Waiting, [], Idle, [], Checking(c)), DispatchCheck) == With(u, Waiting, [], Idle, [], Delivering(c))
      && Do(With(u, Waiting, [], Idle, [], Delivering(c)), DispatchDeliver) == With(v, Waiting, [], Idle, [], Popping)
      && Enabled(With(v, Waiting, [], Idle, [], Popping), Wake(1))
      && Do(With(v, Waiting, [], Idle, [], Popping), Wake(1)) ==
         With(v, Returned(Completed(c)), [], Idle, [], Popping)
  {
    hide Reply, Matches, Expects;
    assert s.pending - {1} == map[];
  }

  lemma Back(s: State, m: Command, c: Completion) returns (steps: seq<Step>)
    requires KnownKind(m.kind) && c.submissionId == 1 && Matches(Expects(m), c)
    requires s == With(s, Waiting, [], Idle, [c], Popping) && s.pending == map[1 := Expects(m)]
    requires s.delivered == map[] && s.errored == {}
    ensures Runs(s, steps) && Asked(steps) == []
    ensures var t := End(s, steps);
      t.commands == s.commands && t.executed == s.executed && t.callers == map[1 := Returned(Completed(c))]
  {
    hide Do, Enabled, Runs, End, Asked, Matches, Expects;
    AndBack(s, m, c);
    var y := s.(pending := map[], resolved := s.resolved + [1]);
    var z := y.(delivered := map[1 := c]);
    NoMore(With(z, Returned(Completed(c)), [], Idle, [], Popping));
    steps := Before(With(z, Waiting, [], Idle, [], Popping), Wake(1), []);
    steps := Before(With(y, Waiting, [], Idle, [], Delivering(c)), DispatchDeliver, steps);
    steps := Before(With(s, Waiting, [], Idle, [], Checking(c)), DispatchCheck, steps);
    steps := Before(s, DispatchPop, steps);
  }

  lemma ThereAndBack(s: State, m: Command, e: Execution) returns (steps: seq<Step>)
    requires KnownKind(m.kind) && m.kind != COMMAND_SHUTDOWN && s.pending == map[1 := Expects(m)]
    requires s == With(s, Caller.Registered, [], Idle, [], Popping) && s.capacity > 0 && !s.closed
    requires s.commands == map[1 := m] && m.submissionId == 1 && s.executed == map[]
    requires s.delivered == map[] && s.errored == {}
    ensures Runs(s, steps) && Asked(steps) == [] && End(s, steps).commands == s.commands
    ensures End(s, steps).executed == map[1 := e]
    ensures End(s, steps).callers == map[1 := Returned(Completed(Reply(m, e)))]
  {
    hide Do, Enabled, Runs, End, Asked, Reply, Matches, Expects, Answers;
    var c := Reply(m, e);
    ReplyMatchesExactly(m, e);
    ReplyNames(m, e);
    ToTheWorker(s, m);
    var u := s.(published := s.published + [1]);
    FromTheWorker(u, m, e);
    var v := u.(executed := map[1 := e]);
    steps := Back(With(v, Waiting, [], Idle, [c], Popping), m, c);
    steps := Before(With(v, Waiting, [], Replying(c), [], Popping), WorkerPush, steps);
    steps := Before(With(u, Waiting, [], Executing(m), [], Popping), WorkerExecute(e), steps);
    steps := Before(With(u, Waiting, [m], Idle, [], Popping), WorkerPop, steps);
    steps := Before(s, Publish(1), steps);
  }

  lemma ReplyNames(m: Command, e: Execution)
    ensures Reply(m, e).submissionId == m.submissionId
  {
  }

  lemma Before(s: State, first: Step, rest: seq<Step>) returns (steps: seq<Step>)
    requires Enabled(s, first) && Runs(Do(s, first), rest) && !first.Submit?
    ensures Runs(s, steps) && End(s, steps) == End(Do(s, first), rest) && Asked(steps) == Asked(rest)
  {
    hide Do, Enabled;
    steps := [first] + rest;
    Onwards(s, first, rest);
    AskedFirst(first, rest);
  }

  /** Nine steps in a row take the first submission of a new session to the worker and back. */
  lemma OneRoundTrip(capacity: nat, command: Command, profiled: bool, e: Execution) returns (steps: seq<Step>)
    requires capacity > 0 && KnownKind(command.kind) && command.kind != COMMAND_SHUTDOWN
    ensures Runs(Start(capacity), steps) && Asked(steps) == [Submit(command, profiled)]
    ensures var s := End(Start(capacity), steps);
      && 1 in s.callers && s.callers[1].Returned? && s.callers[1].outcome.Completed?
      && 1 in s.commands && s.executed == map[1 := e] && Carries(s.commands[1], Submit(command, profiled), 1)
      && Answers(s.callers[1].outcome.completion, s.commands[1], e)
  {
    hide Runs, End, Asked, Carries, Answers;
    var m := command.(submissionId := 1, flags := SubmittedFlags(command.flags, profiled));
    var s, first := Start(capacity), Submit(command, profiled);
    SubmitEffect(s, first);
    var t := Do(s, first);
    assert t.commands[1] == m;
    steps := ThereAndBack(t, m, e);
    Onwards(s, first, steps);
    AskedFirst(first, steps);
    ReplyAnswers(m, e);
    steps := [first] + steps;
  }

  lemma AskedFirst(first: Step, rest: seq<Step>)
    ensures Asked([first] + rest) == (if first.Submit? then [first] else []) + Asked(rest)
  {
    assert ([first] + rest)[1..] == rest;
  }
}
