/**
 The life of worker sessions under one condition variable: threads acquire, create, use, evict and
 close sessions. One step is one critical section or one call made outside the lock.
 */
module Sessions {

  type Thread = nat
  type Plugin = nat
  type Session = nat

  datatype Phase = Open | Closing | Closed

  /** Where a call is. A thread without a call is in no map. */
  datatype Call =
    | Acquiring(plugin: Plugin)                     // about to look, or to look again
    | Sleeping(plugin: Plugin)                      // waiting for somebody else's creation
    | Creating(plugin: Plugin)                      // starting a worker, outside the lock
    | Created(plugin: Plugin, session: Session)
    | Discarding(plugin: Plugin, session: Session)  // the backend closed meanwhile
    | Discarded(plugin: Plugin)
    | Using(plugin: Plugin, session: Session)
    | Evicting(session: Session)                    // out of the table, about to be closed
    | Leaving
    | Constructing                                  // a tensor, without a session
    | Draining(asleep: bool)                        // closing, waiting for the others
    | Shutting(left: set<Session>)                  // closing the sessions one by one
    | AwaitingClose(asleep: bool)                   // another thread closes

  /** Who answers for a session: the table, a thread that will close it, or nobody any more. */
  datatype Owner = Registered(plugin: Plugin) | Held(thread: Thread) | Gone

  /**
   `creating` also records which thread creates; `owner` covers every session ever started;
   `closer` is the thread that won the close.
   */
  datatype Backend = Backend(
    phase: Phase, sessions: map<Plugin, Session>, creating: map<Plugin, Thread>, inflight: int,
    calls: map<Thread, Call>, owner: map<Session, Owner>, closer: Thread)

  datatype Step =
    | Acquire(t: Thread, plugin: Plugin) | Look(t: Thread) | Create(t: Thread, session: Session)
    | CreateFails(t: Thread)
    | Publish(t: Thread) | Discard(t: Thread) | Forget(t: Thread)
    | Finish(t: Thread) | Evict(t: Thread) | CloseEvicted(t: Thread) | Leave(t: Thread)
    | Construct(t: Thread) | Close(t: Thread) | Recheck(t: Thread) | ShutOne(t: Thread, session: Session)
    | EndClose(t: Thread)

  // ----- The steps --------------------------------------------------------------------

  function Woken(c: Call): Call {
    match c
    case Sleeping(p) => Acquiring(p)
    case Draining(_) => Draining(false)
    case AwaitingClose(_) => AwaitingClose(false)
    case _ => c
  }

  /** notify_all: every sleeper looks again. */
  function Notified(calls: map<Thread, Call>): map<Thread, Call> {
    map x: nat | x in calls :: Woken(calls[x])
  }

  predicate Enabled(b: Backend, step: Step) {
    match step
    case Acquire(t, _) => t !in b.calls
    case Construct(t) => t !in b.calls && b.phase.Open?
    case Close(t) => t !in b.calls && !b.phase.Closed?
    case Look(t) => t in b.calls && b.calls[t].Acquiring?
    case Create(t, s) => t in b.calls && b.calls[t].Creating? && s !in b.owner
    case CreateFails(t) => t in b.calls && b.calls[t].Creating?
    case Publish(t) => t in b.calls && b.calls[t].Created?
    case Discard(t) => t in b.calls && b.calls[t].Discarding?
    case Forget(t) => t in b.calls && b.calls[t].Discarded?
    case Finish(t) => t in b.calls && (b.calls[t].Using? || b.calls[t].Constructing?)
    case Evict(t) => t in b.calls && b.calls[t].Using?
    case CloseEvicted(t) => t in b.calls && b.calls[t].Evicting?
    case Leave(t) => t in b.calls && b.calls[t].Leaving?
    case Recheck(t) =>
      t in b.calls && (b.calls[t] == Draining(false) || b.calls[t] == AwaitingClose(false))
    case ShutOne(t, s) => t in b.calls && b.calls[t].Shutting? && s in b.calls[t].left
    case EndClose(t) => t in b.calls && b.calls[t].Shutting? && b.calls[t].left == {}
  }

  predicate Drained(b: Backend) {
    b.inflight == 0 && b.creating == map[]
  }

  /** The closing thread either goes to sleep or takes the whole table. */
  function Drain(b: Backend, t: Thread): Backend {
    if Drained(b) then
      b.(calls := b.calls[t := Shutting(b.sessions.Values)], sessions := map[],
         owner := map s | s in b.owner :: if b.owner[s].Registered? then Held(t) else b.owner[s])
    else b.(calls := b.calls[t := Draining(true)])
  }

  function LookAt(b: Backend, t: Thread, p: Plugin): Backend {
    if !b.phase.Open? then b.(calls := b.calls - {t})
    else if p in b.sessions then b.(inflight := b.inflight + 1, calls := b.calls[t := Using(p, b.sessions[p])])
    else if p !in b.creating then b.(creating := b.creating[p := t], calls := b.calls[t := Creating(p)])
    else b.(calls := b.calls[t := Sleeping(p)])
  }

  function PublishBy(b: Backend, t: Thread, p: Plugin, s: Session): Backend {
    if b.phase.Open? then
      b.(sessions := b.sessions[p := s], creating := b.creating - {p}, inflight := b.inflight + 1,
         calls := Notified(b.calls)[t := Using(p, s)], owner := b.owner[s := Registered(p)])
    else b.(calls := b.calls[t := Discarding(p, s)])
  }

  /** A session leaves the table only if it is still the one there; it is closed in any case. */
  function EvictBy(b: Backend, t: Thread, p: Plugin, s: Session): Backend {
    if p in b.sessions && b.sessions[p] == s then
      b.(sessions := b.sessions - {p}, calls := Notified(b.calls)[t := Evicting(s)], owner := b.owner[s := Held(t)])
    else b.(calls := b.calls[t := Evicting(s)])
  }

  function Do(b: Backend, step: Step): Backend
    requires Enabled(b, step)
  {
    match step
    case Acquire(t, p) => b.(calls := b.calls[t := Acquiring(p)])
    case Look(t) => LookAt(b, t, b.calls[t].plugin)
    case Create(t, s) => b.(calls := b.calls[t := Created(b.calls[t].plugin, s)], owner := b.owner[s := Held(t)])
    case CreateFails(t) =>
      b.(creating := b.creating - {b.calls[t].plugin}, calls := Notified(b.calls) - {t})
    case Publish(t) => PublishBy(b, t, b.calls[t].plugin, b.calls[t].session)
    case Discard(t) =>
      b.(calls := b.calls[t := Discarded(b.calls[t].plugin)], owner := b.owner[b.calls[t].session := Gone])
    case Forget(t) => b.(creating := b.creating - {b.calls[t].plugin}, calls := Notified(b.calls) - {t})
    case Finish(t) => b.(inflight := b.inflight - 1, calls := Notified(b.calls) - {t})
    case Evict(t) => EvictBy(b, t, b.calls[t].plugin, b.calls[t].session)
    case CloseEvicted(t) => b.(calls := b.calls[t := Leaving], owner := b.owner[b.calls[t].session := Gone])
    case Leave(t) => b.(inflight := b.inflight - 1, calls := Notified(b.calls) - {t})
    case Construct(t) => b.(inflight := b.inflight + 1, calls := b.calls[t := Constructing])
    case Close(t) =>
      if b.phase.Open? then Drain(b.(phase := Closing, closer := t), t)
      else b.(calls := b.calls[t := AwaitingClose(true)])
    case Recheck(t) =>
      if b.calls[t].Draining? then Drain(b, t)
      else if b.phase.Closed? then b.(calls := b.calls - {t})
      else b.(calls := b.calls[t := AwaitingClose(true)])
    case ShutOne(t, s) =>
      b.(calls := b.calls[t := Shutting(b.calls[t].left - {s})], owner := b.owner[s := Gone])
    case EndClose(t) => b.(phase := Closed, calls := Notified(b.calls) - {t})
  }

  /** After discovery: a session for each plugin discovered. */
  predicate Starts(b: Backend) {
    && b.phase.Open? && b.creating == map[] && b.inflight == 0 && b.calls == map[]
    && (forall p | p in b.sessions :: b.sessions[p] in b.owner && b.owner[b.sessions[p]] == Registered(p))
    && (forall s | s in b.owner :: b.owner[s].Registered? && b.owner[s].plugin in b.sessions
                                   && b.sessions[b.owner[s].plugin] == s)
  }

  // ----- The invariant ----------------------------------------------------------------

  /** In the middle of creating a session for its plugin. */
  predicate Creates(c: Call) {
    c.Creating? || c.Created? || c.Discarding? || c.Discarded?
  }

  predicate Counts(c: Call) {
    c.Using? || c.Evicting? || c.Leaving? || c.Constructing?
  }

  function Users(calls: map<Thread, Call>): set<Thread> {
    set t | t in calls && Counts(calls[t])
  }

  /** One creation per plugin, and only while none is registered. */
  ghost predicate OneCreation(b: Backend) {
    && (forall t | t in b.calls && Creates(b.calls[t]) ::
          b.calls[t].plugin in b.creating && b.creating[b.calls[t].plugin] == t)
    && (forall p | p in b.creating ::
          b.creating[p] in b.calls && Creates(b.calls[b.creating[p]]) && b.calls[b.creating[p]].plugin == p)
    && (forall p | p in b.creating :: p !in b.sessions)
  }

  ghost predicate CountsUsers(b: Backend) {
    b.inflight == |Users(b.calls)|
  }

  predicate Keeps(c: Call, s: Session) {
    match c
    case Created(_, x) => x == s
    case Discarding(_, x) => x == s
    case Evicting(x) => x == s
    case Shutting(left) => s in left
    case _ => false
  }

  /** Every session ever started is in the table, with a thread that will close it, or closed. */
  ghost predicate Accounted(b: Backend) {
    && (forall p | p in b.sessions :: b.sessions[p] in b.owner && b.owner[b.sessions[p]] == Registered(p))
    && (forall s | s in b.owner && b.owner[s].Registered? ::
          b.owner[s].plugin in b.sessions && b.sessions[b.owner[s].plugin] == s)
    && (forall s | s in b.owner && b.owner[s].Held? ::
          b.owner[s].thread in b.calls && Keeps(b.calls[b.owner[s].thread], s))
  }

  /** A session not published yet is its creator's alone. */
  ghost predicate Unpublished(b: Backend) {
    forall t | t in b.calls && (b.calls[t].Created? || b.calls[t].Discarding?) ::
      b.calls[t].session in b.owner && b.owner[b.calls[t].session] == Held(t)
  }

  /** Out of the table for good: being evicted, or closed. */
  ghost predicate Out(b: Backend, s: Session) {
    && s in b.owner
    && (b.owner[s].Gone? ||
        (b.owner[s].Held? && b.owner[s].thread in b.calls && b.calls[b.owner[s].thread].Evicting?))
  }

  /** A session in use is in the table under its plugin or already out of it; one being evicted is out. */
  ghost predicate Published(b: Backend) {
    && (forall t | t in b.calls && b.calls[t].Using? ::
          && b.calls[t].session in b.owner
          && (b.owner[b.calls[t].session] == Registered(b.calls[t].plugin) || Out(b, b.calls[t].session)))
    && (forall t | t in b.calls && b.calls[t].Evicting? :: Out(b, b.calls[t].session))
  }

  predicate IsCloser(c: Call) {
    c.Draining? || c.Shutting?
  }

  /** One thread closes, and takes the table only when nobody else uses or creates anything. */
  ghost predicate ClosesOnce(b: Backend) {
    && (forall t | t in b.calls && IsCloser(b.calls[t]) :: b.phase.Closing? && t == b.closer)
    && (b.phase.Closing? ==> b.closer in b.calls && IsCloser(b.calls[b.closer]))
    && (b.phase.Closed? || (b.closer in b.calls && b.calls[b.closer].Shutting?) ==> Drained(b) && b.sessions == map[])
  }

  predicate Discards(c: Call) {
    c.Discarding? || c.Discarded?
  }

  /** Nobody sleeps through what they wait for, and nobody gives up while the backend is open. */
  ghost predicate NobodyOversleeps(b: Backend) {
    && (forall t | t in b.calls && b.calls[t].Sleeping? :: b.calls[t].plugin in b.creating)
    && (forall t | t in b.calls && b.calls[t] == Draining(true) :: !Drained(b))
    && (forall t | t in b.calls && b.calls[t] == AwaitingClose(true) :: b.phase.Closing?)
    && (forall t | t in b.calls && (b.calls[t].AwaitingClose? || Discards(b.calls[t])) :: !b.phase.Open?)
  }

  ghost predicate Inv(b: Backend) {
    OneCreation(b) && CountsUsers(b) && Accounted(b) && Unpublished(b) && Published(b) && ClosesOnce(b) &&
      NobodyOversleeps(b)
  }

  // ----- What every step keeps --------------------------------------------------------

  lemma NoUsers(b: Backend, t: Thread)
    requires CountsUsers(b) && b.inflight == 0 && t in b.calls
    ensures !Counts(b.calls[t])
  {
    assert Users(b.calls) == {};
    assert t !in Users(b.calls);
  }

  predicate Ends(step: Step) {
    step.CreateFails? || step.Forget? || step.Finish? || step.Leave?
  }

  lemma EndsKeepOneCreation(b: Backend, step: Step)
    requires OneCreation(b) && Enabled(b, step) && (Ends(step) || step.EndClose?)
    ensures OneCreation(Do(b, step))
  {
    hide LookAt, PublishBy, EvictBy, Drain, Drained, Notified, Woken;
    NotifiedCreates(b.calls);
    assert Do(b, step).calls == Notified(b.calls) - {step.t};
  }

  /** notify_all changes no call that creates, and makes none of another. */
  lemma NotifiedCreates(calls: map<Thread, Call>)
    ensures Notified(calls).Keys == calls.Keys
    ensures forall t | t in calls :: Creates(Notified(calls)[t]) <==> Creates(calls[t])
    ensures forall t | t in calls && Creates(calls[t]) :: Notified(calls)[t] == calls[t]
  {
  }

  lemma LookKeepsOneCreation(b: Backend, step: Step)
    requires OneCreation(b) && Enabled(b, step) && step.Look?
    ensures OneCreation(Do(b, step))
  {
    hide PublishBy, EvictBy, Drain, Notified;
  }

  lemma EvictKeepsOneCreation(b: Backend, step: Step)
    requires OneCreation(b) && Enabled(b, step) && step.Evict?
    ensures OneCreation(Do(b, step))
  {
    hide LookAt, PublishBy, Drain;
  }

  lemma PublishKeepsOneCreation(b: Backend, step: Step)
    requires OneCreation(b) && Enabled(b, step) && step.Publish?
    ensures OneCreation(Do(b, step))
  {
    hide LookAt, EvictBy, Drain;
  }

  lemma DrainKeepsOneCreation(b: Backend, t: Thread)
    requires OneCreation(b) && (t in b.calls ==> b.calls[t].Draining?)
    ensures OneCreation(Drain(b, t))
  {
  }

  lemma CloseKeepsOneCreation(b: Backend, step: Step)
    requires OneCreation(b) && Enabled(b, step) && (step.Close? || step.Recheck?)
    ensures OneCreation(Do(b, step))
  {
    hide LookAt, PublishBy, EvictBy, Drain;
    if step.Close? && b.phase.Open? {
      DrainKeepsOneCreation(b.(phase := Closing, closer := step.t), step.t);
    } else if step.Recheck? && b.calls[step.t].Draining? {
      DrainKeepsOneCreation(b, step.t);
    }
  }

  lemma OthersKeepOneCreation(b: Backend, step: Step)
    requires OneCreation(b) && Enabled(b, step)
    requires step.Acquire? || step.Create? || step.Discard? || step.CloseEvicted? || step.Construct? || step.ShutOne?
    ensures OneCreation(Do(b, step))
  {
    hide LookAt, PublishBy, EvictBy, Drain, Notified;
  }

  lemma EndsKeepAccounted(b: Backend, step: Step)
    requires Accounted(b) && Enabled(b, step) && (Ends(step) || step.EndClose?)
    ensures Accounted(Do(b, step))
  {
    hide LookAt, PublishBy, EvictBy, Drain;
  }

  lemma PublishKeepsAccounted(b: Backend, step: Step)
    requires OneCreation(b) && Accounted(b) && Unpublished(b) && Enabled(b, step) && step.Publish?
    ensures Accounted(Do(b, step))
  {
    hide LookAt, EvictBy, Drain;
  }

  lemma EvictKeepsAccounted(b: Backend, step: Step)
    requires Accounted(b) && Enabled(b, step) && step.Evict?
    ensures Accounted(Do(b, step))
  {
    hide LookAt, PublishBy, Drain;
  }

  lemma DrainKeepsAccounted(b: Backend, t: Thread)
    requires Accounted(b) && (t in b.calls ==> b.calls[t].Draining?)
    ensures Accounted(Drain(b, t))
  {
  }

  lemma CloseKeepsAccounted(b: Backend, step: Step)
    requires Accounted(b) && Enabled(b, step) && (step.Close? || step.Recheck?)
    ensures Accounted(Do(b, step))
  {
    hide LookAt, PublishBy, EvictBy, Drain;
    if step.Close? && b.phase.Open? {
      DrainKeepsAccounted(b.(phase := Closing, closer := step.t), step.t);
    } else if step.Recheck? && b.calls[step.t].Draining? {
      DrainKeepsAccounted(b, step.t);
    }
  }

  lemma OwnersKeepAccounted(b: Backend, step: Step)
    requires Accounted(b) && Unpublished(b) && Published(b) && ClosesOnce(b) && Enabled(b, step)
    requires step.Create? || step.Discard? || step.CloseEvicted? || step.ShutOne?
    ensures Accounted(Do(b, step))
  {
    hide LookAt, PublishBy, EvictBy, Drain, Notified;
  }

  lemma OthersKeepAccounted(b: Backend, step: Step)
    requires Accounted(b) && Enabled(b, step) && (step.Acquire? || step.Look? || step.Construct?)
    ensures Accounted(Do(b, step))
  {
    hide PublishBy, EvictBy, Drain, Notified;
  }

  lemma EndsKeepUnpublished(b: Backend, step: Step)
    requires Unpublished(b) && Enabled(b, step) && (Ends(step) || step.EndClose?)
    ensures Unpublished(Do(b, step))
  {
    hide LookAt, PublishBy, EvictBy, Drain;
  }

  lemma TableKeepsUnpublished(b: Backend, step: Step)
    requires OneCreation(b) && Accounted(b) && Unpublished(b) && Enabled(b, step)
    requires step.Look? || step.Publish? || step.Evict?
    ensures Unpublished(Do(b, step))
  {
    hide Do, Enabled, OneCreation, Accounted, Unpublished;
    match step {
      case Look(_) => LookKeepsUnpublished(b, step);
      case Publish(_) => PublishKeepsUnpublished(b, step);
      case _ => EvictKeepsUnpublished(b, step);
    }
  }

  lemma LookKeepsUnpublished(b: Backend, step: Step)
    requires Unpublished(b) && Enabled(b, step) && step.Look?
    ensures Unpublished(Do(b, step))
  {
    hide PublishBy, EvictBy, Drain, Notified;
  }

  lemma PublishKeepsUnpublished(b: Backend, step: Step)
    requires OneCreation(b) && Unpublished(b) && Enabled(b, step) && step.Publish?
    ensures Unpublished(Do(b, step))
  {
    hide LookAt, EvictBy, Drain;
  }

  lemma EvictKeepsUnpublished(b: Backend, step: Step)
    requires Accounted(b) && Unpublished(b) && Enabled(b, step) && step.Evict?
    ensures Unpublished(Do(b, step))
  {
    hide LookAt, PublishBy, Drain;
  }

  lemma DrainKeepsUnpublished(b: Backend, t: Thread)
    requires Unpublished(b) && (t in b.calls ==> b.calls[t].Draining?)
    ensures Unpublished(Drain(b, t))
  {
  }

  lemma CloseKeepsUnpublished(b: Backend, step: Step)
    requires Unpublished(b) && Enabled(b, step) && (step.Close? || step.Recheck?)
    ensures Unpublished(Do(b, step))
  {
    hide LookAt, PublishBy, EvictBy, Drain;
    if step.Close? && b.phase.Open? {
      DrainKeepsUnpublished(b.(phase := Closing, closer := step.t), step.t);
    } else if step.Recheck? && b.calls[step.t].Draining? {
      DrainKeepsUnpublished(b, step.t);
    }
  }

  lemma OthersKeepUnpublished(b: Backend, step: Step)
    requires Accounted(b) && Unpublished(b) && Published(b) && ClosesOnce(b) && OneCreation(b) && Enabled(b, step)
    requires step.Acquire? || step.Create? || step.Discard? || step.CloseEvicted? || step.Construct? || step.ShutOne?
    ensures Unpublished(Do(b, step))
  {
    hide LookAt, PublishBy, EvictBy, Drain, Notified;
  }

  lemma EndsKeepPublished(b: Backend, step: Step)
    requires Published(b) && Enabled(b, step) && (Ends(step) || step.EndClose?)
    ensures Published(Do(b, step))
  {
    hide LookAt, PublishBy, EvictBy, Drain;
  }

  /** notify_all changes only calls that sleep, or could. */
  lemma NotifiedUses(calls: map<Thread, Call>)
    ensures Notified(calls).Keys == calls.Keys
    ensures forall t | t in calls && (calls[t].Using? || calls[t].Evicting?) :: Notified(calls)[t] == calls[t]
    ensures forall t | t in calls && (Notified(calls)[t].Using? || Notified(calls)[t].Evicting?) ::
              Notified(calls)[t] == calls[t]
  {
  }

  lemma PublishKeepsPublished(b: Backend, step: Step)
    requires Unpublished(b) && Published(b) && Enabled(b, step) && step.Publish?
    ensures Published(Do(b, step))
  {
    hide LookAt, EvictBy, Drain, Notified, Woken;
    NotifiedUses(b.calls);
  }

  lemma EvictKeepsPublished(b: Backend, step: Step)
    requires Accounted(b) && Published(b) && Enabled(b, step) && step.Evict?
    ensures Published(Do(b, step))
  {
    hide LookAt, PublishBy, Drain;
  }

  /** One call may begin to use a registered session; the others and the owners stay. */
  lemma PublishedFollows(b: Backend, c: Backend, t: Thread)
    requires Published(b) && c.owner == b.owner && (t in b.calls ==> !b.calls[t].Evicting?)
    requires forall x | x != t :: (x in c.calls <==> x in b.calls) && (x in b.calls ==> c.calls[x] == b.calls[x])
    requires t in c.calls ==> !c.calls[t].Evicting?
    requires t in c.calls && c.calls[t].Using? ==>
               c.calls[t].session in c.owner && c.owner[c.calls[t].session] == Registered(c.calls[t].plugin)
    ensures Published(c)
  {
    assert forall s | Out(b, s) :: Out(c, s);
  }

  lemma LookKeepsPublished(b: Backend, step: Step)
    requires Accounted(b) && Published(b) && Enabled(b, step) && step.Look?
    ensures Published(Do(b, step))
  {
    hide PublishBy, EvictBy, Drain, Notified, Keeps, Published;
    PublishedFollows(b, Do(b, step), step.t);
  }

  lemma DrainKeepsPublished(b: Backend, t: Thread)
    requires Published(b) && (t in b.calls ==> b.calls[t].Draining?) && CountsUsers(b)
    ensures Published(Drain(b, t))
  {
    if b.inflight == 0 {
      NobodyUses(b);
    }
  }

  lemma StartKeepsPublished(b: Backend, step: Step)
    requires Published(b) && CountsUsers(b) && Enabled(b, step) && step.Close?
    ensures Published(Do(b, step))
  {
    hide LookAt, PublishBy, EvictBy, Drain, Notified;
    if b.phase.Open? {
      DrainKeepsPublished(b.(phase := Closing, closer := step.t), step.t);
    }
  }

  lemma RecheckKeepsPublished(b: Backend, step: Step)
    requires Published(b) && CountsUsers(b) && Enabled(b, step) && step.Recheck?
    ensures Published(Do(b, step))
  {
    hide LookAt, PublishBy, EvictBy, Drain, Notified;
    if b.calls[step.t].Draining? {
      DrainKeepsPublished(b, step.t);
    }
  }

  lemma CloseKeepsPublished(b: Backend, step: Step)
    requires Published(b) && CountsUsers(b) && Enabled(b, step) && (step.Close? || step.Recheck?)
    ensures Published(Do(b, step))
  {
    hide Do, Enabled, Published, CountsUsers;
    if step.Close? {
      StartKeepsPublished(b, step);
    } else {
      RecheckKeepsPublished(b, step);
    }
  }

  lemma NobodyUses(b: Backend)
    requires CountsUsers(b) && b.inflight == 0
    ensures forall t | t in b.calls :: !b.calls[t].Using? && !b.calls[t].Evicting?
  {
    forall t | t in b.calls ensures !Counts(b.calls[t]) {
      NoUsers(b, t);
    }
  }

  lemma OwnersKeepPublished(b: Backend, step: Step)
    requires Accounted(b) && Published(b) && Unpublished(b) && Enabled(b, step)
    requires step.Create? || step.Discard? || step.CloseEvicted? || step.ShutOne?
    ensures Published(Do(b, step))
  {
    hide Do, Enabled, Accounted, Published, Unpublished;
    match step {
      case Create(_, _) => CreateKeepsPublished(b, step);
      case ShutOne(_, _) => ShutKeepsPublished(b, step);
      case _ => GoneKeepsPublished(b, step);
    }
  }

  lemma CreateKeepsPublished(b: Backend, step: Step)
    requires Published(b) && Enabled(b, step) && step.Create?
    ensures Published(Do(b, step))
  {
    hide LookAt, PublishBy, EvictBy, Drain, Notified;
  }

  lemma ShutKeepsPublished(b: Backend, step: Step)
    requires Published(b) && Enabled(b, step) && step.ShutOne?
    ensures Published(Do(b, step))
  {
    hide LookAt, PublishBy, EvictBy, Drain, Notified;
  }

  lemma GoneKeepsPublished(b: Backend, step: Step)
    requires Accounted(b) && Published(b) && Unpublished(b) && Enabled(b, step) && (step.Discard? || step.CloseEvicted?)
    ensures Published(Do(b, step))
  {
    hide Do, Enabled, Accounted, Published, Unpublished;
    if step.Discard? {
      DiscardKeepsPublished(b, step);
    } else {
      ClosedKeepsPublished(b, step);
    }
  }

  lemma DiscardKeepsPublished(b: Backend, step: Step)
    requires Published(b) && Unpublished(b) && Enabled(b, step) && step.Discard?
    ensures Published(Do(b, step))
  {
    hide LookAt, PublishBy, EvictBy, Drain, Notified;
  }

  lemma ClosedKeepsPublished(b: Backend, step: Step)
    requires Accounted(b) && Published(b) && Enabled(b, step) && step.CloseEvicted?
    ensures Published(Do(b, step))
  {
    hide LookAt, PublishBy, EvictBy, Drain, Notified;
  }

  lemma OthersKeepPublished(b: Backend, step: Step)
    requires Published(b) && Enabled(b, step) && (step.Acquire? || step.Construct?)
    ensures Published(Do(b, step))
  {
    hide LookAt, PublishBy, EvictBy, Drain, Notified;
  }

  lemma StartKeepsClosesOnce(b: Backend, step: Step)
    requires ClosesOnce(b) && Enabled(b, step) && step.Close?
    ensures ClosesOnce(Do(b, step))
  {
    hide LookAt, PublishBy, EvictBy, Notified;
  }

  lemma RecheckKeepsClosesOnce(b: Backend, step: Step)
    requires ClosesOnce(b) && Enabled(b, step) && step.Recheck?
    ensures ClosesOnce(Do(b, step))
  {
    hide LookAt, PublishBy, EvictBy, Notified;
  }

  lemma EndKeepsClosesOnce(b: Backend, step: Step)
    requires ClosesOnce(b) && Enabled(b, step) && step.EndClose?
    ensures ClosesOnce(Do(b, step))
  {
    hide LookAt, PublishBy, EvictBy, Drain;
  }

  lemma CloseKeepsClosesOnce(b: Backend, step: Step)
    requires ClosesOnce(b) && Enabled(b, step) && (step.Close? || step.Recheck? || step.EndClose?)
    ensures ClosesOnce(Do(b, step))
  {
    hide Do, Enabled, ClosesOnce;
    match step {
      case Close(_) => StartKeepsClosesOnce(b, step);
      case Recheck(_) => RecheckKeepsClosesOnce(b, step);
      case _ => EndKeepsClosesOnce(b, step);
    }
  }

  /** A user that ends was counted, so the closer has not got hold of the table yet. */
  lemma UserKeepsClosesOnce(b: Backend, step: Step)
    requires CountsUsers(b) && ClosesOnce(b) && Enabled(b, step) && (step.Finish? || step.Leave?)
    ensures ClosesOnce(Do(b, step))
  {
    hide LookAt, PublishBy, EvictBy, Drain;
    if b.inflight == 0 {
      NoUsers(b, step.t);
    }
  }

  lemma CreatorKeepsClosesOnce(b: Backend, step: Step)
    requires OneCreation(b) && ClosesOnce(b) && Enabled(b, step) && (step.CreateFails? || step.Forget?)
    ensures ClosesOnce(Do(b, step))
  {
    hide LookAt, PublishBy, EvictBy, Drain;
  }

  lemma EndsKeepClosesOnce(b: Backend, step: Step)
    requires OneCreation(b) && CountsUsers(b) && ClosesOnce(b) && Enabled(b, step) && Ends(step)
    ensures ClosesOnce(Do(b, step))
  {
    hide Do, Enabled, OneCreation, CountsUsers, ClosesOnce;
    if step.Finish? || step.Leave? {
      UserKeepsClosesOnce(b, step);
    } else {
      CreatorKeepsClosesOnce(b, step);
    }
  }

  lemma LookKeepsClosesOnce(b: Backend, step: Step)
    requires ClosesOnce(b) && Enabled(b, step) && step.Look?
    ensures ClosesOnce(Do(b, step))
  {
    hide PublishBy, EvictBy, Drain, Notified;
  }

  lemma PublishKeepsClosesOnce(b: Backend, step: Step)
    requires OneCreation(b) && ClosesOnce(b) && Enabled(b, step) && step.Publish?
    ensures ClosesOnce(Do(b, step))
  {
    hide LookAt, EvictBy, Drain;
  }

  lemma EvictKeepsClosesOnce(b: Backend, step: Step)
    requires CountsUsers(b) && ClosesOnce(b) && Enabled(b, step) && step.Evict?
    ensures ClosesOnce(Do(b, step))
  {
    hide LookAt, PublishBy, Drain;
    if b.inflight == 0 {
      NoUsers(b, step.t);
    }
  }

  lemma TableKeepsClosesOnce(b: Backend, step: Step)
    requires OneCreation(b) && CountsUsers(b) && ClosesOnce(b) && Enabled(b, step) && OnTable(step)
    ensures ClosesOnce(Do(b, step))
  {
    hide Do, Enabled, OneCreation, CountsUsers, ClosesOnce;
    match step {
      case Look(_) => LookKeepsClosesOnce(b, step);
      case Publish(_) => PublishKeepsClosesOnce(b, step);
      case _ => EvictKeepsClosesOnce(b, step);
    }
  }

  lemma OthersKeepClosesOnce(b: Backend, step: Step)
    requires ClosesOnce(b) && Enabled(b, step)
    requires step.Acquire? || step.Create? || step.Discard? || step.CloseEvicted? || step.Construct? || step.ShutOne?
    ensures ClosesOnce(Do(b, step))
  {
    hide LookAt, PublishBy, EvictBy, Drain, Notified;
  }

  /** After notify_all nobody sleeps at all. */
  lemma NotifiedAreAwake(calls: map<Thread, Call>)
    ensures forall t | t in Notified(calls) ::
              !Notified(calls)[t].Sleeping? && Notified(calls)[t] != Draining(true) &&
                Notified(calls)[t] != AwaitingClose(true)
    ensures forall t | t in Notified(calls) :: Notified(calls)[t].AwaitingClose? ==> calls[t].AwaitingClose?
    ensures forall t | t in Notified(calls) :: Discards(Notified(calls)[t]) ==> Discards(calls[t])
  {
  }

  lemma EndsKeepOversleeping(b: Backend, step: Step)
    requires NobodyOversleeps(b) && Enabled(b, step) && (Ends(step) || step.EndClose?)
    ensures NobodyOversleeps(Do(b, step))
  {
    hide LookAt, PublishBy, EvictBy, Drain, Drained, Notified, Woken;
    NotifiedAreAwake(b.calls);
    NotifiedKeys(b.calls);
    assert Do(b, step).calls == Notified(b.calls) - {step.t};
  }

  lemma StartKeepsOversleeping(b: Backend, step: Step)
    requires NobodyOversleeps(b) && Enabled(b, step) && step.Close?
    ensures NobodyOversleeps(Do(b, step))
  {
    hide LookAt, PublishBy, EvictBy, Notified;
  }

  lemma RecheckKeepsOversleeping(b: Backend, step: Step)
    requires NobodyOversleeps(b) && Enabled(b, step) && step.Recheck?
    ensures NobodyOversleeps(Do(b, step))
  {
    hide LookAt, PublishBy, EvictBy, Notified, Woken;
  }

  lemma CloseKeepsOversleeping(b: Backend, step: Step)
    requires NobodyOversleeps(b) && Enabled(b, step) && (step.Close? || step.Recheck?)
    ensures NobodyOversleeps(Do(b, step))
  {
    hide Do, Enabled, NobodyOversleeps;
    if step.Close? {
      StartKeepsOversleeping(b, step);
    } else {
      RecheckKeepsOversleeping(b, step);
    }
  }

  lemma OthersKeepOversleeping(b: Backend, step: Step)
    requires NobodyOversleeps(b) && CountsUsers(b) && Enabled(b, step)
    requires step.Acquire? || step.Create? || step.Discard? || step.CloseEvicted? || step.Construct? || step.ShutOne?
    ensures NobodyOversleeps(Do(b, step))
  {
    hide LookAt, PublishBy, EvictBy, Drain, Notified, Woken, Users;
  }

  lemma LookKeepsOversleeping(b: Backend, step: Step)
    requires NobodyOversleeps(b) && CountsUsers(b) && Enabled(b, step) && step.Look?
    ensures NobodyOversleeps(Do(b, step))
  {
    hide PublishBy, EvictBy, Drain, Notified, Woken, Users;
  }

  lemma PublishKeepsOversleeping(b: Backend, step: Step)
    requires NobodyOversleeps(b) && Enabled(b, step) && step.Publish?
    ensures NobodyOversleeps(Do(b, step))
  {
    hide LookAt, EvictBy, Drain, Notified;
    NotifiedAreAwake(b.calls);
    NotifiedKeys(b.calls);
  }

  lemma NotifiedKeys(calls: map<Thread, Call>)
    ensures Notified(calls).Keys == calls.Keys
  {
  }

  lemma EvictKeepsOversleeping(b: Backend, step: Step)
    requires NobodyOversleeps(b) && Enabled(b, step) && step.Evict?
    ensures NobodyOversleeps(Do(b, step))
  {
    hide LookAt, PublishBy, Drain, Notified, Woken;
    NotifiedAreAwake(b.calls);
    NotifiedKeys(b.calls);
  }

  // The count of users moves with the set of users.

  predicate UsesAt(calls: map<Thread, Call>, t: Thread) {
    t in calls && Counts(calls[t])
  }

  lemma CountMoves(before: map<Thread, Call>, after: map<Thread, Call>, t: Thread)
    requires forall x | x != t :: UsesAt(before, x) <==> UsesAt(after, x)
    ensures |Users(after)| - |Users(before)| ==
            (if UsesAt(after, t) then 1 else 0) - (if UsesAt(before, t) then 1 else 0)
  {
    forall x: nat | x != t ensures x in Users(before) <==> x in Users(after) {
      assert UsesAt(before, x) <==> UsesAt(after, x);
    }
    SizeMoves(Users(before), Users(after), t);
  }

  lemma SizeMoves(u: set<Thread>, v: set<Thread>, t: Thread)
    requires forall x | x != t :: x in u <==> x in v
    ensures |v| - |u| == (if t in v then 1 else 0) - (if t in u then 1 else 0)
  {
    var w := u - {t};
    assert w == v - {t};
    if t in u {
      assert u == w + {t};
    } else {
      assert u == w;
    }
    if t in v {
      assert v == w + {t};
    } else {
      assert v == w;
    }
  }

  lemma EndsKeepCount(b: Backend, step: Step)
    requires CountsUsers(b) && Enabled(b, step) && (Ends(step) || step.EndClose?)
    ensures CountsUsers(Do(b, step))
  {
    hide LookAt, PublishBy, EvictBy, Drain;
    CountMoves(b.calls, Do(b, step).calls, step.t);
  }

  lemma TableKeepsCount(b: Backend, step: Step)
    requires CountsUsers(b) && Enabled(b, step) && (step.Look? || step.Publish? || step.Evict?)
    ensures CountsUsers(Do(b, step))
  {
    hide Drain;
    CountMoves(b.calls, Do(b, step).calls, step.t);
  }

  lemma StartKeepsCount(b: Backend, step: Step)
    requires CountsUsers(b) && Enabled(b, step) && step.Close?
    ensures CountsUsers(Do(b, step))
  {
    hide LookAt, PublishBy, EvictBy, Users, Notified;
    CountMoves(b.calls, Do(b, step).calls, step.t);
  }

  lemma RecheckKeepsCount(b: Backend, step: Step)
    requires CountsUsers(b) && Enabled(b, step) && step.Recheck?
    ensures CountsUsers(Do(b, step))
  {
    hide LookAt, PublishBy, EvictBy, Users, Notified;
    CountMoves(b.calls, Do(b, step).calls, step.t);
  }

  lemma OthersKeepCount(b: Backend, step: Step)
    requires CountsUsers(b) && Enabled(b, step)
    requires step.Acquire? || step.Create? || step.Discard? || step.CloseEvicted? || step.Construct? || step.ShutOne?
    ensures CountsUsers(Do(b, step))
  {
    hide LookAt, PublishBy, EvictBy, Drain, Notified, Users;
    CountMoves(b.calls, Do(b, step).calls, step.t);
  }

  predicate OnTable(step: Step) {
    step.Look? || step.Publish? || step.Evict?
  }

  predicate OnClosing(step: Step) {
    step.Close? || step.Recheck?
  }

  lemma KeepsCreationAndAccount(b: Backend, step: Step)
    requires Inv(b) && Enabled(b, step)
    ensures OneCreation(Do(b, step)) && Accounted(Do(b, step))
  {
    hide Do, Enabled, OneCreation, Accounted, Unpublished, Published, ClosesOnce, NobodyOversleeps, CountsUsers;
    match step {
      case Look(_) => LookKeepsOneCreation(b, step); OthersKeepAccounted(b, step);
      case Evict(_) => EvictKeepsOneCreation(b, step); EvictKeepsAccounted(b, step);
      case Publish(_) => PublishKeepsOneCreation(b, step); PublishKeepsAccounted(b, step);
      case Close(_) | Recheck(_) => CloseKeepsOneCreation(b, step); CloseKeepsAccounted(b, step);
      case CreateFails(_) | Forget(_) | Finish(_) | Leave(_) | EndClose(_) =>
        EndsKeepOneCreation(b, step); EndsKeepAccounted(b, step);
      case Create(_, _) | Discard(_) | CloseEvicted(_) | ShutOne(_, _) =>
        OthersKeepOneCreation(b, step); OwnersKeepAccounted(b, step);
      case _ => OthersKeepOneCreation(b, step); OthersKeepAccounted(b, step);
    }
  }

  lemma KeepsPublication(b: Backend, step: Step)
    requires Inv(b) && Enabled(b, step)
    ensures Unpublished(Do(b, step)) && Published(Do(b, step))
  {
    hide Do, Enabled, OneCreation, Accounted, Unpublished, Published, ClosesOnce, NobodyOversleeps, CountsUsers;
    match step {
      case Look(_) => TableKeepsUnpublished(b, step); LookKeepsPublished(b, step);
      case Evict(_) => TableKeepsUnpublished(b, step); EvictKeepsPublished(b, step);
      case Publish(_) => TableKeepsUnpublished(b, step); PublishKeepsPublished(b, step);
      case Close(_) | Recheck(_) => CloseKeepsUnpublished(b, step); CloseKeepsPublished(b, step);
      case CreateFails(_) | Forget(_) | Finish(_) | Leave(_) | EndClose(_) =>
        EndsKeepUnpublished(b, step); EndsKeepPublished(b, step);
      case Acquire(_, _) | Construct(_) => OthersKeepUnpublished(b, step); OthersKeepPublished(b, step);
      case _ => OthersKeepUnpublished(b, step); OwnersKeepPublished(b, step);
    }
  }

  lemma KeepsCountAndClosing(b: Backend, step: Step)
    requires Inv(b) && Enabled(b, step)
    ensures CountsUsers(Do(b, step)) && ClosesOnce(Do(b, step))
  {
    hide Do, Enabled, OneCreation, Accounted, Unpublished, Published, ClosesOnce, NobodyOversleeps, CountsUsers;
    if OnTable(step) {
      TableKeepsCount(b, step);
    } else if Ends(step) || step.EndClose? {
      EndsKeepCount(b, step);
    } else if step.Close? {
      StartKeepsCount(b, step);
    } else if step.Recheck? {
      RecheckKeepsCount(b, step);
    } else {
      OthersKeepCount(b, step);
    }
    if OnClosing(step) || step.EndClose? {
      CloseKeepsClosesOnce(b, step);
    } else if OnTable(step) {
      TableKeepsClosesOnce(b, step);
    } else if Ends(step) {
      EndsKeepClosesOnce(b, step);
    } else {
      OthersKeepClosesOnce(b, step);
    }
  }

  lemma KeepsOversleeping(b: Backend, step: Step)
    requires Inv(b) && Enabled(b, step)
    ensures NobodyOversleeps(Do(b, step))
  {
    hide Do, Enabled, OneCreation, Accounted, Unpublished, Published, ClosesOnce, NobodyOversleeps, CountsUsers;
    if step.Look? {
      LookKeepsOversleeping(b, step);
    } else if step.Publish? {
      PublishKeepsOversleeping(b, step);
    } else if step.Evict? {
      EvictKeepsOversleeping(b, step);
    } else if Ends(step) || step.EndClose? {
      EndsKeepOversleeping(b, step);
    } else if OnClosing(step) {
      CloseKeepsOversleeping(b, step);
    } else {
      OthersKeepOversleeping(b, step);
    }
  }

  lemma DoKeeps(b: Backend, step: Step)
    requires Inv(b) && Enabled(b, step)
    ensures Inv(Do(b, step))
  {
    hide Do, Enabled, OneCreation, Accounted, Unpublished, Published, ClosesOnce, NobodyOversleeps, CountsUsers;
    KeepsCreationAndAccount(b, step);
    KeepsPublication(b, step);
    KeepsCountAndClosing(b, step);
    KeepsOversleeping(b, step);
  }

  // ----- Whole runs -------------------------------------------------------------------

  predicate Runs(b: Backend, steps: seq<Step>)
    decreases |steps|
  {
    steps == [] || (Enabled(b, steps[0]) && Runs(Do(b, steps[0]), steps[1..]))
  }

  function After(b: Backend, steps: seq<Step>): Backend
    requires Runs(b, steps)
    decreases |steps|
  {
    if steps == [] then b else After(Do(b, steps[0]), steps[1..])
  }

  lemma StartHolds(b: Backend)
    requires Starts(b)
    ensures Inv(b)
  {
    assert Users(b.calls) == {};
  }

  lemma {:induction false} RunKeeps(b: Backend, steps: seq<Step>)
    requires Inv(b) && Runs(b, steps)
    ensures Inv(After(b, steps))
    decreases |steps|
  {
    if steps != [] {
      DoKeeps(b, steps[0]);
      RunKeeps(Do(b, steps[0]), steps[1..]);
    }
  }

  /** At most one creation runs per plugin, and none while the plugin has a registered session. */
  lemma OneCreationPerPlugin(b: Backend, steps: seq<Step>, t: Thread, u: Thread)
    requires Starts(b) && Runs(b, steps)
    requires t in After(b, steps).calls && Creates(After(b, steps).calls[t])
    requires u in After(b, steps).calls && Creates(After(b, steps).calls[u])
    requires After(b, steps).calls[t].plugin == After(b, steps).calls[u].plugin
    ensures t == u && After(b, steps).calls[t].plugin !in After(b, steps).sessions
  {
    StartHolds(b);
    RunKeeps(b, steps);
  }

  /** The in-flight count is the number of calls in progress; a registered session is never a closed one. */
  lemma CountIsExact(b: Backend, steps: seq<Step>)
    requires Starts(b) && Runs(b, steps)
    ensures var e := After(b, steps);
      && e.inflight == |Users(e.calls)|
      && forall p | p in e.sessions :: e.sessions[p] in e.owner && !e.owner[e.sessions[p]].Gone?
  {
    StartHolds(b);
    RunKeeps(b, steps);
  }

  /** Once the backend is closed, every session ever started has been closed and no call uses one. */
  lemma ClosedMeansAllClosed(b: Backend, steps: seq<Step>)
    requires Starts(b) && Runs(b, steps) && After(b, steps).phase.Closed?
    ensures var e := After(b, steps);
      && e.sessions == map[] && e.creating == map[] && e.inflight == 0
      && (forall s | s in e.owner :: e.owner[s].Gone?)
      && (forall t | t in e.calls :: !Counts(e.calls[t]) && !Creates(e.calls[t]))
  {
    StartHolds(b);
    RunKeeps(b, steps);
    AllClosed(After(b, steps));
  }

  lemma AllClosed(e: Backend)
    requires Inv(e) && e.phase.Closed?
    ensures forall s | s in e.owner :: e.owner[s].Gone?
    ensures forall t | t in e.calls :: !Counts(e.calls[t]) && !Creates(e.calls[t])
  {
    forall t | t in e.calls ensures !Counts(e.calls[t]) && !Creates(e.calls[t]) {
      NoUsers(e, t);
    }
  }

  lemma ClosedStep(b: Backend, step: Step)
    requires Inv(b) && b.phase.Closed? && Enabled(b, step)
    ensures Do(b, step).phase.Closed? && Do(b, step).owner == b.owner
  {
    AllClosed(b);
  }

  /** And no session can appear later. */
  lemma {:induction false} ClosedForGood(b: Backend, steps: seq<Step>)
    requires Inv(b) && b.phase.Closed? && Runs(b, steps)
    ensures After(b, steps).phase.Closed? && After(b, steps).owner == b.owner
    decreases |steps|
  {
    if steps != [] {
      ClosedStep(b, steps[0]);
      DoKeeps(b, steps[0]);
      ClosedForGood(Do(b, steps[0]), steps[1..]);
    }
  }

  // ----- Nobody is stuck --------------------------------------------------------------

  predicate Asleep(c: Call) {
    c.Sleeping? || c == Draining(true) || c == AwaitingClose(true)
  }

  /** The next step of a call that is awake; outside calls are taken to return. */
  ghost function Next(b: Backend, t: Thread): Step
    requires t in b.calls && !Asleep(b.calls[t])
  {
    match b.calls[t]
    case Acquiring(_) => Look(t)
    case Creating(_) => CreateFails(t)
    case Created(_, _) => Publish(t)
    case Discarding(_, _) => Discard(t)
    case Discarded(_) => Forget(t)
    case Using(_, _) => Finish(t)
    case Evicting(_) => CloseEvicted(t)
    case Leaving => Leave(t)
    case Constructing => Finish(t)
    case Draining(_) => Recheck(t)
    case Shutting(left) => if left == {} then EndClose(t) else var s :| s in left; ShutOne(t, s)
    case AwaitingClose(_) => Recheck(t)
    case Sleeping(_) => Look(t)
  }

  /**
   No lost wakeup: whoever sleeps, somebody is awake whose end will wake them. A sleeper waits for
   a creation, and its creator is awake; the closer waits for users or creators, and one is awake;
   a second closer waits for the closer, or for those the closer itself waits for.
   */
  lemma SomebodyIsAwake(b: Backend, t: Thread) returns (u: Thread)
    requires Inv(b) && t in b.calls
    ensures u in b.calls && !Asleep(b.calls[u]) && Enabled(b, Next(b, u))
    ensures b.calls[t].Sleeping? ==> Creates(b.calls[u]) && b.calls[u].plugin == b.calls[t].plugin
    ensures b.calls[t] == Draining(true) ==> Counts(b.calls[u]) || Creates(b.calls[u])
    ensures b.calls[t] == AwaitingClose(true) ==>
              b.closer in b.calls &&
              (u == b.closer || (b.calls[b.closer] == Draining(true) && (Counts(b.calls[u]) || Creates(b.calls[u]))))
  {
    var c := b.calls[t];
    if c.Sleeping? {
      u := b.creating[c.plugin];
    } else if c == AwaitingClose(true) && b.calls[b.closer] != Draining(true) {
      u := b.closer;
    } else if Asleep(c) {
      u := DrainWaitsFor(b);
    } else {
      u := t;
    }
    NextEnabled(b, u);
  }

  lemma NextEnabled(b: Backend, u: Thread)
    requires u in b.calls && !Asleep(b.calls[u])
    ensures Enabled(b, Next(b, u))
  {
  }

  lemma DrainWaitsFor(b: Backend) returns (u: Thread)
    requires OneCreation(b) && CountsUsers(b) && !Drained(b)
    ensures u in b.calls && (Counts(b.calls[u]) || Creates(b.calls[u]))
  {
    if b.creating != map[] {
      var p :| p in b.creating;
      u := b.creating[p];
    } else {
      assert Users(b.calls) != {};
      u :| u in Users(b.calls);
    }
  }
}
