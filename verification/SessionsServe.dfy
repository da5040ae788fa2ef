/**
 What a call on the worker sessions comes to: whoever asks for a session gets the registered one,
 unless the backend closes or its own creation of it fails; whoever closes returns when all is closed.
 */
module SessionsServe {
  import opened Sessions
  import opened SessionsEnd

  /** The call asks for a session of the plugin and has none yet. */
  predicate Wants(calls: map<Thread, Call>, t: Thread, p: Plugin) {
    t in calls && (calls[t].Acquiring? || calls[t].Sleeping? || Creates(calls[t])) && calls[t].plugin == p
  }

  /** The call uses the session registered for the plugin. */
  predicate Has(b: Backend, t: Thread, p: Plugin) {
    t in b.calls && p in b.sessions && b.calls[t] == Using(p, b.sessions[p])
  }

  /** The call ends without a session, for a reason. */
  predicate TurnedAway(b: Backend, step: Step, t: Thread)
    requires Enabled(b, step)
  {
    t !in Do(b, step).calls && (!b.phase.Open? || step == CreateFails(t))
  }

  // ----- One step ---------------------------------------------------------------------

  /** A look takes the registered session and counts the call, starts to create a missing one, or waits. */
  lemma LookEffect(b: Backend, t: Thread)
    requires Enabled(b, Look(t))
    ensures var p, c := b.calls[t].plugin, Do(b, Look(t));
      if !b.phase.Open? then t !in c.calls
      else if p in b.sessions then Has(c, t, p) && c.sessions == b.sessions && c.inflight == b.inflight + 1
      else if p !in b.creating then c.creating == b.creating[p := t] && t in c.calls && c.calls[t] == Creating(p)
      else t in c.calls && c.calls[t] == Sleeping(p)
  {
    hide Notified, Woken, Drain;
  }

  /** The session created is registered and used, or on a closing backend closed unseen. */
  lemma PublishEffect(b: Backend, t: Thread)
    requires Enabled(b, Publish(t))
    ensures var p, s, c := b.calls[t].plugin, b.calls[t].session, Do(b, Publish(t));
      if b.phase.Open? then Has(c, t, p) && c.sessions == b.sessions[p := s] && c.inflight == b.inflight + 1
      else c.sessions == b.sessions && t in c.calls && c.calls[t] == Discarding(p, s)
  {
    hide Notified, Woken, Drain, LookAt, EvictBy;
  }

  /** A failed session leaves the table, if it is still there, and nothing else does. */
  lemma EvictEffect(b: Backend, t: Thread)
    requires Enabled(b, Evict(t))
    ensures var p, s, c := b.calls[t].plugin, b.calls[t].session, Do(b, Evict(t));
      && c.calls[t] == Evicting(s) && (p in c.sessions ==> c.sessions[p] != s)
      && c.sessions - {p} == b.sessions - {p}
      && (p in b.sessions && b.sessions[p] != s ==> c.sessions == b.sessions)
  {
    hide Notified, Woken, Drain, LookAt, PublishBy;
  }

  /** The first close of an open backend lets nobody in any more. */
  lemma CloseEffect(b: Backend, t: Thread)
    requires Enabled(b, Close(t)) && b.phase.Open?
    ensures var c := Do(b, Close(t));
      c.phase.Closing? && c.closer == t && t in c.calls && IsCloser(c.calls[t])
  {
    hide Notified, Woken, LookAt, PublishBy, EvictBy;
  }

  lemma OwnTableStep(b: Backend, step: Step, p: Plugin)
    requires Enabled(b, step) && Wants(b.calls, step.t, p) && (step.Look? || step.Publish?)
    ensures Wants(Do(b, step).calls, step.t, p) || Has(Do(b, step), step.t, p) || TurnedAway(b, step, step.t)
  {
    hide Do, Notified, Woken;
    assert b.calls[step.t].plugin == p;
    if step.Look? {
      LookEffect(b, step.t);
    } else {
      PublishEffect(b, step.t);
    }
  }

  lemma OwnEnd(b: Backend, step: Step, p: Plugin)
    requires Enabled(b, step) && Wants(b.calls, step.t, p) && (step.CreateFails? || step.Forget?)
    requires Discards(b.calls[step.t]) ==> !b.phase.Open?
    ensures TurnedAway(b, step, step.t)
  {
    hide Do, Notified, Woken;
    EndsMove(b, step);
  }

  lemma OwnCreation(b: Backend, step: Step, p: Plugin)
    requires Enabled(b, step) && Wants(b.calls, step.t, p) && !step.Look? && !step.Publish? && !Ends(step)
    ensures Wants(Do(b, step).calls, step.t, p)
  {
    hide LookAt, PublishBy, EvictBy, Drain, Notified, Woken;
  }

  lemma OthersWant(before: map<Thread, Call>, after: map<Thread, Call>, u: Thread, t: Thread, p: Plugin)
    requires Moves(before, after, u) && t != u && Wants(before, t, p)
    ensures Wants(after, t, p)
  {
    assert t in after <==> t in after - {u};
    assert t in before - {u} && (t in after ==> after[t] == (after - {u})[t]);
  }

  /** Whoever asks goes on asking, gets the session registered, or is turned away. */
  lemma WantingStep(b: Backend, step: Step, t: Thread, p: Plugin)
    requires Inv(b) && Enabled(b, step) && Wants(b.calls, t, p)
    ensures Wants(Do(b, step).calls, t, p) || Has(Do(b, step), t, p) || TurnedAway(b, step, t)
  {
    hide Do, OneCreation, CountsUsers, Accounted, Unpublished, Published, ClosesOnce, Moves, Wants, Has, TurnedAway;
    if step.t != t {
      MovesOne(b, step);
      OthersWant(b.calls, Do(b, step).calls, step.t, t, p);
    } else if step.Look? || step.Publish? {
      OwnTableStep(b, step, p);
    } else if step.CreateFails? || step.Forget? {
      OwnEnd(b, step, p);
    } else {
      NotOther(b, step, p);
      OwnCreation(b, step, p);
    }
  }

  lemma NotOther(b: Backend, step: Step, p: Plugin)
    requires Enabled(b, step) && Wants(b.calls, step.t, p)
    ensures !step.Finish? && !step.Leave?
  {
  }

  /** Whoever closes, first or second, returns only once everything is closed. */
  lemma CloseReturns(b: Backend, step: Step, t: Thread)
    requires Inv(b) && Enabled(b, step) && t in b.calls && (IsCloser(b.calls[t]) || b.calls[t].AwaitingClose?)
    requires t !in Do(b, step).calls
    ensures Do(b, step).phase.Closed?
  {
  }

  // ----- Whole runs -------------------------------------------------------------------

  /** At some moment of the run the call uses the session then registered. */
  predicate Served(b: Backend, steps: seq<Step>, t: Thread, p: Plugin)
    requires Runs(b, steps)
    decreases |steps|
  {
    Has(b, t, p) || (steps != [] && Served(Do(b, steps[0]), steps[1..], t, p))
  }

  /** At some moment of the run it is turned away while it still asks. */
  predicate Refused(b: Backend, steps: seq<Step>, t: Thread, p: Plugin)
    requires Runs(b, steps)
    decreases |steps|
  {
    steps != [] &&
    ((Wants(b.calls, t, p) && TurnedAway(b, steps[0], t)) || Refused(Do(b, steps[0]), steps[1..], t, p))
  }

  /** Every call that asks for a session asks until it has the registered one, or is turned away. */
  lemma {:induction false} ServedOrRefused(b: Backend, steps: seq<Step>, t: Thread, p: Plugin)
    requires Inv(b) && Runs(b, steps) && Wants(b.calls, t, p)
    ensures Wants(After(b, steps).calls, t, p) || Served(b, steps, t, p) || Refused(b, steps, t, p)
    decreases |steps|
  {
    hide Do, Enabled, Inv, Wants, Has, TurnedAway;
    if steps != [] {
      var c := Do(b, steps[0]);
      WantingStep(b, steps[0], t, p);
      DoKeeps(b, steps[0]);
      if Wants(c.calls, t, p) {
        ServedOrRefused(c, steps[1..], t, p);
      } else if Has(c, t, p) {
        assert Served(c, steps[1..], t, p);
      }
    }
  }

  lemma StaysOpen(b: Backend, step: Step)
    requires Inv(b) && Enabled(b, step) && b.phase.Open? && !step.Close?
    ensures Do(b, step).phase.Open?
  {
  }

  lemma {:induction false} OpenRefusesNobody(b: Backend, steps: seq<Step>, t: Thread, p: Plugin)
    requires Inv(b) && Runs(b, steps) && b.phase.Open?
    requires forall step | step in steps :: !step.Close? && step != CreateFails(t)
    ensures !Refused(b, steps, t, p)
    decreases |steps|
  {
    hide Do, Enabled, Inv, Wants, Has;
    if steps != [] {
      StaysOpen(b, steps[0]);
      DoKeeps(b, steps[0]);
      OpenRefusesNobody(Do(b, steps[0]), steps[1..], t, p);
    }
  }

  /** While nobody closes, whoever asks for a session and does not fail to create one has it in the end. */
  lemma EverybodyIsServed(b: Backend, steps: seq<Step>, t: Thread, p: Plugin)
    requires Inv(b) && Runs(b, steps) && b.phase.Open? && Wants(b.calls, t, p)
    requires forall step | step in steps :: !step.Close? && step != CreateFails(t)
    requires After(b, steps).calls == map[]
    ensures Served(b, steps, t, p)
  {
    hide Do, Enabled, Inv, Has, TurnedAway, Served, Refused;
    ServedOrRefused(b, steps, t, p);
    OpenRefusesNobody(b, steps, t, p);
  }

  lemma Onwards(b: Backend, first: Step, rest: seq<Step>)
    requires Enabled(b, first) && Runs(Do(b, first), rest)
    ensures Runs(b, [first] + rest) && After(b, [first] + rest) == After(Do(b, first), rest)
  {
    assert ([first] + rest)[1..] == rest;
  }

  /** The first call for a plugin without a session creates one and has it registered. */
  lemma FirstUse(b: Backend, t: Thread, p: Plugin, s: Session)
    requires Starts(b) && p !in b.sessions && s !in b.owner
    ensures var steps := [Acquire(t, p)] + ([Look(t)] + ([Create(t, s)] + ([Publish(t)] + [])));
      Runs(b, steps) && Has(After(b, steps), t, p) && After(b, steps).sessions == b.sessions[p := s]
  {
    hide LookAt, PublishBy, Drain, EvictBy, Notified, Woken, Runs, After;
    var b1 := Do(b, Acquire(t, p));
    LookEffect(b1, t);
    LookKeeps(b1, t);
    var b2 := Do(b1, Look(t));
    var b3 := Do(b2, Create(t, s));
    PublishEffect(b3, t);
    var b4 := Do(b3, Publish(t));
    NoMore(b4);
    Onwards(b3, Publish(t), []);
    Onwards(b2, Create(t, s), [Publish(t)] + []);
    Onwards(b1, Look(t), [Create(t, s)] + ([Publish(t)] + []));
    Onwards(b, Acquire(t, p), [Look(t)] + ([Create(t, s)] + ([Publish(t)] + [])));
  }

  lemma NoMore(b: Backend)
    ensures Runs(b, []) && After(b, []) == b
  {
  }

  lemma LookKeeps(b: Backend, t: Thread)
    requires Enabled(b, Look(t))
    ensures var c := Do(b, Look(t));
      c.phase == b.phase && c.owner == b.owner && c.sessions == b.sessions
  {
    hide Notified, Woken, Drain;
  }
}
