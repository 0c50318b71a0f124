/** What the user's decisions and the device's answers do to a proposed change, and
    that no write reaches for the device without a decision to make it. */
module TabletDecisions {
  import opened Common
  import opened TabletChanges
  import opened TabletResults

  // ------------------------------------------------- every write was decided on

  /** The user asked for this write when it was there to be asked for, and not yet issued. */
  predicate DecidedAt(device: map<string, string>, steps: seq<Step>, k: nat, id: nat, undo: bool)
    requires k < |steps|
  {
    var t := Run(Initial(device), steps[..k]);
    && steps[k].Decide? && steps[k].id == id
    && (if undo then steps[k].decision == DoUndo else steps[k].decision == DoApply && !steps[k].expired)
    && id in t.actions && t.actions[id].status == (if undo then Applied else Proposed)
    && t.flow.None? && Issued(id, undo) !in t.trace
  }

  ghost predicate WasDecided(device: map<string, string>, steps: seq<Step>, id: nat, undo: bool) {
    exists k: nat | k < |steps| :: DecidedAt(device, steps, k, id, undo)
  }

  lemma StillDecided(device: map<string, string>, steps: seq<Step>, step: Step, id: nat, undo: bool)
    requires WasDecided(device, steps, id, undo)
    ensures WasDecided(device, steps + [step], id, undo)
  {
    var k: nat :| k < |steps| && DecidedAt(device, steps, k, id, undo);
    assert (steps + [step])[..k] == steps[..k];
    assert DecidedAt(device, steps + [step], k, id, undo);
  }

  /** A step issues a write only for the decision under way, and takes up a
      decision only as the user makes it. */
  lemma OnlyDecidingDecides(t: Tablet, step: Step)
    ensures var u := Next(t, step);
      u.flow.Some? ==>
        || (t.flow.Some? && u.flow.value.action == t.flow.value.action && u.flow.value.undo == t.flow.value.undo)
        || (&& t.flow.None? && step.Decide? && u.flow.value == Flow(step.id, step.decision.DoUndo?, Connecting)
            && step.id in t.actions
            && t.actions[step.id].status == (if step.decision.DoUndo? then Applied else Proposed)
            && !step.decision.DoDecline? && (step.decision.DoApply? ==> !step.expired))
    ensures forall m | m in Next(t, step).trace && m.Issued? ::
      m in t.trace || (t.flow.Some? && m == Issued(t.flow.value.action, t.flow.value.undo))
  {
  }

  lemma {:induction false} DecisionsPrecede(device: map<string, string>, steps: seq<Step>)
    ensures var t := Run(Initial(device), steps);
      && (t.flow.Some? ==> WasDecided(device, steps, t.flow.value.action, t.flow.value.undo))
      && forall id, undo | Issued(id, undo) in t.trace :: WasDecided(device, steps, id, undo)
    decreases |steps|
  {
    if steps != [] {
      var init, step := steps[..|steps| - 1], steps[|steps| - 1];
      var t, u := Run(Initial(device), init), Run(Initial(device), steps);
      assert steps == init + [step];
      RunConcat(Initial(device), init, [step]);
      assert u == Next(t, step);
      DecisionsPrecede(device, init);
      RunKeeps(Initial(device), init);
      OnlyDecidingDecides(t, step);
      if u.flow.Some? && t.flow.None? {
        var id, undo := u.flow.value.action, u.flow.value.undo;
        assert Told(id, t.actions[id], t.flow, t.trace);
        assert DecidedAt(device, steps, |init|, id, undo);
      }
      forall id, undo | WasDecided(device, init, id, undo) ensures WasDecided(device, steps, id, undo) {
        StillDecided(device, init, step, id, undo);
      }
    }
  }

  /** Over every run: a change is written only after the user applied it, unexpired
      and while it was open, and undone only after the user undid it. */
  lemma NoWriteWithoutDecision(device: map<string, string>, steps: seq<Step>, id: nat, undo: bool)
    requires Issued(id, undo) in Run(Initial(device), steps).trace
    ensures exists k: nat | k < |steps| :: DecidedAt(device, steps, k, id, undo)
  {
    DecisionsPrecede(device, steps);
    assert WasDecided(device, steps, id, undo);
  }

  /** What is declined was never written, and never will be. */
  lemma DeclinedIsNeverWritten(device: map<string, string>, steps: seq<Step>, more: seq<Step>, id: nat)
    requires var t := Run(Initial(device), steps); id in t.actions && t.actions[id].status.Declined?
    ensures var u := Run(Initial(device), steps + more);
      && id in u.actions && u.actions[id].status.Declined?
      && Issued(id, false) !in u.trace && Issued(id, true) !in u.trace
  {
    RunConcat(Initial(device), steps, more);
    RunKeeps(Initial(device), steps);
    RunKeeps(Initial(device), steps + more);
    FinalStaysFinal(Run(Initial(device), steps), more, id);
    var u := Run(Initial(device), steps + more);
    assert Told(id, u.actions[id], u.flow, u.trace);
  }

  // ------------------------------------------------------------- each decision

  /** A decision writes nothing by itself. It is taken up exactly when the change is
      open and unexpired, or applied and to be undone; it closes an open change as
      declined or as stale; otherwise nothing happens. */
  lemma DecideMeans(t: Tablet, id: nat, decision: Decision, expired: bool)
    ensures var u := Next(t, Decide(id, decision, expired));
      var open := t.flow.None? && id in t.actions && t.actions[id].status.Proposed?;
      var done := t.flow.None? && id in t.actions && t.actions[id].status.Applied?;
      u == (
        if open && decision.DoApply? && !expired then t.(flow := Some(Flow(id, false, Connecting)))
        else if done && decision.DoUndo? then t.(flow := Some(Flow(id, true, Connecting)))
        else if open && decision.DoDecline? then t.(actions := t.actions[id := t.actions[id].(status := Declined)])
        else if open && decision.DoApply? then t.(actions := t.actions[id := t.actions[id].(status := Stale)])
        else t)
  {
  }

  /** A proposal is recorded, as proposed, exactly when the value is supported and a
      different one, and no equal proposal is still open and recent. */
  lemma ProposeMeans(
      t: Tablet, id: nat, setting: string, before: string, after: string, supported: bool, recent: set<nat>)
    requires id !in t.actions
    ensures var u := Next(t, Propose(id, setting, before, after, supported, recent));
      var proposal := Action(setting, before, after, Proposed);
      && (id in u.actions <==>
            supported && before != after && !exists j | j in recent :: j in t.actions && t.actions[j] == proposal)
      && u == t.(actions := if id in u.actions then t.actions[id := proposal] else t.actions)
  {
  }

  // ------------------------------------------------------------- each answer

  /** What the change is when the decision on it is over: as before when nothing was
      read, stale when the value had changed, applied or undone when the device
      confirms it, and uncertain in every other case once the write was issued. */
  lemma HowADecisionEnds(t: Tablet, step: Step)
    requires Inv(t) && t.flow.Some? && Next(t, step).flow.None?
    ensures var f, u := t.flow.value, Next(t, step);
      var a, now := t.actions[f.action], Get(t.device, t.actions[f.action].setting);
      && u.actions == t.actions[f.action := a.(status := u.actions[f.action].status)]
      && u.device == t.device && u.underway == t.underway
      && u.actions[f.action].status == (
           if f.stage.Connecting? then a.status
           else if f.stage.Reading? then
             if step == CurrentRead(true) && now != (if f.undo then a.after else a.before) then Stale else a.status
           else if step == ReadBackReturned(true) && now == (if f.undo then a.before else a.after) then
             if f.undo then Undone else Applied
           else Uncertain)
  {
    var f := t.flow.value;
    assert Told(f.action, t.actions[f.action], t.flow, t.trace);
  }
}
