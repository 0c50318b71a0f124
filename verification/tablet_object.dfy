/** Setting changes over the host's own fields. The device is not the host's: each
    method is given what the device answered and never reads it. */
module TabletObject {
  import opened Common
  import R = TabletResults
  import T = TabletChanges

  class Host {
    var actions: map<nat, T.Action>
    var changing: Option<T.Flow>
    ghost var device: map<string, string>
    ghost var underway: multiset<T.Write>
    ghost var trace: seq<T.Mark>

    ghost function At(): T.Tablet
      reads this
    {
      T.Tablet(actions, device, changing, underway, trace)
    }

    constructor (ghost device: map<string, string>)
      ensures At() == T.Initial(device)
    {
      actions, changing := map[], None;
      this.device, underway, trace := device, multiset{}, [];
    }

    method Update(id: nat, status: T.Status)
      modifies this`actions
      ensures At() == T.SetStatus(old(At()), id, status)
    {
      if id in actions { actions := actions[id := actions[id].(status := status)]; }
    }

    /** `propose`, once the current value has been read: an equal proposal that is
        still open and recent is not made again. */
    method Propose(id: nat, setting: string, before: string, after: string, supported: bool, recent: set<nat>)
      modifies this
      ensures At() == T.Next(old(At()), T.Propose(id, setting, before, after, supported, recent))
    {
      if !supported || before == after { return; }
      var todo := recent;
      while todo != {}
        invariant todo <= recent && At() == old(At())
        invariant forall j | j in recent - todo ::
          !(j in actions && actions[j] == T.Action(setting, before, after, T.Proposed))
        decreases |todo|
      {
        var j :| j in todo;
        if j in actions && actions[j] == T.Action(setting, before, after, T.Proposed) { return; }
        todo := todo - {j};
      }
      if id in actions { return; }
      actions := actions[id := T.Action(setting, before, after, T.Proposed)];
    }

    /** `decide` up to its first await; one decision at a time. */
    method Decide(id: nat, decision: T.Decision, expired: bool)
      modifies this
      ensures At() == T.Next(old(At()), T.Decide(id, decision, expired))
    {
      if id !in actions { return; }
      if changing.Some? { return; }
      var status := actions[id].status;
      if (decision.DoApply? && status.Applied?) || (decision.DoUndo? && status.Undone?)
        || (decision.DoDecline? && status.Declined?) { return; }
      if status != (if decision.DoUndo? then T.Applied else T.Proposed) { return; }
      if decision.DoDecline? {
        Update(id, T.Declined);
        return;
      }
      if decision.DoApply? && expired {
        Update(id, T.Stale);
        return;
      }
      changing := Some(T.Flow(id, decision.DoUndo?, T.Connecting));
    }

    method Connected(ok: bool)
      modifies this
      ensures At() == T.Next(old(At()), T.Connected(ok))
    {
      if changing.None? || changing.value.stage != T.Connecting || changing.value.action !in actions { return; }
      changing := if ok then Some(changing.value.(stage := T.Reading)) else None;
    }

    /** The read before the write came back, or failed. */
    method CurrentRead(answer: Option<string>) returns (command: Option<T.Write>)
      requires T.At(At(), T.Reading) && answer.Some? ==>
        answer.value == T.Get(device, actions[changing.value.action].setting)
      modifies this
      ensures At() == T.Next(old(At()), T.CurrentRead(answer.Some?))
      ensures underway == old(underway) + if command.Some? then multiset{command.value} else multiset{}
    {
      command := None;
      if changing.None? || changing.value.stage != T.Reading || changing.value.action !in actions { return; }
      var f := changing.value;
      var a := actions[f.action];
      if answer.None? {
        changing := None;
        return;
      }
      trace := trace + [T.ReadAs(f.action, f.undo, answer.value)];
      if answer.value != (if f.undo then a.after else a.before) {
        Update(f.action, T.Stale);
        changing := None;
        return;
      }
      Update(f.action, if f.undo then T.Undoing else T.Applying);
      command := Some(T.Write(a.setting, if f.undo then a.before else a.after));
      trace := trace + [T.Issued(f.action, f.undo)];
      underway := underway + multiset{command.value};
      changing := Some(f.(stage := T.Writing));
    }

    /** A command that reports success has reached the device by then. */
    method WriteReturned(ok: bool)
      modifies this
      ensures At() == T.Next(old(At()), T.WriteReturned(ok))
    {
      if changing.None? || changing.value.stage != T.Writing || changing.value.action !in actions { return; }
      var f := changing.value;
      if !ok {
        Update(f.action, T.Uncertain);
        changing := None;
        return;
      }
      ghost var w := T.Write(actions[f.action].setting, T.Desired(actions[f.action], f.undo));
      ghost var landed := T.Landed(At(), w);
      device, underway := landed.device, landed.underway;
      changing := Some(f.(stage := T.ReadingBack));
    }

    method ReadBackReturned(answer: Option<string>)
      requires T.At(At(), T.ReadingBack) && answer.Some? ==>
        answer.value == T.Get(device, actions[changing.value.action].setting)
      modifies this
      ensures At() == T.Next(old(At()), T.ReadBackReturned(answer.Some?))
    {
      if changing.None? || changing.value.stage != T.ReadingBack || changing.value.action !in actions { return; }
      var f := changing.value;
      var desired := if f.undo then actions[f.action].before else actions[f.action].after;
      if answer.Some? { trace := trace + [T.ReadBackAs(f.action, f.undo, answer.value)]; }
      if answer != Some(desired) {
        Update(f.action, T.Uncertain);
      } else {
        Update(f.action, if f.undo then T.Undone else T.Applied);
      }
      changing := None;
    }

    /** `recover` after a crash: one row at a time, what was under way is uncertain. */
    method Recover()
      modifies this
      ensures At() == T.Next(old(At()), T.Crash)
    {
      var todo := actions.Keys;
      while todo != {}
        invariant todo <= actions.Keys == old(actions).Keys
        invariant forall id | id in actions ::
          actions[id] == if id in todo then old(actions)[id] else T.Recovered(old(actions))[id]
        invariant unchanged(`changing) && unchanged(`device) && unchanged(`underway) && unchanged(`trace)
        decreases |todo|
      {
        var id :| id in todo;
        var status := actions[id].status;
        if status.Applying? || status.Undoing? { Update(id, T.Uncertain); }
        todo := todo - {id};
      }
      assert actions == T.Recovered(old(actions));
      changing := None;
    }

    /** What happens on the device without the host. */
    ghost method Elsewhere(step: T.Step)
      requires step.Lands? || step.Outside?
      modifies this`device, this`underway
      ensures At() == T.Next(old(At()), step)
    {
      var after := T.Next(At(), step);
      device, underway := after.device, after.underway;
    }

    /** One step; `answer` is what a read of the device gave, if the step is one. */
    method Perform(step: T.Step, answer: Option<string>)
      requires Truthful(At(), step, answer)
      modifies this
      ensures At() == T.Next(old(At()), step)
    {
      match step {
        case Propose(id, setting, before, after, supported, recent) =>
          Propose(id, setting, before, after, supported, recent);
        case Decide(id, decision, expired) => Decide(id, decision, expired);
        case Connected(ok) => Connected(ok);
        case CurrentRead(ok) => var _ := CurrentRead(answer);
        case WriteReturned(ok) => WriteReturned(ok);
        case ReadBackReturned(ok) => ReadBackReturned(answer);
        case Lands(_) => Elsewhere(step);
        case Outside(_, _) => Elsewhere(step);
        case Crash => Recover();
      }
    }

    /** Any sequence of calls that is answered truthfully does what the run does; so
        what is proved of runs holds of the object, and statuses always tell what
        was exchanged. */
    method PerformAll(steps: seq<T.Step>, answers: seq<Option<string>>)
      requires |answers| == |steps| && AllTruthful(At(), steps, answers) && R.Inv(At())
      modifies this
      ensures At() == T.Run(old(At()), steps) && R.Inv(At())
    {
      R.RunKeeps(At(), steps);
      var i := 0;
      while i < |steps|
        invariant 0 <= i <= |steps|
        invariant T.Run(At(), steps[i..]) == T.Run(old(At()), steps)
        invariant AllTruthful(At(), steps[i..], answers[i..])
      {
        assert steps[i..][1..] == steps[i + 1..] && answers[i..][1..] == answers[i + 1..];
        Perform(steps[i], answers[i]);
        i := i + 1;
      }
    }
  }

  /** A read that succeeds gives what the device has. */
  ghost predicate Truthful(t: T.Tablet, step: T.Step, answer: Option<string>) {
    match step
    case CurrentRead(ok) => (answer.Some? <==> ok) && (ok && T.At(t, T.Reading) ==> answer.value == T.Asked(t))
    case ReadBackReturned(ok) => (answer.Some? <==> ok) && (ok && T.At(t, T.ReadingBack) ==> answer.value == T.Asked(t))
    case _ => true
  }

  ghost predicate AllTruthful(t: T.Tablet, steps: seq<T.Step>, answers: seq<Option<string>>)
    requires |answers| == |steps|
    decreases |steps|
  {
    steps == [] || (Truthful(t, steps[0], answers[0]) && AllTruthful(T.Next(t, steps[0]), steps[1..], answers[1..]))
  }
}
