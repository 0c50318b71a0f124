/** Reviewed setting changes on a tablet: each is a compare-and-set over an
    external device with a read before and a read after, an undo the same way, and
    a host that can crash anywhere. A write once issued can reach the device late,
    even after the host gave up on it. */
module TabletChanges {
  import opened Common

  datatype Status = Proposed | Declined | Stale | Applying | Applied | Undoing | Undone | Uncertain

  datatype Action = Action(setting: string, before: string, after: string, status: Status)

  /** Where the one decision under way is suspended. */
  datatype Stage = Connecting | Reading | Writing | ReadingBack

  datatype Flow = Flow(action: nat, undo: bool, stage: Stage)

  datatype Write = Write(setting: string, value: string)

  /** Bookkeeping: what passed between host and device, in order. */
  datatype Mark =
    | ReadAs(action: nat, undo: bool, value: string)
    | Issued(action: nat, undo: bool)
    | ReadBackAs(action: nat, undo: bool, value: string)

  datatype Tablet = Tablet(
    actions: map<nat, Action>,
    device: map<string, string>,
    flow: Option<Flow>,            // set while `changing` is
    underway: multiset<Write>,
    trace: seq<Mark>)

  datatype Decision = DoApply | DoDecline | DoUndo

  datatype Step =
    | Propose(id: nat, setting: string, before: string, after: string, supported: bool, recent: set<nat>)
    | Decide(id: nat, decision: Decision, expired: bool)
    | Connected(ok: bool)
    | CurrentRead(ok: bool)
    | WriteReturned(ok: bool)
    | ReadBackReturned(ok: bool)
    | Lands(write: Write)
    | Outside(setting: string, value: string)
    | Crash

  /** `settings get` of a setting that is not there reads "null". */
  function Get(device: map<string, string>, setting: string): string {
    FindOr(device, setting, "null")
  }

  /** "null" is put by deleting. */
  function Put(device: map<string, string>, setting: string, value: string): map<string, string> {
    if value == "null" then device - {setting} else device[setting := value]
  }

  function Expected(a: Action, undo: bool): string {
    if undo then a.after else a.before
  }

  function Desired(a: Action, undo: bool): string {
    if undo then a.before else a.after
  }

  function SetStatus(t: Tablet, id: nat, status: Status): Tablet {
    if id in t.actions then t.(actions := t.actions[id := t.actions[id].(status := status)]) else t
  }

  function Remember(t: Tablet, mark: Mark): Tablet {
    t.(trace := t.trace + [mark])
  }

  /** An open proposal of the same change, made less than fifteen minutes ago. */
  predicate Repeats(actions: map<nat, Action>, recent: set<nat>, setting: string, before: string, after: string) {
    exists j | j in recent :: j in actions && actions[j] == Action(setting, before, after, Proposed)
  }

  function WithProposal(
      t: Tablet, id: nat, setting: string, before: string, after: string, supported: bool, recent: set<nat>): Tablet
  {
    if !supported || before == after || id in t.actions || Repeats(t.actions, recent, setting, before, after) then t
    else t.(actions := t.actions[id := Action(setting, before, after, Proposed)])
  }

  function Decided(t: Tablet, id: nat, decision: Decision, expired: bool): Tablet {
    if id !in t.actions || t.flow.Some? then t
    else if t.actions[id].status != (if decision.DoUndo? then Applied else Proposed) then t
    else if decision.DoDecline? then SetStatus(t, id, Declined)
    else if decision.DoApply? && expired then SetStatus(t, id, Stale)
    else t.(flow := Some(Flow(id, decision.DoUndo?, Connecting)))
  }

  /** The answer of the read before the write: only the expected value leads to a write. */
  function AfterRead(t: Tablet, f: Flow, a: Action, ok: bool): Tablet {
    if !ok then t.(flow := None)
    else
      var current := Get(t.device, a.setting);
      var read := Remember(t, ReadAs(f.action, f.undo, current));
      if current != Expected(a, f.undo) then SetStatus(read, f.action, Stale).(flow := None)
      else
        Remember(SetStatus(read, f.action, if f.undo then Undoing else Applying), Issued(f.action, f.undo))
          .(flow := Some(f.(stage := Writing)),
            underway := t.underway + multiset{Write(a.setting, Desired(a, f.undo))})
  }

  function Landed(t: Tablet, w: Write): Tablet {
    if w in t.underway then t.(device := Put(t.device, w.setting, w.value), underway := t.underway - multiset{w}) else t
  }

  /** A command that reports success has reached the device. */
  function AfterWrite(t: Tablet, f: Flow, a: Action, ok: bool): Tablet {
    if ok then Landed(t, Write(a.setting, Desired(a, f.undo))).(flow := Some(f.(stage := ReadingBack)))
    else SetStatus(t, f.action, Uncertain).(flow := None)
  }

  function AfterReadBack(t: Tablet, f: Flow, a: Action, ok: bool): Tablet {
    if !ok then SetStatus(t, f.action, Uncertain).(flow := None)
    else
      var actual := Get(t.device, a.setting);
      var read := Remember(t, ReadBackAs(f.action, f.undo, actual));
      SetStatus(read, f.action, if actual != Desired(a, f.undo) then Uncertain else if f.undo then Undone else Applied)
        .(flow := None)
  }

  function Recovered(actions: map<nat, Action>): map<nat, Action> {
    map id | id in actions ::
      if actions[id].status.Applying? || actions[id].status.Undoing? then actions[id].(status := Uncertain)
      else actions[id]
  }

  predicate At(t: Tablet, stage: Stage) {
    t.flow.Some? && t.flow.value.stage == stage && t.flow.value.action in t.actions
  }

  /** What the device has for the setting being decided. */
  function Asked(t: Tablet): string
    requires t.flow.Some? && t.flow.value.action in t.actions
  {
    Get(t.device, t.actions[t.flow.value.action].setting)
  }

  /** One step; a step that cannot happen leaves the tablet as it is. */
  function Next(t: Tablet, step: Step): Tablet {
    match step
    case Propose(id, setting, before, after, supported, recent) =>
      WithProposal(t, id, setting, before, after, supported, recent)
    case Decide(id, decision, expired) => Decided(t, id, decision, expired)
    case Connected(ok) =>
      if At(t, Connecting) then
        if ok then t.(flow := Some(t.flow.value.(stage := Reading))) else t.(flow := None)
      else t
    case CurrentRead(ok) =>
      if At(t, Reading) then AfterRead(t, t.flow.value, t.actions[t.flow.value.action], ok) else t
    case WriteReturned(ok) =>
      if At(t, Writing) then AfterWrite(t, t.flow.value, t.actions[t.flow.value.action], ok) else t
    case ReadBackReturned(ok) =>
      if At(t, ReadingBack) then AfterReadBack(t, t.flow.value, t.actions[t.flow.value.action], ok) else t
    case Lands(w) => Landed(t, w)
    case Outside(setting, value) => t.(device := Put(t.device, setting, value))
    case Crash => t.(flow := None, actions := Recovered(t.actions))
  }

  function Run(t: Tablet, steps: seq<Step>): Tablet
    decreases |steps|
  {
    if steps == [] then t else Run(Next(t, steps[0]), steps[1..])
  }

  function Initial(device: map<string, string>): Tablet {
    Tablet(map[], device, None, multiset{}, [])
  }
}

/** What holds of setting changes over every run. */
module TabletResults {
  import opened Common
  import opened TabletChanges

  /** What must hold for a mark to follow a trace. */
  predicate MayFollow(actions: map<nat, Action>, trace: seq<Mark>, mark: Mark) {
    match mark
    case ReadAs(_, _, _) => true
    case Issued(id, undo) =>
      && id in actions
      && Issued(id, undo) !in trace
      && trace != [] && trace[|trace| - 1] == ReadAs(id, undo, Expected(actions[id], undo))
      && (undo ==> ReadBackAs(id, false, actions[id].after) in trace)
    case ReadBackAs(id, undo, _) => Issued(id, undo) in trace
  }

  predicate Orderly(actions: map<nat, Action>, trace: seq<Mark>) {
    trace == [] ||
    (Orderly(actions, trace[..|trace| - 1]) && MayFollow(actions, trace[..|trace| - 1], trace[|trace| - 1]))
  }

  predicate IsFinal(status: Status) {
    status.Declined? || status.Stale? || status.Undone? || status.Uncertain?
  }

  /** What the status of an action says about what was exchanged for it. */
  predicate Told(id: nat, a: Action, flow: Option<Flow>, trace: seq<Mark>) {
    match a.status
    case Proposed => Issued(id, false) !in trace && Issued(id, true) !in trace
    case Declined => Issued(id, false) !in trace && Issued(id, true) !in trace
    case Stale => Issued(id, true) !in trace
    case Applying =>
      Issued(id, true) !in trace && flow.Some? && flow.value.action == id && !flow.value.undo
      && (flow.value.stage.Writing? || flow.value.stage.ReadingBack?) && Issued(id, false) in trace
    case Applied => Issued(id, true) !in trace && ReadBackAs(id, false, a.after) in trace
    case Undoing =>
      flow.Some? && flow.value.action == id && flow.value.undo
      && (flow.value.stage.Writing? || flow.value.stage.ReadingBack?) && Issued(id, true) in trace
    case Undone => ReadBackAs(id, true, a.before) in trace
    case _ => true
  }

  predicate FlowFits(flow: Option<Flow>, actions: map<nat, Action>) {
    flow.Some? ==>
      var f := flow.value;
      && f.action in actions
      && actions[f.action].status ==
           if f.stage.Connecting? || f.stage.Reading? then (if f.undo then Applied else Proposed)
           else (if f.undo then Undoing else Applying)
  }

  predicate Inv(t: Tablet) {
    && FlowFits(t.flow, t.actions)
    && (forall id | id in t.actions :: Told(id, t.actions[id], t.flow, t.trace))
    && (forall m | m in t.trace :: m.action in t.actions)
    && Orderly(t.actions, t.trace)
  }

  /** Statuses do not matter to the order of the trace. */
  predicate SameContent(a: map<nat, Action>, b: map<nat, Action>) {
    forall id | id in a ::
      id in b && a[id].setting == b[id].setting && a[id].before == b[id].before && a[id].after == b[id].after
  }

  lemma {:induction false} OrderlyAgain(a: map<nat, Action>, b: map<nat, Action>, trace: seq<Mark>)
    requires Orderly(a, trace) && SameContent(a, b)
    ensures Orderly(b, trace)
  {
    if trace != [] { OrderlyAgain(a, b, trace[..|trace| - 1]); }
  }

  lemma Append(a: map<nat, Action>, trace: seq<Mark>, mark: Mark)
    requires Orderly(a, trace) && MayFollow(a, trace, mark)
    ensures Orderly(a, trace + [mark])
    ensures forall m :: m in trace + [mark] <==> m in trace || m == mark
  {
    assert (trace + [mark])[..|trace|] == trace;
  }

  /** Actions other than the one being decided are told the same as before. */
  lemma OtherStaysTold(j: nat, a: Action, flow: Option<Flow>, trace: seq<Mark>, flow': Option<Flow>, trace': seq<Mark>)
    requires Told(j, a, flow, trace) && flow.Some? && flow.value.action != j
    requires forall m | m in trace :: m in trace'
    requires forall m | m in trace' :: m in trace || m.action != j
    ensures Told(j, a, flow', trace')
  {
    assert Issued(j, false).action == j && Issued(j, true).action == j;
  }

  /** The decision under way rewrites its own action and adds marks of its own. */
  predicate Advances(t: Tablet, u: Tablet, id: nat) {
    && t.flow.Some? && t.flow.value.action == id && id in t.actions
    && u.actions.Keys == t.actions.Keys
    && (forall j | j in t.actions && j != id :: u.actions[j] == t.actions[j])
    && u.actions[id] == t.actions[id].(status := u.actions[id].status)
    && (forall m | m in t.trace :: m in u.trace)
    && (forall m | m in u.trace :: m in t.trace || m.action == id)
  }

  lemma AdvanceKeeps(t: Tablet, u: Tablet, id: nat)
    requires Inv(t) && Advances(t, u, id)
    requires Orderly(t.actions, u.trace)
    requires Told(id, u.actions[id], u.flow, u.trace) && FlowFits(u.flow, u.actions)
    ensures Inv(u) && SameContent(t.actions, u.actions)
  {
    OrderlyAgain(t.actions, u.actions, u.trace);
    forall j | j in u.actions && j != id ensures Told(j, u.actions[j], u.flow, u.trace) {
      OtherStaysTold(j, t.actions[j], t.flow, t.trace, u.flow, u.trace);
    }
  }

  lemma MismatchKeeps(t: Tablet, ok: bool)
    requires Inv(t) && At(t, Reading)
    requires var a := t.actions[t.flow.value.action]; ok ==> Get(t.device, a.setting) != Expected(a, t.flow.value.undo)
    ensures var u := AfterRead(t, t.flow.value, t.actions[t.flow.value.action], ok);
      Inv(u) && SameContent(t.actions, u.actions)
  {
    var f := t.flow.value;
    var a := t.actions[f.action];
    if ok { Append(t.actions, t.trace, ReadAs(f.action, f.undo, Get(t.device, a.setting))); }
    AdvanceKeeps(t, AfterRead(t, f, a, ok), f.action);
  }

  /** Reading the expected value and issuing the write are in order. */
  lemma IssueIsOrderly(t: Tablet)
    requires Inv(t) && At(t, Reading)
    ensures var f := t.flow.value; var a := t.actions[f.action];
      var read := ReadAs(f.action, f.undo, Expected(a, f.undo));
      && Orderly(t.actions, t.trace + [read] + [Issued(f.action, f.undo)])
      && forall m :: m in t.trace + [read] + [Issued(f.action, f.undo)]
           <==> m in t.trace || m == read || m == Issued(f.action, f.undo)
  {
    var f := t.flow.value;
    var read := ReadAs(f.action, f.undo, Expected(t.actions[f.action], f.undo));
    assert Told(f.action, t.actions[f.action], t.flow, t.trace);
    Append(t.actions, t.trace, read);
    assert (t.trace + [read])[|t.trace|] == read;
    Append(t.actions, t.trace + [read], Issued(f.action, f.undo));
  }

  lemma MatchKeeps(t: Tablet)
    requires Inv(t) && At(t, Reading)
    requires var a := t.actions[t.flow.value.action]; Get(t.device, a.setting) == Expected(a, t.flow.value.undo)
    ensures var u := AfterRead(t, t.flow.value, t.actions[t.flow.value.action], true);
      Inv(u) && SameContent(t.actions, u.actions)
  {
    var f := t.flow.value;
    assert Told(f.action, t.actions[f.action], t.flow, t.trace);
    IssueIsOrderly(t);
    AdvanceKeeps(t, AfterRead(t, f, t.actions[f.action], true), f.action);
  }

  lemma AfterWriteKeeps(t: Tablet, ok: bool)
    requires Inv(t) && At(t, Writing)
    ensures var u := AfterWrite(t, t.flow.value, t.actions[t.flow.value.action], ok);
      Inv(u) && SameContent(t.actions, u.actions)
  {
    var f := t.flow.value;
    assert Told(f.action, t.actions[f.action], t.flow, t.trace);
    AdvanceKeeps(t, AfterWrite(t, f, t.actions[f.action], ok), f.action);
  }

  lemma FailedReadBackKeeps(t: Tablet)
    requires Inv(t) && At(t, ReadingBack)
    ensures var u := AfterReadBack(t, t.flow.value, t.actions[t.flow.value.action], false);
      Inv(u) && SameContent(t.actions, u.actions)
  {
    var f := t.flow.value;
    AdvanceKeeps(t, AfterReadBack(t, f, t.actions[f.action], false), f.action);
  }

  /** Reading back after the write is in order. */
  lemma ReadBackIsOrderly(t: Tablet)
    requires Inv(t) && At(t, ReadingBack)
    ensures var f := t.flow.value;
      var read := ReadBackAs(f.action, f.undo, Get(t.device, t.actions[f.action].setting));
      && Issued(f.action, f.undo) in t.trace
      && Orderly(t.actions, t.trace + [read]) && forall m :: m in t.trace + [read] <==> m in t.trace || m == read
  {
    var f := t.flow.value;
    assert Told(f.action, t.actions[f.action], t.flow, t.trace);
    Append(t.actions, t.trace, ReadBackAs(f.action, f.undo, Get(t.device, t.actions[f.action].setting)));
  }

  lemma ReadBackKeeps(t: Tablet)
    requires Inv(t) && At(t, ReadingBack)
    ensures var u := AfterReadBack(t, t.flow.value, t.actions[t.flow.value.action], true);
      Inv(u) && SameContent(t.actions, u.actions)
  {
    var f := t.flow.value;
    assert Told(f.action, t.actions[f.action], t.flow, t.trace);
    ReadBackIsOrderly(t);
    AdvanceKeeps(t, AfterReadBack(t, f, t.actions[f.action], true), f.action);
  }

  lemma ProposeKeeps(t: Tablet, id: nat, a: Action)
    requires Inv(t) && id !in t.actions && a.status.Proposed?
    ensures var u := t.(actions := t.actions[id := a]); Inv(u) && SameContent(t.actions, u.actions)
  {
    OrderlyAgain(t.actions, t.actions[id := a], t.trace);
  }

  lemma DecideKeeps(t: Tablet, id: nat, decision: Decision, expired: bool)
    requires Inv(t)
    ensures var u := Decided(t, id, decision, expired); Inv(u) && SameContent(t.actions, u.actions)
  {
    var u := Decided(t, id, decision, expired);
    OrderlyAgain(t.actions, u.actions, t.trace);
    forall j | j in u.actions ensures Told(j, u.actions[j], u.flow, t.trace) {
      assert Told(j, t.actions[j], t.flow, t.trace);
    }
  }

  lemma ConnectedKeeps(t: Tablet, ok: bool)
    requires Inv(t)
    ensures var u := Next(t, Connected(ok)); Inv(u) && u.actions == t.actions
  {
    if At(t, Connecting) {
      forall j | j in t.actions ensures Told(j, t.actions[j], Next(t, Connected(ok)).flow, t.trace) {
        assert Told(j, t.actions[j], t.flow, t.trace);
      }
    }
  }

  lemma CrashKeeps(t: Tablet)
    requires Inv(t)
    ensures Inv(Next(t, Crash)) && SameContent(t.actions, Recovered(t.actions))
  {
    OrderlyAgain(t.actions, Recovered(t.actions), t.trace);
    forall j | j in t.actions ensures Told(j, Recovered(t.actions)[j], None, t.trace) {
      assert Told(j, t.actions[j], t.flow, t.trace);
    }
  }

  lemma NextKeeps(t: Tablet, step: Step)
    requires Inv(t)
    ensures Inv(Next(t, step)) && SameContent(t.actions, Next(t, step).actions)
  {
    match step
    case Propose(id, setting, before, after, _, _) =>
      if id !in t.actions { ProposeKeeps(t, id, Action(setting, before, after, Proposed)); }
    case Decide(id, decision, expired) => DecideKeeps(t, id, decision, expired);
    case Connected(ok) => ConnectedKeeps(t, ok);
    case CurrentRead(ok) =>
      if At(t, Reading) {
        var a := t.actions[t.flow.value.action];
        if ok && Get(t.device, a.setting) == Expected(a, t.flow.value.undo) { MatchKeeps(t); }
        else { MismatchKeeps(t, ok); }
      }
    case WriteReturned(ok) => if At(t, Writing) { AfterWriteKeeps(t, ok); }
    case ReadBackReturned(ok) =>
      if At(t, ReadingBack) { if ok { ReadBackKeeps(t); } else { FailedReadBackKeeps(t); } }
    case Crash => CrashKeeps(t);
    case _ =>
  }

  /** No step rewrites an action whose status is final. */
  lemma FinalIsKept(t: Tablet, step: Step, id: nat)
    requires Inv(t) && id in t.actions && IsFinal(t.actions[id].status)
    ensures id in Next(t, step).actions && Next(t, step).actions[id] == t.actions[id]
  {
    if step.CurrentRead? || step.WriteReturned? || step.ReadBackReturned? {
      if t.flow.Some? && t.flow.value.action in t.actions { NotDeciding(t, id); }
    }
  }

  lemma NotDeciding(t: Tablet, id: nat)
    requires Inv(t) && id in t.actions && IsFinal(t.actions[id].status) && t.flow.Some?
    ensures t.flow.value.action != id
  {
  }

  lemma {:induction false} RunKeeps(t: Tablet, steps: seq<Step>)
    requires Inv(t)
    ensures Inv(Run(t, steps)) && SameContent(t.actions, Run(t, steps).actions)
    decreases |steps|
  {
    if steps != [] {
      NextKeeps(t, steps[0]);
      RunKeeps(Next(t, steps[0]), steps[1..]);
    }
  }

  lemma {:induction false} OrderlyAt(actions: map<nat, Action>, trace: seq<Mark>, i: nat)
    requires Orderly(actions, trace) && i < |trace|
    ensures MayFollow(actions, trace[..i], trace[i])
  {
    if i < |trace| - 1 {
      OrderlyAt(actions, trace[..|trace| - 1], i);
      assert trace[..|trace| - 1][..i] == trace[..i];
    }
  }

  /** Over all runs, crashes included, an action issues at most one device write
      in each direction, and only right after the device read back the value the
      change was reviewed against. */
  lemma OneGuardedWrite(device: map<string, string>, steps: seq<Step>, i: nat)
    requires var t := Run(Initial(device), steps); i < |t.trace| && t.trace[i].Issued?
    ensures var t := Run(Initial(device), steps); var m := t.trace[i];
      && m.action in t.actions
      && var a := t.actions[m.action];
      && i > 0 && t.trace[i - 1] == ReadAs(m.action, m.undo, if m.undo then a.after else a.before)
      && (forall j :: 0 <= j < |t.trace| && j != i ==> t.trace[j] != m)
      && (m.undo ==> exists j :: 0 <= j < i && t.trace[j] == ReadBackAs(m.action, false, a.after))
  {
    RunKeeps(Initial(device), steps);
    var t := Run(Initial(device), steps);
    OrderlyAt(t.actions, t.trace, i);
    assert t.trace[..i][i - 1] == t.trace[i - 1];
    forall j | 0 <= j < |t.trace| && j != i ensures t.trace[j] != t.trace[i] {
      if j < i { assert t.trace[..i][j] == t.trace[j]; }
      else { LaterDiffers(t.actions, t.trace, i, j); }
    }
    if t.trace[i].undo {
      var m := t.trace[i];
      var j :| 0 <= j < |t.trace[..i]| && t.trace[..i][j] == ReadBackAs(m.action, false, t.actions[m.action].after);
    }
  }

  lemma LaterDiffers(actions: map<nat, Action>, trace: seq<Mark>, i: nat, j: nat)
    requires Orderly(actions, trace) && i < j < |trace| && trace[i].Issued?
    ensures trace[j] != trace[i]
  {
    assert trace[..j][i] == trace[i];
    OrderlyAt(actions, trace, j);
  }

  /** `applied` and `undone` are recorded only after the device read back as wanted, after the write. */
  lemma RecordedAfterReadBack(device: map<string, string>, steps: seq<Step>, id: nat)
    requires var t := Run(Initial(device), steps);
      id in t.actions && (t.actions[id].status.Applied? || t.actions[id].status.Undone?)
    ensures var t := Run(Initial(device), steps);
      var a := t.actions[id]; var undo := a.status.Undone?;
      exists i, j :: 0 <= i < j < |t.trace|
        && t.trace[i] == Issued(id, undo) && t.trace[j] == ReadBackAs(id, undo, if undo then a.before else a.after)
  {
    RunKeeps(Initial(device), steps);
    var t := Run(Initial(device), steps);
    var a := t.actions[id];
    var undo := a.status.Undone?;
    assert Told(id, a, t.flow, t.trace);
    var j :| 0 <= j < |t.trace| && t.trace[j] == ReadBackAs(id, undo, if undo then a.before else a.after);
    OrderlyAt(t.actions, t.trace, j);
    var i :| 0 <= i < |t.trace[..j]| && t.trace[..j][i] == Issued(id, undo);
    assert t.trace[i] == Issued(id, undo);
  }

  /** Declined, stale, undone and uncertain are final. */
  lemma {:induction false} FinalStaysFinal(t: Tablet, steps: seq<Step>, id: nat)
    requires Inv(t) && id in t.actions && IsFinal(t.actions[id].status)
    ensures id in Run(t, steps).actions && Run(t, steps).actions[id] == t.actions[id]
    decreases |steps|
  {
    if steps != [] {
      NextKeeps(t, steps[0]);
      FinalIsKept(t, steps[0], id);
      FinalStaysFinal(Next(t, steps[0]), steps[1..], id);
    }
  }

  /** After a crash nothing is left half done: every change under way is uncertain. */
  lemma CrashLeavesNothingUnderWay(t: Tablet)
    requires Inv(t)
    ensures var u := Next(t, Crash);
      && Inv(u) && u.flow.None?
      && forall id | id in u.actions :: !u.actions[id].status.Applying? && !u.actions[id].status.Undoing?
  {
    NextKeeps(t, Crash);
  }

  // -------------------------------------------------------------- undo in reverse

  function Clean(id: nat, undo: bool): seq<Step> {
    [Decide(id, if undo then DoUndo else DoApply, false),
     Connected(true), CurrentRead(true), WriteReturned(true), ReadBackReturned(true)]
  }

  lemma {:induction false} RunConcat(t: Tablet, first: seq<Step>, second: seq<Step>)
    ensures Run(t, first + second) == Run(Run(t, first), second)
    decreases |first|
  {
    if first == [] {
      assert first + second == second;
    } else {
      assert (first + second)[1..] == first[1..] + second;
      RunConcat(Next(t, first[0]), first[1..], second);
    }
  }

  predicate Ready(t: Tablet, id: nat, undo: bool) {
    && t.flow.None? && t.underway == multiset{}
    && id in t.actions && t.actions[id].status == (if undo then Applied else Proposed)
    && var a := t.actions[id]; Get(t.device, a.setting) == if undo then a.after else a.before
  }

  /** A decision that nothing disturbs: the setting has the wanted value, no other
      setting and no other action changed. */
  lemma CleanChange(t: Tablet, id: nat, undo: bool)
    requires Ready(t, id, undo)
    ensures var u := Run(t, Clean(id, undo)); var a := t.actions[id];
      && u.flow.None? && u.underway == multiset{}
      && u.actions == t.actions[id := a.(status := if undo then Undone else Applied)]
      && Get(u.device, a.setting) == (if undo then a.before else a.after)
      && forall s :: s != a.setting ==> Get(u.device, s) == Get(t.device, s)
  {
    var a := t.actions[id];
    var t2 := t.(flow := Some(Flow(id, undo, Reading)));
    CleanRead(t2, id, undo, a);
    var t3 := Next(t2, CurrentRead(true));
    CleanWrite(t3, id, undo, a);
    var t4 := Next(t3, WriteReturned(true));
    CleanReadBack(t4, id, undo, a);
    CleanSteps(t, id, undo, t2, t3, t4);
  }

  lemma CleanRead(t: Tablet, id: nat, undo: bool, a: Action)
    requires id in t.actions && t.actions[id] == a
    requires t.flow == Some(Flow(id, undo, Reading)) && t.underway == multiset{}
    requires Get(t.device, a.setting) == Expected(a, undo)
    ensures var u := Next(t, CurrentRead(true));
      && u.flow == Some(Flow(id, undo, Writing)) && u.device == t.device
      && u.underway == multiset{Write(a.setting, Desired(a, undo))}
      && u.actions == t.actions[id := a.(status := if undo then Undoing else Applying)]
  {
  }

  lemma CleanWrite(t: Tablet, id: nat, undo: bool, a: Action)
    requires id in t.actions && t.actions[id].(status := a.status) == a && t.flow == Some(Flow(id, undo, Writing))
    requires t.underway == multiset{Write(a.setting, Desired(a, undo))}
    ensures var u := Next(t, WriteReturned(true));
      && u.flow == Some(Flow(id, undo, ReadingBack)) && u.actions == t.actions && u.underway == multiset{}
      && u.device == Put(t.device, a.setting, Desired(a, undo))
  {
  }

  lemma CleanReadBack(t: Tablet, id: nat, undo: bool, a: Action)
    requires id in t.actions && t.actions[id].(status := a.status) == a && t.flow == Some(Flow(id, undo, ReadingBack))
    requires Get(t.device, a.setting) == Desired(a, undo)
    ensures var u := Next(t, ReadBackReturned(true));
      && u.flow.None? && u.device == t.device && u.underway == t.underway
      && u.actions == t.actions[id := a.(status := if undo then Undone else Applied)]
  {
  }

  lemma CleanSteps(t: Tablet, id: nat, undo: bool, t2: Tablet, t3: Tablet, t4: Tablet)
    requires Ready(t, id, undo)
    requires t2 == t.(flow := Some(Flow(id, undo, Reading)))
    requires t3 == Next(t2, CurrentRead(true)) && t4 == Next(t3, WriteReturned(true))
    ensures Run(t, Clean(id, undo)) == Next(t4, ReadBackReturned(true))
  {
    var steps := Clean(id, undo);
    assert Next(Next(t, steps[0]), steps[1]) == t2;
    RunFive(t, steps);
  }

  lemma RunFive(t: Tablet, steps: seq<Step>)
    requires |steps| == 5
    ensures Run(t, steps) == Next(Next(Next(Next(Next(t, steps[0]), steps[1]), steps[2]), steps[3]), steps[4])
  {
    var one, two, three, four := steps[1..], steps[2..], steps[3..], steps[4..];
    assert one[1..] == two && two[1..] == three && three[1..] == four && four[1..] == [];
    var t4 := Next(Next(Next(Next(t, steps[0]), steps[1]), steps[2]), steps[3]);
    assert Run(t4, four) == Run(Next(t4, steps[4]), []);
    assert Run(Next(Next(t, steps[0]), steps[1]), two) == Run(Next(Next(Next(t, steps[0]), steps[1]), steps[2]), three);
  }

  /** Each change was reviewed against what the ones before it left. */
  predicate Chain(t: Tablet, ids: seq<nat>)
    decreases |ids|
  {
    ids == [] || (Ready(t, ids[0], false) && Chain(Run(t, Clean(ids[0], false)), ids[1..]))
  }

  /** Apply all in order, then undo all in reverse. */
  function ThereAndBack(ids: seq<nat>): seq<Step> {
    if ids == [] then [] else Clean(ids[0], false) + (ThereAndBack(ids[1..]) + Clean(ids[0], true))
  }

  /** With no outside change, applying any reviewed changes and undoing them in
      reverse order restores every setting's initial value. */
  lemma {:induction false} UndoingInReverseRestores(t: Tablet, ids: seq<nat>)
    requires Chain(t, ids) && Distinct(ids) && t.flow.None? && t.underway == multiset{}
    ensures var u := Run(t, ThereAndBack(ids));
      && u.flow.None? && u.underway == multiset{}
      && (forall s :: Get(u.device, s) == Get(t.device, s))
      && u.actions.Keys == t.actions.Keys
      && forall id | id in t.actions ::
           u.actions[id] == if id in ids then t.actions[id].(status := Undone) else t.actions[id]
    decreases |ids|
  {
    if ids != [] {
      var id, rest := ids[0], ids[1..];
      var t1 := Run(t, Clean(id, false));
      CleanChange(t, id, false);
      assert Distinct(rest) by {
        assert forall i :: 0 <= i < |rest| ==> rest[i] == ids[i + 1];
      }
      UndoingInReverseRestores(t1, rest);
      var t2 := Run(t1, ThereAndBack(rest));
      assert id !in rest;
      assert t2.actions[id] == t1.actions[id];
      CleanChange(t2, id, true);
      RunConcat(t, Clean(id, false), ThereAndBack(rest) + Clean(id, true));
      RunConcat(t1, ThereAndBack(rest), Clean(id, true));
    }
  }
}
