/** Undoing in any order: with no outside change and no write lost, a setting whose
    changes have all been written back has its first value again. The writes of a
    setting form a walk over its values, and a walk that goes over each of its edges
    once forth and once back ends where it began. */
module TabletUndo {
  import opened TabletChanges
  import opened TabletResults

  type Actions = map<nat, Action>

  predicate Writes(actions: Actions, m: Mark, s: string) {
    m.Issued? && m.action in actions && actions[m.action].setting == s
  }

  /** Where the writes of a setting lead from its first value. */
  function Moved(actions: Actions, trace: seq<Mark>, s: string, first: string): string {
    if trace == [] then first
    else
      var m := trace[|trace| - 1];
      if Writes(actions, m, s) then Desired(actions[m.action], m.undo)
      else Moved(actions, trace[..|trace| - 1], s, first)
  }

  /** Every write of a setting was issued where the ones before it had led. */
  predicate Walks(actions: Actions, trace: seq<Mark>, s: string, first: string) {
    trace == [] ||
    var init, m := trace[..|trace| - 1], trace[|trace| - 1];
    && Walks(actions, init, s, first)
    && (Writes(actions, m, s) ==> Expected(actions[m.action], m.undo) == Moved(actions, init, s, first))
  }

  function Count(value: string, v: string): int {
    if value == v then 1 else 0
  }

  /** How much more often the writes of a setting left a value than came to it. */
  function Net(actions: Actions, trace: seq<Mark>, s: string, v: string): int {
    if trace == [] then 0
    else
      var m := trace[|trace| - 1];
      Net(actions, trace[..|trace| - 1], s, v) +
      if Writes(actions, m, s)
      then Count(Expected(actions[m.action], m.undo), v) - Count(Desired(actions[m.action], m.undo), v) else 0
  }

  lemma {:induction false} WalkNet(actions: Actions, trace: seq<Mark>, s: string, first: string, v: string)
    requires Walks(actions, trace, s, first)
    ensures Net(actions, trace, s, v) == Count(first, v) - Count(Moved(actions, trace, s, first), v)
  {
    if trace != [] { WalkNet(actions, trace[..|trace| - 1], s, first, v); }
  }

  // ------------------------------------------------------- what is not undone yet

  /** The actions whose change was written and not written back. */
  function Standing(trace: seq<Mark>): set<nat> {
    set m | m in trace && m.Issued? && !m.undo && Issued(m.action, true) !in trace :: m.action
  }

  function Edge(actions: Actions, id: nat, s: string, v: string): int {
    if id in actions && actions[id].setting == s then Count(actions[id].before, v) - Count(actions[id].after, v) else 0
  }

  ghost function Edges(actions: Actions, ids: set<nat>, s: string, v: string): int
    decreases |ids|
  {
    if ids == {} then 0
    else var id :| id in ids; Edge(actions, id, s, v) + Edges(actions, ids - {id}, s, v)
  }

  lemma {:induction false} EdgesAdd(actions: Actions, ids: set<nat>, id: nat, s: string, v: string)
    requires id !in ids
    ensures Edges(actions, ids + {id}, s, v) == Edges(actions, ids, s, v) + Edge(actions, id, s, v)
    decreases |ids|
  {
    var all := ids + {id};
    var some :| && some in all
      && Edges(actions, all, s, v) == Edge(actions, some, s, v) + Edges(actions, all - {some}, s, v);
    if some == id {
      assert all - {id} == ids;
    } else {
      assert all - {some} == (ids - {some}) + {id};
      EdgesAdd(actions, ids - {some}, id, s, v);
      EdgesAdd(actions, ids - {some}, some, s, v);
      assert (ids - {some}) + {some} == ids;
    }
  }

  lemma StandingNext(actions: Actions, trace: seq<Mark>, m: Mark)
    requires Orderly(actions, trace) && MayFollow(actions, trace, m)
    ensures Standing(trace + [m]) ==
      if !m.Issued? then Standing(trace)
      else if m.undo then Standing(trace) - {m.action}
      else Standing(trace) + {m.action}
    ensures m.Issued? ==> (m.undo <==> m.action in Standing(trace))
  {
    if m.Issued? && m.undo {
      AppliedFirst(actions, trace, m.action);
      assert Issued(m.action, false) in trace;
    } else if m.Issued? {
      if Issued(m.action, true) in trace { UndoneAfterApplied(actions, trace, m.action); }
    }
    forall id ensures id in Standing(trace + [m]) <==>
      id in (if !m.Issued? then Standing(trace)
             else if m.undo then Standing(trace) - {m.action}
             else Standing(trace) + {m.action})
    {
      StandingMeans(trace, id);
      StandingMeans(trace + [m], id);
    }
  }

  lemma StandingMeans(trace: seq<Mark>, id: nat)
    ensures id in Standing(trace) <==> Issued(id, false) in trace && Issued(id, true) !in trace
  {
    if Issued(id, false) in trace && Issued(id, true) !in trace {
      var m := Issued(id, false);
      assert m in trace && m.Issued? && !m.undo;
    }
  }

  /** A read-back comes after its write. */
  lemma AppliedFirst(actions: Actions, trace: seq<Mark>, id: nat)
    requires Orderly(actions, trace) && id in actions && ReadBackAs(id, false, actions[id].after) in trace
    ensures Issued(id, false) in trace
  {
    var j :| 0 <= j < |trace| && trace[j] == ReadBackAs(id, false, actions[id].after);
    OrderlyAt(actions, trace, j);
    assert Issued(id, false) in trace[..j];
  }

  lemma UndoneAfterApplied(actions: Actions, trace: seq<Mark>, id: nat)
    requires Orderly(actions, trace) && Issued(id, true) in trace
    ensures Issued(id, false) in trace
  {
    var i :| 0 <= i < |trace| && trace[i] == Issued(id, true);
    OrderlyAt(actions, trace, i);
    var m :| m in trace[..i] && m == ReadBackAs(id, false, actions[id].after);
    assert m in trace;
    AppliedFirst(actions, trace, id);
  }

  /** The net flow of a setting is that of the changes still standing. */
  lemma {:induction false} NetIsStanding(actions: Actions, trace: seq<Mark>, s: string, v: string)
    requires Orderly(actions, trace)
    ensures Net(actions, trace, s, v) == Edges(actions, Standing(trace), s, v)
  {
    if trace == [] {
      assert Standing(trace) == {};
    } else {
      var init, m := trace[..|trace| - 1], trace[|trace| - 1];
      assert trace == init + [m];
      NetIsStanding(actions, init, s, v);
      StandingNext(actions, init, m);
      if m.Issued? {
        if m.undo {
          EdgesAdd(actions, Standing(init) - {m.action}, m.action, s, v);
          assert Standing(init) - {m.action} + {m.action} == Standing(init);
        } else {
          EdgesAdd(actions, Standing(init), m.action, s, v);
        }
      }
    }
  }

  lemma WalkReturns(actions: Actions, trace: seq<Mark>, s: string, first: string)
    requires Orderly(actions, trace) && Walks(actions, trace, s, first)
    requires forall id | id in Standing(trace) && id in actions :: actions[id].setting != s
    ensures Moved(actions, trace, s, first) == first
  {
    WalkNet(actions, trace, s, first, first);
    NetIsStanding(actions, trace, s, first);
    NoEdges(actions, Standing(trace), s, first);
  }

  lemma {:induction false} NoEdges(actions: Actions, ids: set<nat>, s: string, v: string)
    requires forall id | id in ids && id in actions :: actions[id].setting != s
    ensures Edges(actions, ids, s, v) == 0
    decreases |ids|
  {
    if ids == {} {
      var none: set<nat> := {};
      assert ids == none && Edges(actions, none, s, v) == 0;
    } else {
      var id :| id in ids;
      NoEdges(actions, ids - {id}, s, v);
      EdgesAdd(actions, ids - {id}, id, s, v);
      assert ids - {id} + {id} == ids;
      if id in actions { assert actions[id].setting != s; }
    }
  }

  // ------------------------------------------------------------------------- runs

  /** No outside change, and no write of which it is unknown whether it arrived. */
  predicate Undisturbed(t: Tablet, step: Step) {
    !step.Outside? && step != WriteReturned(false) && (step.Crash? ==> !At(t, Writing))
  }

  predicate UndisturbedRun(t: Tablet, steps: seq<Step>)
    decreases |steps|
  {
    steps == [] || (Undisturbed(t, steps[0]) && UndisturbedRun(Next(t, steps[0]), steps[1..]))
  }

  /** The write on its way, if it has not arrived. */
  function OnItsWay(t: Tablet): multiset<Write> {
    if At(t, Writing) then
      var a := t.actions[t.flow.value.action];
      multiset{Write(a.setting, Desired(a, t.flow.value.undo))}
    else multiset{}
  }

  /** The device is where the writes have led it, but for the one on its way. */
  ghost predicate Follows(t: Tablet, s: string, first: string) {
    && Walks(t.actions, t.trace, s, first)
    && (t.underway == multiset{} ==> Get(t.device, s) == Moved(t.actions, t.trace, s, first))
    && (t.underway != multiset{} && At(t, Writing) ==>
          var f := t.flow.value; var a := t.actions[f.action];
          Get(t.device, s) == if a.setting == s then Expected(a, f.undo) else Moved(t.actions, t.trace, s, first))
    && (At(t, Writing) ==>
          var f := t.flow.value; var a := t.actions[f.action];
          a.setting == s ==> Moved(t.actions, t.trace, s, first) == Desired(a, f.undo))
  }

  predicate Tracked(t: Tablet) {
    t.underway == multiset{} || t.underway == OnItsWay(t)
  }

  lemma {:induction false} SameWalk(a: Actions, b: Actions, trace: seq<Mark>, s: string, first: string)
    requires SameContent(a, b) && forall m | m in trace :: m.action in a
    ensures Moved(a, trace, s, first) == Moved(b, trace, s, first)
    ensures Walks(a, trace, s, first) <==> Walks(b, trace, s, first)
  {
    if trace != [] {
      assert trace[|trace| - 1] in trace;
      SameWalk(a, b, trace[..|trace| - 1], s, first);
    }
  }

  lemma WalkNext(actions: Actions, trace: seq<Mark>, m: Mark, s: string, first: string)
    requires Walks(actions, trace, s, first)
    requires Writes(actions, m, s) ==> Expected(actions[m.action], m.undo) == Moved(actions, trace, s, first)
    ensures Walks(actions, trace + [m], s, first)
    ensures Moved(actions, trace + [m], s, first) ==
      if Writes(actions, m, s) then Desired(actions[m.action], m.undo) else Moved(actions, trace, s, first)
  {
    assert (trace + [m])[..|trace|] == trace;
  }

  lemma ReadFollows(t: Tablet, ok: bool, s: string, first: string)
    requires Inv(t) && At(t, Reading) && Tracked(t) && Follows(t, s, first)
    ensures Follows(Next(t, CurrentRead(ok)), s, first)
  {
    var f := t.flow.value;
    var a := t.actions[f.action];
    var u := Next(t, CurrentRead(ok));
    if ok {
      var read := ReadAs(f.action, f.undo, Get(t.device, a.setting));
      WalkNext(t.actions, t.trace, read, s, first);
      if Get(t.device, a.setting) == Expected(a, f.undo) {
        WalkNext(t.actions, t.trace + [read], Issued(f.action, f.undo), s, first);
      }
      NextKeeps(t, CurrentRead(ok));
      KnownAfter(t, CurrentRead(ok));
      SameWalk(t.actions, u.actions, u.trace, s, first);
    }
  }

  /** Every mark is of an action that was there before the step. */
  lemma KnownAfter(t: Tablet, step: Step)
    requires Inv(t)
    ensures forall m | m in Next(t, step).trace :: m.action in t.actions
  {
  }

  lemma ReadBackFollows(t: Tablet, ok: bool, s: string, first: string)
    requires Inv(t) && At(t, ReadingBack) && Tracked(t) && Follows(t, s, first)
    ensures Follows(Next(t, ReadBackReturned(ok)), s, first)
  {
    var f := t.flow.value;
    var u := Next(t, ReadBackReturned(ok));
    if ok {
      WalkNext(t.actions, t.trace, ReadBackAs(f.action, f.undo, Get(t.device, t.actions[f.action].setting)), s, first);
    }
    NextKeeps(t, ReadBackReturned(ok));
    KnownAfter(t, ReadBackReturned(ok));
    SameWalk(t.actions, u.actions, u.trace, s, first);
  }

  /** The other steps leave the trace as it is. */
  lemma QuietFollows(t: Tablet, step: Step, s: string, first: string)
    requires Inv(t) && Tracked(t) && Follows(t, s, first) && Undisturbed(t, step)
    requires !step.CurrentRead? && !step.ReadBackReturned? && !step.WriteReturned? && !step.Lands?
    ensures Follows(Next(t, step), s, first)
  {
    var u := Next(t, step);
    NextKeeps(t, step);
    KnownAfter(t, step);
    SameWalk(t.actions, u.actions, t.trace, s, first);
  }

  lemma LandsFollows(t: Tablet, w: Write, s: string, first: string)
    requires Inv(t) && Tracked(t) && Follows(t, s, first)
    ensures Follows(Landed(t, w), s, first)
  {
    if w in t.underway {
      assert t.underway == OnItsWay(t) == multiset{w};
      assert Landed(t, w).underway == multiset{};
    }
  }

  lemma WrittenFollows(t: Tablet, s: string, first: string)
    requires Inv(t) && At(t, Writing) && Tracked(t) && Follows(t, s, first)
    ensures Follows(Next(t, WriteReturned(true)), s, first)
  {
    var a := t.actions[t.flow.value.action];
    LandsFollows(t, Write(a.setting, Desired(a, t.flow.value.undo)), s, first);
  }

  lemma ReadTracked(t: Tablet, ok: bool)
    requires At(t, Reading) && Tracked(t)
    ensures Tracked(Next(t, CurrentRead(ok)))
  {
  }

  lemma WrittenTracked(t: Tablet)
    requires At(t, Writing) && Tracked(t)
    ensures Tracked(Next(t, WriteReturned(true)))
  {
    var a := t.actions[t.flow.value.action];
    LandedTracked(t, Write(a.setting, Desired(a, t.flow.value.undo)));
  }

  lemma LandedTracked(t: Tablet, w: Write)
    requires Tracked(t)
    ensures Tracked(Landed(t, w)) && (w in OnItsWay(t) ==> Landed(t, w).underway == multiset{})
  {
  }

  lemma StayTracked(t: Tablet, step: Step)
    requires Inv(t) && Tracked(t) && Undisturbed(t, step)
    requires !step.CurrentRead? && !step.WriteReturned? && !step.Lands?
    ensures Tracked(Next(t, step))
  {
    NextKeeps(t, step);
  }

  lemma StepTracked(t: Tablet, step: Step)
    requires Inv(t) && Tracked(t) && Undisturbed(t, step)
    ensures Tracked(Next(t, step))
  {
    match step
    case CurrentRead(ok) => if At(t, Reading) { ReadTracked(t, ok); }
    case WriteReturned(_) => if At(t, Writing) { WrittenTracked(t); }
    case Lands(w) => LandedTracked(t, w);
    case _ => StayTracked(t, step);
  }

  lemma StepFollows(t: Tablet, step: Step, s: string, first: string)
    requires Inv(t) && Tracked(t) && Follows(t, s, first) && Undisturbed(t, step)
    ensures Follows(Next(t, step), s, first)
  {
    match step
    case CurrentRead(ok) => if At(t, Reading) { ReadFollows(t, ok, s, first); }
    case ReadBackReturned(ok) => if At(t, ReadingBack) { ReadBackFollows(t, ok, s, first); }
    case WriteReturned(_) => if At(t, Writing) { WrittenFollows(t, s, first); }
    case Lands(w) => LandsFollows(t, w, s, first);
    case _ => QuietFollows(t, step, s, first);
  }

  lemma {:induction false} RunFollows(t: Tablet, steps: seq<Step>, s: string, first: string)
    requires Inv(t) && Tracked(t) && Follows(t, s, first) && UndisturbedRun(t, steps)
    ensures var u := Run(t, steps); Inv(u) && Tracked(u) && Follows(u, s, first)
    decreases |steps|
  {
    if steps != [] {
      NextKeeps(t, steps[0]);
      StepTracked(t, steps[0]);
      StepFollows(t, steps[0], s, first);
      RunFollows(Next(t, steps[0]), steps[1..], s, first);
    }
  }

  /** With no outside change and no write lost, in whatever order changes were
      proposed, applied, declined, found stale and undone: once every change of a
      setting that was written has been written back, and nothing is on its way, the
      setting has its first value again. */
  lemma UndoingAllRestores(device: map<string, string>, steps: seq<Step>, s: string)
    requires UndisturbedRun(Initial(device), steps)
    requires var t := Run(Initial(device), steps);
      && t.underway == multiset{}
      && forall id | id in t.actions && t.actions[id].setting == s ::
           Issued(id, false) in t.trace ==> Issued(id, true) in t.trace
    ensures Get(Run(Initial(device), steps).device, s) == Get(device, s)
  {
    var first := Get(device, s);
    RunFollows(Initial(device), steps, s, first);
    var t := Run(Initial(device), steps);
    forall id | id in Standing(t.trace) && id in t.actions ensures t.actions[id].setting != s {
      StandingMeans(t.trace, id);
    }
    WalkReturns(t.actions, t.trace, s, first);
  }

  /** At any other time its value is that of the last write. */
  lemma DeviceFollowsWrites(device: map<string, string>, steps: seq<Step>, s: string)
    requires UndisturbedRun(Initial(device), steps) && Run(Initial(device), steps).underway == multiset{}
    ensures var t := Run(Initial(device), steps);
      Get(t.device, s) == Moved(t.actions, t.trace, s, Get(device, s))
  {
    RunFollows(Initial(device), steps, s, Get(device, s));
  }
}
