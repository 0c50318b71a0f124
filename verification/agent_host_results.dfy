/** What the host keeps over every run, restarts included. */
module AgentHostResults {
  import opened Common
  import opened ChatFold
  import opened AgentHost

  /** The worker alive after a trace, from its creation until its release. */
  function Alive(trace: seq<Mark>): Option<nat> {
    if trace == [] then None
    else match trace[|trace| - 1]
      case Created(w) => Some(w)
      case Released(_) => None
      case Restarted => None
      case _ => Alive(trace[..|trace| - 1])
  }

  /** What must hold for a mark to follow a trace. */
  predicate MayFollow(trace: seq<Mark>, mark: Mark) {
    match mark
    case Created(w) => Alive(trace) == None && Created(w) !in trace
    case Sent(s) => Sent(s) !in trace
    case Acknowledged(s) => Sent(s) in trace
    case Recorded(w) => Alive(trace) == Some(w) && Finished(w) !in trace
    case Finished(w) => Alive(trace) == Some(w) && Finished(w) !in trace
    case Stopped(w) => Alive(trace) == Some(w) && Finished(w) in trace
    case Released(w) => Alive(trace) == Some(w) && Stopped(w) in trace
    case Restarted => true
  }

  predicate Orderly(trace: seq<Mark>) {
    trace == [] || (Orderly(trace[..|trace| - 1]) && MayFollow(trace[..|trace| - 1], trace[|trace| - 1]))
  }

  ghost predicate Consistent(
      submissions: map<string, Submission>, active: Option<Worker>, created: nat, trace: seq<Mark>)
  {
    && Orderly(trace)
    && (forall w: nat :: Created(w) in trace ==> w < created)
    && (forall w: nat :: Finished(w) in trace ==> w < created)
    && (forall s :: Sent(s) in trace ==> s in submissions)
    && (forall s :: s in submissions && submissions[s].state.Accepted? ==> Acknowledged(s) in trace)
    && Alive(trace) == (if active.Some? then Some(active.value.id) else None)
    && (active.Some? ==> WorkerConsistent(submissions, active.value, created, trace))
  }

  predicate WorkerConsistent(submissions: map<string, Submission>, a: Worker, created: nat, trace: seq<Mark>) {
    && a.id < created
    && (a.finished <==> Finished(a.id) in trace)
    && (a.finished <==> !a.closing.Open?)
    && (a.closing.Releasing? ==> Stopped(a.id) in trace)
    && (a.exited ==> a.finished && a.stage.Settled? && a.steers == {})
    && a.first in submissions
    && (a.stage.Initializing? || a.stage.Threading? ==> Sent(a.first) !in trace)
    && (a.stage.Turning? ==> Sent(a.first) in trace)
    && (forall s | s in a.steers :: s in submissions && Sent(s) in trace)
  }

  ghost predicate Inv(h: Host) {
    Consistent(h.submissions, h.active, h.created, h.trace)
  }

  lemma Append(trace: seq<Mark>, mark: Mark)
    requires Orderly(trace) && MayFollow(trace, mark)
    ensures Orderly(trace + [mark])
    ensures forall m :: m in trace + [mark] <==> m in trace || m == mark
    ensures Alive(trace + [mark]) ==
      match mark
      case Created(w) => Some(w)
      case Released(_) => None
      case Restarted => None
      case _ => Alive(trace)
  {
    assert (trace + [mark])[..|trace|] == trace;
  }

  type Submissions = map<string, Submission>

  lemma FinishMarks(subs: Submissions, a: Worker, created: nat, trace: seq<Mark>)
    requires Consistent(subs, Some(a), created, trace) && !a.finished
    ensures Consistent(subs, Some(a.(finished := true, closing := Killing)), created, trace + [Finished(a.id)])
  {
    Append(trace, Finished(a.id));
  }

  lemma CreateMarks(subs: Submissions, created: nat, trace: seq<Mark>, c: string, s: string, input: string)
    requires Consistent(subs, None, created, trace) && s !in subs
    ensures Consistent(
      subs[s := Submission(c, input, Pending)],
      Some(Worker(created, c, s, Initializing, {}, {}, [], false, Open, false)),
      created + 1, trace + [Created(created)])
  {
    Append(trace, Created(created));
  }

  lemma SteerMarks(subs: Submissions, a: Worker, created: nat, trace: seq<Mark>, c: string, s: string, input: string)
    requires Consistent(subs, Some(a), created, trace) && s !in subs && !a.finished
    ensures Consistent(
      subs[s := Submission(c, input, Pending)], Some(a.(steers := a.steers + {s})), created, trace + [Sent(s)])
  {
    Append(trace, Sent(s));
  }

  lemma StartMarks(subs: Submissions, a: Worker, created: nat, trace: seq<Mark>)
    requires Consistent(subs, Some(a), created, trace) && a.stage.Threading? && !a.exited
    ensures Consistent(subs, Some(a.(stage := Turning)), created, trace + [Sent(a.first)])
  {
    Append(trace, Sent(a.first));
  }

  lemma AcceptMarks(subs: Submissions, a: Worker, b: Worker, created: nat, trace: seq<Mark>, s: string)
    requires Consistent(subs, Some(a), created, trace) && s in subs && Sent(s) in trace
    requires b == a.(stage := Settled) || b == a.(steers := a.steers - {s})
    ensures Consistent(subs[s := subs[s].(state := Accepted)], Some(b), created, trace + [Acknowledged(s)])
  {
    Append(trace, Acknowledged(s));
  }

  lemma {:induction false} ResolveAllFrame(h: Host, c: string, qs: seq<Question>)
    ensures var r := ResolveAll(h, c, qs);
      r.conversations == h.conversations && r.submissions == h.submissions && r.active == h.active
      && r.created == h.created && r.trace == h.trace
    decreases |qs|
  {
    if qs != [] { ResolveAllFrame(Say(h, c, Resolved(qs[0].id)), c, qs[1..]); }
  }

  lemma FinishKeeps(h: Host, c: string, status: string)
    requires Inv(h)
    ensures var r := Finish(h, c, status);
      && Inv(r) && r.submissions == h.submissions && r.created == h.created
      && (h.active.None? <==> r.active.None?)
      && (h.active.Some? && h.active.value.conversation == c ==>
            var a := h.active.value;
            r.active.value == a.(finished := true, closing := if a.finished then a.closing else Killing))
      && (h.active.Some? && h.active.value.conversation != c ==> r == h)
  {
    if h.active.Some? && h.active.value.conversation == c && !h.active.value.finished {
      var a := h.active.value;
      var ended := MarkThat(SetTurn(SetStatus(h, c, status), c, None), Finished(a.id))
        .(active := Some(a.(finished := true, closing := Killing)));
      ResolveAllFrame(Say(ended, c, Status(status)), c, a.approvals);
      FinishMarks(h.submissions, a, h.created, h.trace);
    }
  }

  lemma SubmittedKeeps(h: Host, c: string, s: string, input: string, text: string, standard: bool)
    requires Inv(h)
    ensures Inv(Submitted(h, c, s, input, text, standard))
  {
    if c in h.conversations && s !in h.submissions && !Refuses(h, c, standard) {
      if h.active.Some? { SteerMarks(h.submissions, h.active.value, h.created, h.trace, c, s, input); }
      else { CreateMarks(h.submissions, h.created, h.trace, c, s, input); }
    }
  }

  lemma StartKeeps(h: Host, value: string)
    requires Inv(h) && h.active.Some? && !h.active.value.exited
    ensures Inv(StartStep(h, h.active.value, value))
  {
    var a := h.active.value;
    if a.stage.Threading? && !a.finished { StartMarks(h.submissions, a, h.created, h.trace); }
    if a.stage.Turning? { AcceptMarks(h.submissions, a, a.(stage := Settled), h.created, h.trace, a.first); }
  }

  lemma StartFailedKeeps(h: Host)
    requires Inv(h) && h.active.Some?
    ensures Inv(StartFailed(h, h.active.value))
  {
    var a := h.active.value;
    if !a.stage.Settled? {
      FinishKeeps(SetWorker(SetState(h, a.first, Uncertain), a.(stage := Settled)), a.conversation, "failed");
    }
  }

  lemma ExitedKeeps(h: Host)
    requires Inv(h) && h.active.Some? && !h.active.value.exited
    ensures Inv(Exited(h, h.active.value))
  {
    var a := h.active.value;
    // The exit mark is set before the pending requests are rejected.
    var unmarked := Finish(h, a.conversation, "interrupted");
    FinishKeeps(h, a.conversation, "interrupted");
    FinishIgnoresExit(h, a.conversation);
  }

  lemma FinishIgnoresExit(h: Host, c: string)
    requires h.active.Some? && h.active.value.conversation == c
    ensures var a := h.active.value;
      var r, e := Finish(h, c, "interrupted"), Finish(SetWorker(h, a.(exited := true)), c, "interrupted");
      && e.submissions == r.submissions && e.created == r.created && e.trace == r.trace
      && r.active.Some? && e.active == Some(r.active.value.(exited := true))
  {
    var a := h.active.value;
    if !a.finished {
      var g := SetWorker(h, a.(exited := true));
      var x := MarkThat(SetTurn(SetStatus(h, c, "interrupted"), c, None), Finished(a.id))
        .(active := Some(a.(finished := true, closing := Killing)));
      var y := MarkThat(SetTurn(SetStatus(g, c, "interrupted"), c, None), Finished(a.id))
        .(active := Some(a.(exited := true, finished := true, closing := Killing)));
      ResolveAllFrame(Say(x, c, Status("interrupted")), c, a.approvals);
      ResolveAllFrame(Say(y, c, Status("interrupted")), c, a.approvals);
    }
  }

  lemma HandledKeeps(h: Host, m: Message)
    requires Inv(h) && h.active.Some?
    ensures Inv(Handled(h, h.active.value, m))
  {
    if m.TurnCompleted? { FinishKeeps(h, h.active.value.conversation, m.status); }
  }

  lemma {:induction false} RecoveredKeeps(h: Host, order: seq<string>)
    requires Inv(h)
    ensures var r := Recovered(h, order);
      Inv(r) && r.active.None? && r.trace == h.trace + [Restarted] && r.submissions.Keys == h.submissions.Keys
    decreases |order|
  {
    if order == [] {
      Append(h.trace, Restarted);
    } else if order[0] in h.conversations && h.conversations[order[0]].status in BUSY {
      RecoveredKeeps(
        Say(SetTurn(SetStatus(h, order[0], "interrupted"), order[0], None), order[0], Status("interrupted")),
        order[1..]);
    } else {
      RecoveredKeeps(h, order[1..]);
    }
  }

  lemma RejectMarks(subs: Submissions, a: Worker, created: nat, trace: seq<Mark>, s: string)
    requires Consistent(subs, Some(a), created, trace) && s in subs
    ensures Consistent(
      subs[s := subs[s].(state := Uncertain)], Some(a.(steers := a.steers - {s})), created, trace)
  {
  }

  lemma SteeredKeeps(h: Host, s: string, state: SubmissionState)
    requires Inv(h) && h.active.Some? && (state.Accepted? || state.Uncertain?)
    ensures Inv(Steered(h, h.active.value, s, state))
  {
    var a := h.active.value;
    if s in a.steers {
      if state.Accepted? {
        AcceptMarks(h.submissions, a, a.(steers := a.steers - {s}), h.created, h.trace, s);
      } else {
        RejectMarks(h.submissions, a, h.created, h.trace, s);
      }
    }
  }

  lemma ToolKeeps(h: Host, call: string, succeeded: bool)
    requires Inv(h) && h.active.Some?
    ensures Inv(ToolStep(h, h.active.value, call, succeeded))
  {
    var a := h.active.value;
    if !a.finished && succeeded { Append(h.trace, Recorded(a.id)); }
  }

  lemma StopMarks(subs: Submissions, a: Worker, created: nat, trace: seq<Mark>)
    requires Consistent(subs, Some(a), created, trace) && a.closing.Killing?
    ensures Consistent(subs, Some(a.(closing := Releasing)), created, trace + [Stopped(a.id)])
  {
    Append(trace, Stopped(a.id));
  }

  lemma ReleaseMarks(subs: Submissions, a: Worker, created: nat, trace: seq<Mark>)
    requires Consistent(subs, Some(a), created, trace) && a.closing.Releasing?
    ensures Consistent(subs, None, created, trace + [Released(a.id)])
  {
    Append(trace, Released(a.id));
  }

  lemma StopEndedKeeps(h: Host)
    requires Inv(h) && h.active.Some?
    ensures Inv(StopEnded(h, h.active.value))
  {
    if h.active.value.closing.Killing? { StopMarks(h.submissions, h.active.value, h.created, h.trace); }
  }

  lemma ReleaseEndedKeeps(h: Host)
    requires Inv(h) && h.active.Some?
    ensures Inv(ReleaseEnded(h, h.active.value))
  {
    if h.active.value.closing.Releasing? { ReleaseMarks(h.submissions, h.active.value, h.created, h.trace); }
  }

  lemma WorkerStepKeeps(h: Host, step: Step)
    requires Inv(h) && h.active.Some?
    ensures Inv(WorkerStep(h, h.active.value, step))
  {
    var a := h.active.value;
    match step
    case StartAnswered(value) => if !a.exited { StartKeeps(h, value); }
    case StartRejected => StartFailedKeeps(h);
    case Emit(m) => HandledKeeps(h, m);
    case Fail => FinishKeeps(h, a.conversation, "failed");
    case Exit => if !a.exited { ExitedKeeps(h); }
    case ToolEnded(call, succeeded) => ToolKeeps(h, call, succeeded);
    case SteerAnswered(s) => SteeredKeeps(h, s, Accepted);
    case SteerRejected(s) => SteeredKeeps(h, s, Uncertain);
    case StopResolved => StopEndedKeeps(h);
    case ReleaseResolved => ReleaseEndedKeeps(h);
    case _ =>
  }

  lemma AnsweredKeeps(h: Host, id: string)
    requires Inv(h) && h.active.Some?
    ensures Inv(Answered(h, h.active.value, id))
  {
  }

  lemma StopKeeps(h: Host, c: string)
    requires Inv(h)
    ensures Inv(StopCalled(h, c))
  {
    FinishKeeps(SetStatus(h, c, "stopping"), c, "interrupted");
  }

  lemma AnswerKeeps(h: Host, c: string, id: string, complete: bool)
    requires Inv(h)
    ensures Inv(Next(h, Answer(c, id, complete)))
  {
    if h.active.Some? { AnsweredKeeps(h, id); }
  }

  lemma RestartKeeps(h: Host, order: seq<string>)
    requires Inv(h)
    ensures Inv(Next(h, Restart(order)))
  {
    RecoveredKeeps(h, order);
  }

  lemma NextKeeps(h: Host, step: Step)
    requires Inv(h)
    ensures Inv(Next(h, step))
  {
    match step
    case Submit(c, s, input, text, standard) => SubmittedKeeps(h, c, s, input, text, standard);
    case Answer(c, id, complete) => AnswerKeeps(h, c, id, complete);
    case Stop(c) => StopKeeps(h, c);
    case Restart(order) => RestartKeeps(h, order);
    case _ => if h.active.Some? { WorkerStepKeeps(h, step); }
  }

  lemma {:induction false} RunKeeps(h: Host, steps: seq<Step>)
    requires Inv(h)
    ensures Inv(Run(h, steps))
    decreases |steps|
  {
    if steps != [] {
      NextKeeps(h, steps[0]);
      RunKeeps(Next(h, steps[0]), steps[1..]);
    }
  }

  lemma InitialHolds(conversations: map<string, Conversation>)
    ensures Inv(Initial(conversations))
  {
  }

  lemma {:induction false} OrderlyAt(trace: seq<Mark>, i: nat)
    requires Orderly(trace) && i < |trace|
    ensures Orderly(trace[..i]) && MayFollow(trace[..i], trace[i])
  {
    if i < |trace| - 1 {
      OrderlyAt(trace[..|trace| - 1], i);
      assert trace[..|trace| - 1][..i] == trace[..i];
    }
  }

  function History(conversations: map<string, Conversation>, steps: seq<Step>): Host {
    Run(Initial(conversations), steps)
  }

  // ---------------------------------------------------------------- submissions

  /** One submission causes at most one turn/start or turn/steer request, in any
      run, restarts included. */
  lemma AtMostOneSend(conversations: map<string, Conversation>, steps: seq<Step>, s: string, i: nat, j: nat)
    requires var trace := History(conversations, steps).trace; i < j < |trace| && trace[i] == Sent(s)
    ensures History(conversations, steps).trace[j] != Sent(s)
  {
    InitialHolds(conversations);
    RunKeeps(Initial(conversations), steps);
    var trace := History(conversations, steps).trace;
    assert trace[..j][i] == Sent(s);
    OrderlyAt(trace, j);
  }

  /** An accepted submission was sent, and the worker acknowledged it afterwards. */
  lemma AcceptedMeansAcknowledged(conversations: map<string, Conversation>, steps: seq<Step>, s: string)
    requires var h := History(conversations, steps); s in h.submissions && h.submissions[s].state.Accepted?
    ensures var trace := History(conversations, steps).trace;
      exists i, j :: 0 <= i < j < |trace| && trace[i] == Sent(s) && trace[j] == Acknowledged(s)
  {
    InitialHolds(conversations);
    RunKeeps(Initial(conversations), steps);
    var trace := History(conversations, steps).trace;
    var j :| 0 <= j < |trace| && trace[j] == Acknowledged(s);
    OrderlyAt(trace, j);
    var i :| 0 <= i < |trace[..j]| && trace[..j][i] == Sent(s);
    assert trace[i] == Sent(s);
  }

  /** What a host never takes back about a submission. */
  predicate Preserves(h: Host, g: Host) {
    forall s | s in h.submissions ::
      && s in g.submissions
      && g.submissions[s].conversation == h.submissions[s].conversation
      && g.submissions[s].input == h.submissions[s].input
  }

  lemma FinishPreserves(h: Host, c: string, status: string)
    ensures Finish(h, c, status).submissions == h.submissions
  {
    if h.active.Some? && h.active.value.conversation == c && !h.active.value.finished {
      var a := h.active.value;
      var ended := MarkThat(SetTurn(SetStatus(h, c, status), c, None), Finished(a.id))
        .(active := Some(a.(finished := true, closing := Killing)));
      ResolveAllFrame(Say(ended, c, Status(status)), c, a.approvals);
    }
  }

  lemma {:induction false} RecoveredPreserves(h: Host, order: seq<string>)
    ensures Preserves(h, Recovered(h, order))
    decreases |order|
  {
    if order != [] {
      if order[0] in h.conversations && h.conversations[order[0]].status in BUSY {
        RecoveredPreserves(
          Say(SetTurn(SetStatus(h, order[0], "interrupted"), order[0], None), order[0], Status("interrupted")),
          order[1..]);
      } else {
        RecoveredPreserves(h, order[1..]);
      }
    }
  }

  lemma StatePreserves(h: Host, s: string, state: SubmissionState)
    ensures Preserves(h, SetState(h, s, state))
  {
  }

  lemma PreservesOnwards(h: Host, f: Host, g: Host)
    requires Preserves(h, f) && g.submissions == f.submissions
    ensures Preserves(h, g)
  {
  }

  lemma SteeredPreserves(h: Host, a: Worker, s: string, state: SubmissionState)
    ensures Preserves(h, Steered(h, a, s, state))
  {
    StatePreserves(h, s, state);
    if s in a.steers { PreservesOnwards(h, SetState(h, s, state), Steered(h, a, s, state)); }
  }

  lemma StartFailedPreserves(h: Host)
    requires h.active.Some?
    ensures Preserves(h, StartFailed(h, h.active.value))
  {
    var a := h.active.value;
    StatePreserves(h, a.first, Uncertain);
    var uncertain := SetWorker(SetState(h, a.first, Uncertain), a.(stage := Settled));
    FinishPreserves(uncertain, a.conversation, "failed");
  }

  lemma ExitedPreserves(h: Host)
    requires h.active.Some?
    ensures Preserves(h, Exited(h, h.active.value))
  {
    var a := h.active.value;
    FinishPreserves(SetWorker(h, a.(exited := true)), a.conversation, "interrupted");
  }

  lemma WorkerStepPreserves(h: Host, step: Step)
    requires h.active.Some?
    ensures Preserves(h, WorkerStep(h, h.active.value, step))
  {
    var a := h.active.value;
    match step
    case StartAnswered(value) => if !a.exited { StartPreserves(h, a, value); }
    case StartRejected => StartFailedPreserves(h);
    case Emit(m) => HandledPreserves(h, a, m);
    case Fail => FinishPreserves(h, a.conversation, "failed");
    case Exit => ExitedPreserves(h);
    case SteerAnswered(s) => SteeredPreserves(h, a, s, Accepted);
    case SteerRejected(s) => SteeredPreserves(h, a, s, Uncertain);
    case _ =>
  }

  lemma StartPreserves(h: Host, a: Worker, value: string)
    ensures Preserves(h, StartStep(h, a, value))
  {
    StatePreserves(h, a.first, Accepted);
  }

  lemma HandledPreserves(h: Host, a: Worker, m: Message)
    requires h.active == Some(a)
    ensures Handled(h, a, m).submissions == h.submissions
  {
    if m.TurnCompleted? { FinishPreserves(h, a.conversation, m.status); }
  }

  lemma StepPreserves(h: Host, step: Step)
    ensures Preserves(h, Next(h, step))
  {
    match step
    case Submit(_, _, _, _, _) =>
    case Answer(_, _, _) =>
    case Stop(c) => FinishPreserves(SetStatus(h, c, "stopping"), c, "interrupted");
    case Restart(order) => RecoveredPreserves(h, order);
    case _ => if h.active.Some? { WorkerStepPreserves(h, step); }
  }

  /** An identifier is bound to its content for good: sent again with that
      content it reports its state, with any other it is refused, and neither
      changes anything. */
  lemma {:induction false} IdentifiersAreNeverReused(
      h: Host, steps: seq<Step>, s: string, c: string, input: string, text: string, standard: bool)
    requires s in h.submissions
    ensures var g := Run(h, steps);
      && s in g.submissions
      && Next(g, Submit(c, s, input, text, standard)) == g
      && Told(g, c, s, input) == Some(
           if c == h.submissions[s].conversation && input == h.submissions[s].input
           then Ok(g.submissions[s].state) else Err(()))
    decreases |steps|
  {
    if steps != [] {
      StepPreserves(h, steps[0]);
      IdentifiersAreNeverReused(Next(h, steps[0]), steps[1..], s, c, input, text, standard);
    }
  }

  // ------------------------------------------------------------------- workers

  /** From the creation of a worker until its stop and its release have
      resolved, no other worker is created, unless the host itself restarts. */
  lemma LifetimesNeverOverlap(conversations: map<string, Conversation>, steps: seq<Step>, i: nat, j: nat)
    requires var trace := History(conversations, steps).trace;
      i < j < |trace| && trace[i].Created? && trace[j].Created?
    ensures var trace := History(conversations, steps).trace;
      exists k :: i < k < j && (trace[k] == Released(trace[i].worker) || trace[k] == Restarted)
  {
    InitialHolds(conversations);
    RunKeeps(Initial(conversations), steps);
    var trace := History(conversations, steps).trace;
    OrderlyAt(trace, j);
    AliveUntil(trace, i, j);
  }

  /** A worker created at `i` is still the live one at `j` unless it was released or the host restarted. */
  lemma {:induction false} AliveUntil(trace: seq<Mark>, i: nat, j: nat)
    requires Orderly(trace) && i < j <= |trace| && trace[i].Created?
    ensures
      || Alive(trace[..j]) == Some(trace[i].worker)
      || exists k :: i < k < j && (trace[k] == Released(trace[i].worker) || trace[k] == Restarted)
  {
    if j > i + 1 {
      AliveUntil(trace, i, j - 1);
      OrderlyAt(trace, j - 1);
      assert trace[..j][..j - 1] == trace[..j - 1];
    } else {
      assert trace[..j][j - 1] == trace[i];
    }
  }

  /** A worker's finish takes effect once, its release comes after it, and no
      tool result or evidence is recorded for it afterwards. */
  lemma FinishIsOnceAndLast(conversations: map<string, Conversation>, steps: seq<Step>, i: nat, j: nat)
    requires var trace := History(conversations, steps).trace;
      i < j < |trace| && trace[i].Finished?
    ensures var trace := History(conversations, steps).trace;
      trace[j] != trace[i] && trace[j] != Recorded(trace[i].worker)
  {
    InitialHolds(conversations);
    RunKeeps(Initial(conversations), steps);
    var trace := History(conversations, steps).trace;
    OrderlyAt(trace, j);
    assert trace[..j][i] == trace[i];
  }

  lemma ReleaseFollowsStopAndFinish(conversations: map<string, Conversation>, steps: seq<Step>, k: nat)
    requires var trace := History(conversations, steps).trace; k < |trace| && trace[k].Released?
    ensures var trace := History(conversations, steps).trace;
      exists i, j :: 0 <= i < j < k && trace[i] == Finished(trace[k].worker) && trace[j] == Stopped(trace[k].worker)
  {
    InitialHolds(conversations);
    RunKeeps(Initial(conversations), steps);
    var trace := History(conversations, steps).trace;
    OrderlyAt(trace, k);
    var j :| 0 <= j < |trace[..k]| && trace[..k][j] == Stopped(trace[k].worker);
    OrderlyAt(trace, j);
    var i :| 0 <= i < |trace[..j]| && trace[..j][i] == Finished(trace[k].worker);
    assert trace[i] == Finished(trace[k].worker) && trace[j] == Stopped(trace[k].worker);
  }

  /** A log that only grew, and not by evidence of one worker. */
  predicate GrowsWithout(before: seq<Event>, after: seq<Event>, w: nat) {
    before <= after && forall k | |before| <= k < |after| :: after[k].body != Evidence(w)
  }

  lemma {:induction false} ResolveAllGrows(h: Host, c: string, qs: seq<Question>, w: nat)
    ensures GrowsWithout(h.log, ResolveAll(h, c, qs).log, w)
    decreases |qs|
  {
    if qs != [] { ResolveAllGrows(Say(h, c, Resolved(qs[0].id)), c, qs[1..], w); }
  }

  lemma FinishGrows(h: Host, c: string, status: string, w: nat)
    ensures GrowsWithout(h.log, Finish(h, c, status).log, w)
  {
    if h.active.Some? && h.active.value.conversation == c && !h.active.value.finished {
      var a := h.active.value;
      var ended := MarkThat(SetTurn(SetStatus(h, c, status), c, None), Finished(a.id))
        .(active := Some(a.(finished := true, closing := Killing)));
      var said := Say(ended, c, Status(status));
      assert ended.log == h.log;
      ResolveAllGrows(said, c, a.approvals, w);
      GrowthAdds(h.log, said.log, ResolveAll(said, c, a.approvals).log, w);
    }
  }

  lemma GrowthAdds(a: seq<Event>, b: seq<Event>, c: seq<Event>, w: nat)
    requires GrowsWithout(a, b, w) && GrowsWithout(b, c, w)
    ensures GrowsWithout(a, c, w)
  {
  }

  lemma {:induction false} RecoveredGrows(h: Host, order: seq<string>, w: nat)
    ensures GrowsWithout(h.log, Recovered(h, order).log, w)
    decreases |order|
  {
    if order != [] {
      if order[0] in h.conversations && h.conversations[order[0]].status in BUSY {
        var next :=
          Say(SetTurn(SetStatus(h, order[0], "interrupted"), order[0], None), order[0], Status("interrupted"));
        RecoveredGrows(next, order[1..], w);
        GrowthAdds(h.log, next.log, Recovered(next, order[1..]).log, w);
      } else {
        RecoveredGrows(h, order[1..], w);
      }
    }
  }

  lemma HandledGrows(h: Host, m: Message, w: nat)
    requires h.active.Some?
    ensures GrowsWithout(h.log, Handled(h, h.active.value, m).log, w)
  {
    if m.TurnCompleted? { FinishGrows(h, h.active.value.conversation, m.status, w); }
  }

  lemma WorkerStepGrows(h: Host, step: Step, w: nat)
    requires Inv(h) && h.active.Some? && Finished(w) in h.trace
    ensures GrowsWithout(h.log, WorkerStep(h, h.active.value, step).log, w)
  {
    var a := h.active.value;
    match step
    case StartRejected =>
      FinishGrows(SetWorker(SetState(h, a.first, Uncertain), a.(stage := Settled)), a.conversation, "failed", w);
    case Emit(m) => HandledGrows(h, m, w);
    case Fail => FinishGrows(h, a.conversation, "failed", w);
    case Exit => FinishGrows(SetWorker(h, a.(exited := true)), a.conversation, "interrupted", w);
    case _ =>
  }

  lemma SubmittedGrows(h: Host, c: string, s: string, input: string, text: string, standard: bool, w: nat)
    ensures GrowsWithout(h.log, Submitted(h, c, s, input, text, standard).log, w)
  {
  }

  lemma AnsweredGrows(h: Host, id: string, w: nat)
    requires h.active.Some?
    ensures GrowsWithout(h.log, Answered(h, h.active.value, id).log, w)
  {
  }

  lemma StepGrows(h: Host, step: Step, w: nat)
    requires Inv(h) && Finished(w) in h.trace
    ensures GrowsWithout(h.log, Next(h, step).log, w) && Finished(w) in Next(h, step).trace
  {
    TraceGrows(h, step);
    match step
    case Submit(c, s, input, text, standard) => SubmittedGrows(h, c, s, input, text, standard, w);
    case Answer(_, id, _) => if h.active.Some? { AnsweredGrows(h, id, w); }
    case Stop(c) => FinishGrows(SetStatus(h, c, "stopping"), c, "interrupted", w);
    case Restart(order) => RecoveredGrows(h, order, w);
    case _ => if h.active.Some? { WorkerStepGrows(h, step, w); }
  }

  /** Once a worker has finished no evidence of it is ever logged again, whatever
      its tools still return. */
  lemma {:induction false} NoEvidenceAfterFinish(h: Host, steps: seq<Step>, w: nat)
    requires Inv(h) && Finished(w) in h.trace
    ensures GrowsWithout(h.log, Run(h, steps).log, w)
    decreases |steps|
  {
    if steps != [] {
      StepGrows(h, steps[0], w);
      NextKeeps(h, steps[0]);
      NoEvidenceAfterFinish(Next(h, steps[0]), steps[1..], w);
      GrowthAdds(h.log, Next(h, steps[0]).log, Run(h, steps).log, w);
    }
  }

  lemma FinishTrace(h: Host, c: string, status: string)
    ensures h.trace <= Finish(h, c, status).trace
  {
    if h.active.Some? && h.active.value.conversation == c && !h.active.value.finished {
      var a := h.active.value;
      var ended := MarkThat(SetTurn(SetStatus(h, c, status), c, None), Finished(a.id))
        .(active := Some(a.(finished := true, closing := Killing)));
      ResolveAllFrame(Say(ended, c, Status(status)), c, a.approvals);
    }
  }

  lemma {:induction false} RecoveredTrace(h: Host, order: seq<string>)
    ensures Recovered(h, order).trace == h.trace + [Restarted]
    decreases |order|
  {
    if order != [] {
      if order[0] in h.conversations && h.conversations[order[0]].status in BUSY {
        RecoveredTrace(
          Say(SetTurn(SetStatus(h, order[0], "interrupted"), order[0], None), order[0], Status("interrupted")),
          order[1..]);
      } else {
        RecoveredTrace(h, order[1..]);
      }
    }
  }

  lemma StartTrace(h: Host, a: Worker, value: string)
    ensures h.trace <= StartStep(h, a, value).trace
  {
  }

  lemma SettledTrace(h: Host, step: Step)
    requires h.active.Some?
    requires step.SteerAnswered? || step.SteerRejected? || step.ToolEnded?
      || step.StopResolved? || step.ReleaseResolved?
    ensures h.trace <= WorkerStep(h, h.active.value, step).trace
  {
  }

  lemma HandledTrace(h: Host, m: Message)
    requires h.active.Some?
    ensures h.trace <= Handled(h, h.active.value, m).trace
  {
    if m.TurnCompleted? { FinishTrace(h, h.active.value.conversation, m.status); }
  }

  lemma WorkerTrace(h: Host, step: Step)
    requires h.active.Some?
    ensures h.trace <= WorkerStep(h, h.active.value, step).trace
  {
    var a := h.active.value;
    match step
    case StartAnswered(value) => StartTrace(h, a, value);
    case StartRejected =>
      FinishTrace(SetWorker(SetState(h, a.first, Uncertain), a.(stage := Settled)), a.conversation, "failed");
    case Emit(m) => HandledTrace(h, m);
    case Fail => FinishTrace(h, a.conversation, "failed");
    case Exit => FinishTrace(SetWorker(h, a.(exited := true)), a.conversation, "interrupted");
    case Submit(_, _, _, _, _) =>
    case Answer(_, _, _) =>
    case Stop(_) =>
    case Restart(_) =>
    case _ => SettledTrace(h, step);
  }

  lemma TraceGrows(h: Host, step: Step)
    ensures h.trace <= Next(h, step).trace
  {
    match step
    case Submit(_, _, _, _, _) =>
    case Answer(_, _, _) =>
    case Stop(c) => FinishTrace(SetStatus(h, c, "stopping"), c, "interrupted");
    case Restart(order) => RecoveredTrace(h, order);
    case _ => if h.active.Some? { WorkerTrace(h, step); }
  }

  // ----------------------------------------------------------------- questions

  /** The approvals of the unfinished worker of one conversation. */
  function OpenQuestions(h: Host, c: string): seq<Question> {
    if h.active.Some? && h.active.value.conversation == c && !h.active.value.finished
    then h.active.value.approvals else []
  }

  ghost predicate Agrees(h: Host) {
    forall c :: Shown(h.log, c) == OpenQuestions(h, c)
  }

  lemma SaidShown(h: Host, c: string, body: Body)
    ensures Shown(Say(h, c, body).log, c) == Show(Shown(h.log, c), body)
    ensures forall d :: d != c ==> Shown(Say(h, c, body).log, d) == Shown(h.log, d)
  {
    ShownNext(h.log, Event(|h.log| + 1, c, body), c);
    forall d | d != c ensures Shown(Say(h, c, body).log, d) == Shown(h.log, d) {
      ShownNext(h.log, Event(|h.log| + 1, c, body), d);
    }
  }

  lemma {:induction false} ResolveAllShown(h: Host, c: string, qs: seq<Question>)
    ensures Shown(ResolveAll(h, c, qs).log, c) == DeleteAll(Shown(h.log, c), qs)
    ensures forall d :: d != c ==> Shown(ResolveAll(h, c, qs).log, d) == Shown(h.log, d)
    decreases |qs|
  {
    if qs != [] {
      SaidShown(h, c, Resolved(qs[0].id));
      ResolveAllShown(Say(h, c, Resolved(qs[0].id)), c, qs[1..]);
    }
  }

  /** `finish` logs that every open question is resolved. */
  lemma FinishShown(h: Host, c: string, status: string)
    requires h.active.Some? && h.active.value.conversation == c && !h.active.value.finished
    ensures Finish(h, c, status).active == Some(h.active.value.(finished := true, closing := Killing))
    ensures Shown(Finish(h, c, status).log, c) == DeleteAll(Shown(h.log, c), h.active.value.approvals)
    ensures forall d :: d != c ==> Shown(Finish(h, c, status).log, d) == Shown(h.log, d)
  {
    var a := h.active.value;
    var ended := MarkThat(SetTurn(SetStatus(h, c, status), c, None), Finished(a.id))
      .(active := Some(a.(finished := true, closing := Killing)));
    var said := Say(ended, c, Status(status));
    SaidShown(ended, c, Status(status));
    ResolveAllFrame(said, c, a.approvals);
    ResolveAllShown(said, c, a.approvals);
    assert ended.log == h.log;
  }

  lemma FinishAgrees(h: Host, c: string, status: string)
    requires Agrees(h)
    ensures Agrees(Finish(h, c, status))
  {
    if h.active.Some? && h.active.value.conversation == c && !h.active.value.finished {
      FinishShown(h, c, status);
      assert Shown(h.log, c) == OpenQuestions(h, c);
      DeleteAllEmpties(h.active.value.approvals);
      var g := Finish(h, c, status);
      forall d ensures Shown(g.log, d) == OpenQuestions(g, d) {
        assert Shown(h.log, d) == OpenQuestions(h, d);
      }
    }
  }

  /** A host that differs only in what the questions do not depend on. */
  lemma SayingNothingAgrees(h: Host, g: Host, c: string, body: Body)
    requires Agrees(h) && g.log == h.log && g.active == h.active && !body.Asked? && !body.Resolved?
    ensures Agrees(Say(g, c, body))
  {
    SaidShown(g, c, body);
  }

  lemma AskAgrees(h: Host, q: Question)
    requires Agrees(h) && h.active.Some? && !h.active.value.finished
    ensures Agrees(Handled(h, h.active.value, AskUser(q)))
  {
    var a := h.active.value;
    var g := SetStatus(h, a.conversation, "waiting");
    SaidShown(g, a.conversation, Asked(q));
    assert g.log == h.log;
  }

  /** The approval and its line in the log go together, in `handle` and in `answer`. */
  lemma ResolveAgrees(h: Host, g: Host, id: string)
    requires Agrees(h) && h.active.Some?
    requires var a := h.active.value;
      && g.log == Say(h, a.conversation, Resolved(id)).log
      && g.active == Some(a.(approvals := DeleteQuestion(a.approvals, id)))
    ensures Agrees(g)
  {
    SaidShown(h, h.active.value.conversation, Resolved(id));
  }

  lemma HandledAgrees(h: Host, m: Message)
    requires Agrees(h) && h.active.Some?
    ensures Agrees(Handled(h, h.active.value, m))
  {
    var a := h.active.value;
    if !a.finished {
      match m
      case AskUser(q) => AskAgrees(h, q);
      case AskApproval => SayingNothingAgrees(h, h, a.conversation, Notice);
      case TurnStarted(_, turn) =>
        SayingNothingAgrees(h, SetTurn(SetStatus(h, a.conversation, "running"), a.conversation, Some(turn)),
          a.conversation, Status("running"));
      case Report(_, body) => if IsReport(body) { SayingNothingAgrees(h, h, a.conversation, body); }
      case RequestResolved(thread, id) =>
        if !Foreign(h, a.conversation, thread) { ResolveAgrees(h, Handled(h, a, m), id); }
      case TurnCompleted(_, status) => FinishAgrees(h, a.conversation, status);
      case _ =>
    }
  }

  lemma ExitedAgrees(h: Host)
    requires Agrees(h) && h.active.Some?
    ensures Agrees(Exited(h, h.active.value))
  {
    var a := h.active.value;
    var g := SetWorker(h, a.(exited := true));
    assert forall c :: OpenQuestions(g, c) == OpenQuestions(h, c);
    FinishAgrees(g, a.conversation, "interrupted");
    FinishIgnoresExit(h, a.conversation);
    var closed := Finish(g, a.conversation, "interrupted");
    assert forall c :: OpenQuestions(Exited(h, a), c) == OpenQuestions(closed, c);
    assert Exited(h, a).log == closed.log;
  }

  lemma SubmittedAgrees(h: Host, c: string, s: string, input: string, text: string, standard: bool)
    requires Agrees(h)
    ensures Agrees(Submitted(h, c, s, input, text, standard))
  {
    SaidShown(h.(submissions := h.submissions[s := Submission(c, input, Pending)]), c, User(text));
  }

  lemma StopAgrees(h: Host, c: string)
    requires Agrees(h)
    ensures Agrees(StopCalled(h, c))
  {
    assert forall d :: OpenQuestions(SetStatus(h, c, "stopping"), d) == OpenQuestions(h, d);
    FinishAgrees(SetStatus(h, c, "stopping"), c, "interrupted");
  }

  lemma StepAgrees(h: Host, step: Step)
    requires Agrees(h) && Inv(h) && !step.Restart?
    ensures Agrees(Next(h, step))
  {
    match step
    case Submit(c, s, input, text, standard) => SubmittedAgrees(h, c, s, input, text, standard);
    case Answer(c, id, _) => if h.active.Some? { ResolveAgrees(h, Answered(h, h.active.value, id), id); }
    case Stop(c) => StopAgrees(h, c);
    case _ => if h.active.Some? { WorkerStepAgrees(h, step); }
  }

  lemma ToolAgrees(h: Host, call: string, succeeded: bool)
    requires Agrees(h) && h.active.Some?
    ensures Agrees(ToolStep(h, h.active.value, call, succeeded))
  {
    var c := h.active.value.conversation;
    SaidShown(h, c, Evidence(h.active.value.id));
    SaidShown(h, c, Notice);
  }

  lemma StartFailedAgrees(h: Host)
    requires Agrees(h) && h.active.Some?
    ensures Agrees(StartFailed(h, h.active.value))
  {
    var a := h.active.value;
    var g := SetWorker(SetState(h, a.first, Uncertain), a.(stage := Settled));
    assert forall c :: OpenQuestions(g, c) == OpenQuestions(h, c);
    FinishAgrees(g, a.conversation, "failed");
  }

  /** A host in which neither the log nor the open questions changed. */
  lemma QuietAgrees(h: Host, g: Host)
    requires Agrees(h) && g.log == h.log && forall c :: OpenQuestions(g, c) == OpenQuestions(h, c)
    ensures Agrees(g)
  {
  }

  lemma StartQuiet(h: Host, value: string)
    requires h.active.Some?
    ensures var g := StartStep(h, h.active.value, value);
      g.log == h.log && forall c :: OpenQuestions(g, c) == OpenQuestions(h, c)
  {
  }

  lemma SteeredQuiet(h: Host, s: string, state: SubmissionState)
    requires h.active.Some?
    ensures var g := Steered(h, h.active.value, s, state);
      g.log == h.log && forall c :: OpenQuestions(g, c) == OpenQuestions(h, c)
  {
  }

  lemma ClosingQuiet(h: Host)
    requires Inv(h) && h.active.Some?
    ensures var g := StopEnded(h, h.active.value);
      g.log == h.log && forall c :: OpenQuestions(g, c) == OpenQuestions(h, c)
    ensures var g := ReleaseEnded(h, h.active.value);
      g.log == h.log && forall c :: OpenQuestions(g, c) == OpenQuestions(h, c)
  {
  }

  lemma WorkerStepAgrees(h: Host, step: Step)
    requires Agrees(h) && Inv(h) && h.active.Some?
    ensures Agrees(WorkerStep(h, h.active.value, step))
  {
    var a := h.active.value;
    match step
    case StartRejected => StartFailedAgrees(h);
    case Emit(m) => HandledAgrees(h, m);
    case ToolEnded(call, succeeded) => ToolAgrees(h, call, succeeded);
    case Fail => FinishAgrees(h, a.conversation, "failed");
    case Exit => ExitedAgrees(h);
    case StartAnswered(value) =>
      StartQuiet(h, value);
      QuietAgrees(h, StartStep(h, a, value));
    case SteerAnswered(s) =>
      SteeredQuiet(h, s, Accepted);
      QuietAgrees(h, Steered(h, a, s, Accepted));
    case SteerRejected(s) =>
      SteeredQuiet(h, s, Uncertain);
      QuietAgrees(h, Steered(h, a, s, Uncertain));
    case StopResolved =>
      ClosingQuiet(h);
      QuietAgrees(h, StopEnded(h, a));
    case ReleaseResolved =>
      ClosingQuiet(h);
      QuietAgrees(h, ReleaseEnded(h, a));
    case _ =>
  }

  /** In a run without a restart, the questions a chat shows are at every moment
      exactly, and in the same order, the open approvals of the unfinished worker
      of that conversation; with no such worker it shows none. */
  lemma {:induction false} QuestionsShownAreOpen(h: Host, steps: seq<Step>)
    requires Agrees(h) && Inv(h) && forall k :: 0 <= k < |steps| ==> !steps[k].Restart?
    ensures Agrees(Run(h, steps))
    decreases |steps|
  {
    if steps != [] {
      StepAgrees(h, steps[0]);
      NextKeeps(h, steps[0]);
      assert forall k :: 0 <= k < |steps[1..]| ==> steps[1..][k] == steps[k + 1];
      QuestionsShownAreOpen(Next(h, steps[0]), steps[1..]);
    }
  }

  lemma ChatShowsOpenQuestions(conversations: map<string, Conversation>, steps: seq<Step>, c: string)
    requires forall k :: 0 <= k < |steps| ==> !steps[k].Restart?
    ensures Shown(History(conversations, steps).log, c) == OpenQuestions(History(conversations, steps), c)
  {
    InitialHolds(conversations);
    QuestionsShownAreOpen(Initial(conversations), steps);
  }

  lemma {:induction false} RecoveredShown(h: Host, order: seq<string>)
    ensures forall c :: Shown(Recovered(h, order).log, c) == Shown(h.log, c)
    decreases |order|
  {
    if order != [] {
      if order[0] in h.conversations && h.conversations[order[0]].status in BUSY {
        var g := SetTurn(SetStatus(h, order[0], "interrupted"), order[0], None);
        SaidShown(g, order[0], Status("interrupted"));
        RecoveredShown(Say(g, order[0], Status("interrupted")), order[1..]);
      } else {
        RecoveredShown(h, order[1..]);
      }
    }
  }

  /** A restart is the one exception: it records nothing about questions, so the
      chat goes on showing those that were open, and agrees with the host again
      exactly if there were none. */
  lemma RestartLeavesQuestionsShown(h: Host, order: seq<string>)
    requires Agrees(h) && Inv(h) && Lists(order, h.conversations)
    ensures forall c :: Shown(Next(h, Restart(order)).log, c) == OpenQuestions(h, c)
    ensures Agrees(Next(h, Restart(order))) <==> forall c :: OpenQuestions(h, c) == []
  {
    RecoveredShown(h, order);
    RecoveredKeeps(h, order);
  }
}
