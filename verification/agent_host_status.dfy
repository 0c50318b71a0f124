/** When a conversation that reads as busy has a live worker: the exact condition
    for one step and for a run, and the inputs with which it fails. */
module AgentHostStatus {
  import opened Common
  import opened ChatFold
  import opened AgentHost
  import opened AgentHostResults

  /** Busy means that the conversation's worker has not finished. */
  ghost predicate BusyMeansLive(h: Host) {
    forall c | c in h.conversations ::
      h.conversations[c].status in BUSY ==>
        h.active.Some? && h.active.value.conversation == c && !h.active.value.finished
  }

  /** The calls that rewrite the status of a worker that is finished, or finish one
      with a busy status. */
  predicate Rewrites(h: Host, step: Step) {
    h.active.Some? && h.active.value.conversation in h.conversations &&
    var a := h.active.value;
    match step
    case Stop(c) => c == a.conversation && a.finished
    case Answer(c, id, complete) => c == a.conversation && complete && IsOpen(a.approvals, id) && a.finished
    case Emit(TurnCompleted(thread, status)) =>
      !a.exited && !a.finished && !Foreign(h, a.conversation, thread) && status in BUSY
    case _ => false
  }

  /** A status set for the active conversation alone. */
  lemma StatusSet(h: Host, g: Host, c: string, status: string)
    requires BusyMeansLive(h) && (h.active.None? || h.active.value.conversation == c)
    requires g.conversations == SetStatus(h, c, status).conversations
    requires g.active.Some? ==> g.active.value.conversation == c
    ensures BusyMeansLive(g) <==>
      (c in h.conversations && status in BUSY ==> g.active.Some? && !g.active.value.finished)
  {
    forall d | d in h.conversations && d != c ensures g.conversations[d].status !in BUSY {
      assert g.conversations[d] == h.conversations[d];
    }
    if c in h.conversations { assert g.conversations[c].status == status; }
  }

  /** The statuses as they were. */
  lemma StatusKept(h: Host, g: Host)
    requires BusyMeansLive(h)
    requires g.conversations.Keys == h.conversations.Keys
    requires forall c | c in h.conversations :: g.conversations[c].status == h.conversations[c].status
    requires h.active.Some? && !h.active.value.finished ==>
      g.active.Some? && g.active.value.conversation == h.active.value.conversation && !g.active.value.finished
    ensures BusyMeansLive(g)
  {
  }

  /** What `finish` leaves of statuses and worker. */
  lemma FinishStatus(h: Host, c: string, status: string)
    requires h.active.Some? && h.active.value.conversation == c && !h.active.value.finished
    ensures var g := Finish(h, c, status);
      && g.active == Some(h.active.value.(finished := true, closing := Killing))
      && g.conversations == SetTurn(SetStatus(h, c, status), c, None).conversations
  {
    var a := h.active.value;
    var ended := MarkThat(SetTurn(SetStatus(h, c, status), c, None), Finished(a.id))
      .(active := Some(a.(finished := true, closing := Killing)));
    ResolveAllFrame(Say(ended, c, Status(status)), c, a.approvals);
  }

  lemma FinishBusy(h: Host, c: string, status: string)
    requires BusyMeansLive(h)
    requires h.active.Some? && h.active.value.conversation == c && !h.active.value.finished
    ensures BusyMeansLive(Finish(h, c, status)) <==> !(c in h.conversations && status in BUSY)
  {
    FinishStatus(h, c, status);
    var g := Finish(h, c, status);
    var f := SetStatus(h, c, status).(active := g.active);
    StatusSet(h, f, c, status);
    assert forall d | d in h.conversations :: g.conversations[d].status == f.conversations[d].status;
  }

  lemma NotBusy()
    ensures "failed" !in BUSY && "interrupted" !in BUSY
    ensures "running" in BUSY && "starting" in BUSY && "stopping" in BUSY && "waiting" in BUSY
  {
    assert "failed"[0] == 'f' && "interrupted"[0] == 'i';
  }

  lemma SubmitBusy(h: Host, c: string, s: string, input: string, text: string, standard: bool)
    requires BusyMeansLive(h)
    ensures BusyMeansLive(Submitted(h, c, s, input, text, standard))
  {
    if c in h.conversations && s !in h.submissions && !Refuses(h, c, standard) {
      var g := Submitted(h, c, s, input, text, standard);
      if h.active.Some? { StatusKept(h, g); } else { StatusSet(h, g, c, "starting"); }
    }
  }

  lemma AnswerBusy(h: Host, id: string)
    requires BusyMeansLive(h) && h.active.Some?
    ensures BusyMeansLive(Answered(h, h.active.value, id)) <==>
      !(h.active.value.finished && h.active.value.conversation in h.conversations)
  {
    NotBusy();
    StatusSet(h, Answered(h, h.active.value, id), h.active.value.conversation, "running");
  }

  lemma StopBusy(h: Host, c: string)
    requires BusyMeansLive(h) && h.active.Some? && h.active.value.conversation == c
    ensures BusyMeansLive(StopCalled(h, c)) <==> !(h.active.value.finished && c in h.conversations)
  {
    NotBusy();
    var stopping := SetStatus(h, c, "stopping");
    StatusSet(h, stopping, c, "stopping");
    if !h.active.value.finished { FinishBusy(stopping, c, "interrupted"); }
  }

  lemma StartBusy(h: Host, value: string)
    requires BusyMeansLive(h) && h.active.Some?
    ensures BusyMeansLive(StartStep(h, h.active.value, value))
  {
    var a := h.active.value;
    var g := StartStep(h, a, value);
    if a.stage.Turning? && !a.finished {
      var turned := SetTurn(h, a.conversation, Some(value));
      StatusKept(h, turned);
      NotBusy();
      StatusSet(turned, g, a.conversation, "running");
    } else {
      StatusKept(h, g);
    }
  }

  lemma StartFailedBusy(h: Host)
    requires BusyMeansLive(h) && h.active.Some?
    ensures BusyMeansLive(StartFailed(h, h.active.value))
  {
    var a := h.active.value;
    if !a.stage.Settled? {
      var g := SetWorker(SetState(h, a.first, Uncertain), a.(stage := Settled));
      StatusKept(h, g);
      NotBusy();
      if !a.finished { FinishBusy(g, a.conversation, "failed"); }
    }
  }

  lemma ExitBusy(h: Host)
    requires BusyMeansLive(h) && h.active.Some?
    ensures BusyMeansLive(Exited(h, h.active.value))
  {
    var a := h.active.value;
    var g := SetWorker(h, a.(exited := true));
    StatusKept(h, g);
    NotBusy();
    var closed := Finish(g, a.conversation, "interrupted");
    if !a.finished {
      FinishBusy(g, a.conversation, "interrupted");
      FinishStatus(g, a.conversation, "interrupted");
    }
    StatusKept(closed, Exited(h, a));
  }

  lemma HandledBusy(h: Host, m: Message)
    requires BusyMeansLive(h) && h.active.Some? && !h.active.value.finished && !m.TurnCompleted?
    ensures BusyMeansLive(Handled(h, h.active.value, m))
  {
    var a := h.active.value;
    var g := Handled(h, a, m);
    NotBusy();
    match m
    case AskUser(_) => StatusSet(h, g, a.conversation, "waiting");
    case TurnStarted(thread, turn) =>
      if !Foreign(h, a.conversation, thread) {
        var running := SetStatus(h, a.conversation, "running");
        StatusSet(h, running, a.conversation, "running");
        StatusKept(running, g);
      }
    case RequestResolved(thread, id) =>
      if !Foreign(h, a.conversation, thread) {
        if DeleteQuestion(a.approvals, id) == [] { StatusSet(h, g, a.conversation, "running"); }
        else { StatusKept(h, g); }
      }
    case _ => StatusKept(h, g);
  }

  lemma MessageBusy(h: Host, m: Message)
    requires BusyMeansLive(h) && h.active.Some?
    ensures BusyMeansLive(Next(h, Emit(m))) <==> !Rewrites(h, Emit(m))
  {
    var a := h.active.value;
    if !a.exited && !a.finished {
      if m.TurnCompleted? {
        if !Foreign(h, a.conversation, m.thread) { FinishBusy(h, a.conversation, m.status); }
      } else {
        HandledBusy(h, m);
      }
    }
  }

  /** A worker is let go only when it has finished, so nothing was busy. */
  lemma ClosingBusy(h: Host, step: Step)
    requires Inv(h) && BusyMeansLive(h) && h.active.Some? && (step.StopResolved? || step.ReleaseResolved?)
    ensures BusyMeansLive(WorkerStep(h, h.active.value, step))
  {
  }

  lemma SteeredBusy(h: Host, step: Step)
    requires BusyMeansLive(h) && h.active.Some? && (step.SteerAnswered? || step.SteerRejected? || step.ToolEnded?)
    ensures BusyMeansLive(WorkerStep(h, h.active.value, step))
  {
    StatusKept(h, WorkerStep(h, h.active.value, step));
  }

  lemma {:induction false} RecoveredStatus(h: Host, order: seq<string>, c: string)
    requires c in h.conversations
    ensures var r := Recovered(h, order);
      && r.conversations.Keys == h.conversations.Keys
      && (c in order || h.conversations[c].status !in BUSY ==> r.conversations[c].status !in BUSY)
    decreases |order|
  {
    NotBusy();
    if order != [] {
      var next := if order[0] in h.conversations && h.conversations[order[0]].status in BUSY
        then Say(SetTurn(SetStatus(h, order[0], "interrupted"), order[0], None), order[0], Status("interrupted"))
        else h;
      RecoveredStatus(next, order[1..], c);
    }
  }

  /** A restart restores the property whatever happened before. */
  lemma RestartRestoresIt(h: Host, order: seq<string>)
    requires Lists(order, h.conversations)
    ensures BusyMeansLive(Next(h, Restart(order)))
  {
    var g := Next(h, Restart(order));
    RecoveredKeys(h, order);
    forall c | c in g.conversations ensures g.conversations[c].status !in BUSY {
      assert c in set d | d in order;
      RecoveredStatus(h, order, c);
    }
  }

  lemma {:induction false} RecoveredKeys(h: Host, order: seq<string>)
    ensures Recovered(h, order).conversations.Keys == h.conversations.Keys
    decreases |order|
  {
    if order != [] {
      if order[0] in h.conversations && h.conversations[order[0]].status in BUSY {
        RecoveredKeys(
          Say(SetTurn(SetStatus(h, order[0], "interrupted"), order[0], None), order[0], Status("interrupted")),
          order[1..]);
      } else {
        RecoveredKeys(h, order[1..]);
      }
    }
  }

  /** One step keeps "busy means live" exactly unless it is one of three calls: a
      stop of a finished worker's conversation, an answer to a question that a
      finished worker left open, or a turn that ends with a busy status. */
  lemma BusyStaysLiveUnlessRewritten(h: Host, step: Step)
    requires Inv(h) && BusyMeansLive(h)
    ensures BusyMeansLive(Next(h, step)) <==> !Rewrites(h, step)
  {
    match step
    case Submit(c, s, input, text, standard) => SubmitBusy(h, c, s, input, text, standard);
    case Answer(c, id, _) => if h.active.Some? { AnswerBusy(h, id); }
    case Stop(c) => if h.active.Some? && h.active.value.conversation == c { StopBusy(h, c); }
    case Restart(order) => if Lists(order, h.conversations) { RestartRestoresIt(h, order); }
    case _ => if h.active.Some? { WorkerStepBusy(h, step); }
  }

  lemma WorkerStepBusy(h: Host, step: Step)
    requires Inv(h) && BusyMeansLive(h) && h.active.Some?
    requires !step.Submit? && !step.Answer? && !step.Stop? && !step.Restart?
    ensures BusyMeansLive(WorkerStep(h, h.active.value, step)) <==> !Rewrites(h, step)
  {
    var a := h.active.value;
    match step
    case StartAnswered(value) => StartBusy(h, value);
    case StartRejected => StartFailedBusy(h);
    case Emit(m) => MessageBusy(h, m);
    case Fail =>
      NotBusy();
      if !a.finished { FinishBusy(h, a.conversation, "failed"); }
    case Exit => ExitBusy(h);
    case StopResolved => ClosingBusy(h, step);
    case ReleaseResolved => ClosingBusy(h, step);
    case _ => SteeredBusy(h, step);
  }

  ghost predicate AlwaysBusyMeansLive(h: Host, steps: seq<Step>)
    decreases |steps|
  {
    BusyMeansLive(h) && (steps == [] || AlwaysBusyMeansLive(Next(h, steps[0]), steps[1..]))
  }

  predicate NeverRewrites(h: Host, steps: seq<Step>)
    decreases |steps|
  {
    steps == [] || (!Rewrites(h, steps[0]) && NeverRewrites(Next(h, steps[0]), steps[1..]))
  }

  lemma {:induction false} BusyStaysLiveInRuns(h: Host, steps: seq<Step>)
    requires Inv(h) && BusyMeansLive(h)
    ensures AlwaysBusyMeansLive(h, steps) <==> NeverRewrites(h, steps)
    decreases |steps|
  {
    if steps != [] {
      BusyStaysLiveUnlessRewritten(h, steps[0]);
      if !Rewrites(h, steps[0]) {
        NextKeeps(h, steps[0]);
        BusyStaysLiveInRuns(Next(h, steps[0]), steps[1..]);
      }
    }
  }

  /** From the moment a host has recovered its tables, at every step a conversation
      that reads as busy has a live worker, exactly if no call rewrites a status. */
  lemma BusyIsLiveFromRecovery(conversations: map<string, Conversation>, order: seq<string>, steps: seq<Step>)
    requires Lists(order, conversations)
    ensures var h := Next(Initial(conversations), Restart(order));
      AlwaysBusyMeansLive(h, steps) <==> NeverRewrites(h, steps)
  {
    InitialHolds(conversations);
    NextKeeps(Initial(conversations), Restart(order));
    RestartRestoresIt(Initial(conversations), order);
    BusyStaysLiveInRuns(Next(Initial(conversations), Restart(order)), steps);
  }

  // ------------------------------------------------------------ the three inputs

  /** Stopping a worker that is already closing, or answering a question that it
      left open, rewrites its conversation's status, and nothing sets it back: it
      still reads as busy when no worker is left. */
  lemma StoppingAClosingWorkerLeavesItBusy(h: Host, id: string)
    requires h.active.Some? && h.active.value.finished && h.active.value.closing.Killing?
    requires h.active.value.stage.Settled? && h.active.value.steers == {}
    requires h.active.value.conversation in h.conversations
    ensures var c := h.active.value.conversation;
      var g := Next(Next(Next(h, Stop(c)), StopResolved), ReleaseResolved);
      && g.active.None? && c in g.conversations && g.conversations[c].status in BUSY
    ensures var c := h.active.value.conversation;
      var g := Next(Next(Next(h, Answer(c, id, true)), StopResolved), ReleaseResolved);
      IsOpen(h.active.value.approvals, id) ==>
        g.active.None? && c in g.conversations && g.conversations[c].status in BUSY
  {
  }

  lemma RunTwo(h: Host, a: Step, b: Step)
    ensures Run(h, [a, b]) == Next(Next(h, a), b)
  {
    assert [a, b][1..] == [b] && [b][1..] == [];
    assert Run(Next(h, a), [b]) == Run(Next(Next(h, a), b), []);
  }

  lemma RunOne(h: Host, a: Step)
    ensures Run(h, [a]) == Next(h, a)
  {
    assert [a][1..] == [];
  }

  lemma {:induction false} RunConcat(h: Host, first: seq<Step>, second: seq<Step>)
    ensures Run(h, first + second) == Run(Run(h, first), second)
    decreases |first|
  {
    if first == [] {
      assert first + second == second;
    } else {
      assert (first + second)[1..] == first[1..] + second;
      RunConcat(Next(h, first[0]), first[1..], second);
    }
  }

  /** A first worker whose process closed: finished, settled and closing. */
  predicate ClosedWorker(h: Host, c: string, approvals: seq<Question>) {
    && h.active.Some? && h.active.value.finished && h.active.value.closing.Killing?
    && h.active.value.stage.Settled? && h.active.value.steers == {}
    && h.active.value.conversation == c && c in h.conversations
    && h.active.value.approvals == approvals
  }

  lemma ExitCloses(h: Host)
    requires h.active.Some? && !h.active.value.exited && h.active.value.conversation in h.conversations
    requires h.active.value.finished ==> h.active.value.closing.Killing?
    ensures var g := Next(h, Exit);
      && ClosedWorker(g, h.active.value.conversation, h.active.value.approvals)
      && (h.active.value.finished ==> g.conversations == h.conversations)
  {
    var a := h.active.value;
    if !a.finished { FinishStatus(SetWorker(h, a.(exited := true)), a.conversation, "interrupted"); }
  }

  lemma FirstWorker(conversations: map<string, Conversation>, c: string, s: string)
    requires c in conversations
    ensures var h := Next(Initial(conversations), Submit(c, s, "", "", true));
      && h.active == Some(Worker(0, c, s, Initializing, {}, {}, [], false, Open, false))
      && c in h.conversations && h.conversations[c].thread == conversations[c].thread
  {
  }

  predicate BusyWithoutWorker(h: Host, c: string) {
    h.active.None? && c in h.conversations && h.conversations[c].status in BUSY
  }

  /** The first input, from any initial host: the process closes, and the user stops
      the conversation before the closing has ended. */
  lemma StopAfterExit(conversations: map<string, Conversation>, c: string, s: string)
    requires c in conversations
    ensures BusyWithoutWorker(
      History(conversations, [Submit(c, s, "", "", true), Exit] + [Stop(c), StopResolved] + [ReleaseResolved]), c)
  {
    var h := Initial(conversations);
    var first, second, third := [Submit(c, s, "", "", true), Exit], [Stop(c), StopResolved], [ReleaseResolved];
    FirstWorker(conversations, c, s);
    var g := Next(Next(h, first[0]), Exit);
    ExitCloses(Next(h, first[0]));
    StoppingAClosingWorkerLeavesItBusy(g, "");
    RunConcat(h, first + second, third);
    RunConcat(h, first, second);
    RunTwo(h, first[0], first[1]);
    RunTwo(g, second[0], second[1]);
    RunOne(Next(Next(g, second[0]), second[1]), third[0]);
  }

  /** The second input: a question is open when the process closes, and is answered
      before the closing has ended. */
  lemma AnswerAfterExit(conversations: map<string, Conversation>, c: string, s: string, q: Question)
    requires c in conversations
    ensures BusyWithoutWorker(
      History(conversations,
        [Submit(c, s, "", "", true), Emit(AskUser(q))] + [Exit, Answer(c, q.id, true)]
          + [StopResolved, ReleaseResolved]), c)
  {
    var h := Initial(conversations);
    var first, second, third :=
      [Submit(c, s, "", "", true), Emit(AskUser(q))], [Exit, Answer(c, q.id, true)], [StopResolved, ReleaseResolved];
    FirstWorker(conversations, c, s);
    var asked := Next(Next(h, first[0]), first[1]);
    assert asked.active == Some(Worker(0, c, s, Initializing, {}, {}, [q], false, Open, false));
    var g := Next(asked, Exit);
    ExitCloses(asked);
    assert q in g.active.value.approvals && IsOpen(g.active.value.approvals, q.id);
    StoppingAClosingWorkerLeavesItBusy(g, q.id);
    RunConcat(h, first + second, third);
    RunConcat(h, first, second);
    RunTwo(h, first[0], first[1]);
    RunTwo(asked, second[0], second[1]);
    RunTwo(Next(g, second[1]), third[0], third[1]);
  }

  /** The third input: the worker ends its turn with a status that reads as busy. */
  lemma TurnEndsBusy(conversations: map<string, Conversation>, c: string, s: string, status: string)
    requires c in conversations && status in BUSY
    ensures BusyWithoutWorker(
      History(conversations,
        [Submit(c, s, "", "", true), Emit(TurnCompleted(None, status))] + [Exit, StopResolved] + [ReleaseResolved]), c)
  {
    var h := Initial(conversations);
    var first, second, third :=
      [Submit(c, s, "", "", true), Emit(TurnCompleted(None, status))], [Exit, StopResolved], [ReleaseResolved];
    var started := Next(h, first[0]);
    FirstWorker(conversations, c, s);
    TurnEnded(started, c, status);
    var ended := Next(started, first[1]);
    RunConcat(h, first + second, third);
    RunConcat(h, first, second);
    RunTwo(h, first[0], first[1]);
    RunTwo(ended, second[0], second[1]);
    RunOne(Next(Next(ended, Exit), StopResolved), third[0]);
  }

  lemma TurnEnded(h: Host, c: string, status: string)
    requires h.active.Some? && h.active.value.conversation == c && c in h.conversations && status in BUSY
    requires !h.active.value.finished && !h.active.value.exited
    ensures var ended := Next(h, Emit(TurnCompleted(None, status)));
      BusyWithoutWorker(Next(Next(Next(ended, Exit), StopResolved), ReleaseResolved), c)
  {
    FinishStatus(h, c, status);
    var ended := Next(h, Emit(TurnCompleted(None, status)));
    assert ended == Finish(h, c, status) && ended.conversations[c].status == status;
    ExitCloses(ended);
  }

  lemma AskedFirst(conversations: map<string, Conversation>, c: string, s: string, q: Question)
    requires c in conversations
    ensures var h := History(conversations, [Submit(c, s, "", "", true), Emit(AskUser(q))]);
      && Agrees(h) && OpenQuestions(h, c) == [q] && h.conversations.Keys == conversations.Keys
  {
    var h := Initial(conversations);
    var steps := [Submit(c, s, "", "", true), Emit(AskUser(q))];
    FirstWorker(conversations, c, s);
    InitialHolds(conversations);
    RunTwo(h, steps[0], steps[1]);
    RunKeeps(h, steps);
    QuestionsShownAreOpen(h, steps);
  }

  lemma {:induction false} RecoveredHasNoWorker(h: Host, order: seq<string>)
    ensures Recovered(h, order).active.None?
    decreases |order|
  {
    if order != [] {
      if order[0] in h.conversations && h.conversations[order[0]].status in BUSY {
        RecoveredHasNoWorker(
          Say(SetTurn(SetStatus(h, order[0], "interrupted"), order[0], None), order[0], Status("interrupted")),
          order[1..]);
      } else {
        RecoveredHasNoWorker(h, order[1..]);
      }
    }
  }

  lemma RecoveredShows(h: Host, order: seq<string>, c: string)
    requires Shown(h.log, c) == OpenQuestions(h, c) != []
    ensures var g := Recovered(h, order);
      && g.active.None? && Shown(g.log, c) == OpenQuestions(h, c) && OpenQuestions(g, c) == []
      && !Agrees(g)
  {
    RecoveredShown(h, order);
    RecoveredHasNoWorker(h, order);
  }

  lemma RestartShows(conversations: map<string, Conversation>, steps: seq<Step>, order: seq<string>, c: string)
    requires var h := History(conversations, steps);
      && Agrees(h) && OpenQuestions(h, c) != []
      && h.conversations.Keys == conversations.Keys && Lists(order, conversations)
    ensures var h := History(conversations, steps + [Restart(order)]);
      && h.active.None? && Shown(h.log, c) == OpenQuestions(History(conversations, steps), c)
      && OpenQuestions(h, c) == [] && !Agrees(h)
  {
    var h := History(conversations, steps);
    RunConcat(Initial(conversations), steps, [Restart(order)]);
    RunOne(h, Restart(order));
    RecoveredShows(h, order, c);
  }

  /** A restart with a question open, from any initial host: the chat goes on showing
      it, and no worker is left to ask it. */
  lemma RestartWhileAsking(
      conversations: map<string, Conversation>, order: seq<string>, c: string, s: string, q: Question)
    requires c in conversations && Lists(order, conversations)
    ensures var h := History(conversations, [Submit(c, s, "", "", true), Emit(AskUser(q))] + [Restart(order)]);
      h.active.None? && Shown(h.log, c) == [q] && OpenQuestions(h, c) == [] && !Agrees(h)
  {
    AskedFirst(conversations, c, s, q);
    RestartShows(conversations, [Submit(c, s, "", "", true), Emit(AskUser(q))], order, c);
  }
}
