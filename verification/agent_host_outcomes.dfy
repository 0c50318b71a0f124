/** How submissions end, what a restart makes of them, and whom the host listens to. */
module AgentHostOutcomes {
  import opened Common
  import opened ChatFold
  import opened AgentHost
  import opened AgentHostResults
  import opened AgentHostStatus
  import opened AgentHostMessages

  // ----------------------------------------------------------- outcomes are final

  predicate IsPending(submissions: Submissions, s: string) {
    s in submissions && submissions[s].state.Pending?
  }

  /** What is still to be answered is pending. */
  predicate Waits(submissions: Submissions, a: Worker) {
    && (a.stage.Settled? || IsPending(submissions, a.first))
    && a.first !in a.steers
    && forall s | s in a.steers :: IsPending(submissions, s)
  }

  predicate Awaited(h: Host) {
    h.active.Some? ==> h.active.value.first in h.submissions && Waits(h.submissions, h.active.value)
  }

  /** Outcomes that are there stay. */
  predicate Settles(before: Submissions, after: Submissions) {
    forall s | s in before && !before[s].state.Pending? :: s in after && after[s] == before[s]
  }

  lemma FinishWaits(h: Host, c: string, status: string)
    requires Awaited(h)
    ensures var u := Finish(h, c, status); Awaited(u) && u.submissions == h.submissions
    ensures h.active.Some? && h.active.value.conversation == c && !h.active.value.finished ==>
      Finish(h, c, status).active == Some(h.active.value.(finished := true, closing := Killing))
  {
    if h.active.Some? && h.active.value.conversation == c && !h.active.value.finished {
      var a := h.active.value;
      var ended := MarkThat(SetTurn(SetStatus(h, c, status), c, None), Finished(a.id))
        .(active := Some(a.(finished := true, closing := Killing)));
      ResolveAllFrame(Say(ended, c, Status(status)), c, a.approvals);
    }
  }

  lemma StartWaits(h: Host, value: string)
    requires Awaited(h) && h.active.Some?
    ensures var u := StartStep(h, h.active.value, value); Awaited(u) && Settles(h.submissions, u.submissions)
  {
  }

  lemma StartFailedWaits(h: Host)
    requires Awaited(h) && h.active.Some?
    ensures var u := StartFailed(h, h.active.value); Awaited(u) && Settles(h.submissions, u.submissions)
  {
    var a := h.active.value;
    if !a.stage.Settled? {
      FinishWaits(SetWorker(SetState(h, a.first, Uncertain), a.(stage := Settled)), a.conversation, "failed");
    }
  }

  lemma ExitedWaits(h: Host)
    requires Awaited(h) && h.active.Some?
    ensures var u := Exited(h, h.active.value); Awaited(u) && Settles(h.submissions, u.submissions)
  {
    var a := h.active.value;
    FinishWaits(SetWorker(h, a.(exited := true)), a.conversation, "interrupted");
  }

  lemma HandledWaits(h: Host, m: Message)
    requires Awaited(h) && h.active.Some?
    ensures var u := Handled(h, h.active.value, m); Awaited(u) && u.submissions == h.submissions
  {
    if m.TurnCompleted? { FinishWaits(h, h.active.value.conversation, m.status); }
  }

  lemma SteeredWaits(h: Host, s: string, state: SubmissionState)
    requires Awaited(h) && h.active.Some?
    ensures var u := Steered(h, h.active.value, s, state); Awaited(u) && Settles(h.submissions, u.submissions)
  {
  }

  lemma WorkerStepWaits(h: Host, step: Step)
    requires Awaited(h) && h.active.Some?
    ensures var u := WorkerStep(h, h.active.value, step); Awaited(u) && Settles(h.submissions, u.submissions)
  {
    var a := h.active.value;
    match step
    case StartAnswered(value) => StartWaits(h, value);
    case StartRejected => StartFailedWaits(h);
    case Emit(m) => HandledWaits(h, m);
    case Fail => FinishWaits(h, a.conversation, "failed");
    case Exit => ExitedWaits(h);
    case SteerAnswered(s) => SteeredWaits(h, s, Accepted);
    case SteerRejected(s) => SteeredWaits(h, s, Uncertain);
    case _ =>
  }

  lemma StepWaits(h: Host, step: Step)
    requires Awaited(h)
    ensures var u := Next(h, step); Awaited(u) && Settles(h.submissions, u.submissions)
  {
    match step
    case Submit(c, s, input, text, standard) => SubmitMeans(h, c, s, input, text, standard);
    case Answer(_, _, _) =>
    case Stop(c) => FinishWaits(SetStatus(h, c, "stopping"), c, "interrupted");
    case Restart(order) => if Lists(order, h.conversations) { RecoveredSubmissions(h, order); }
    case _ => if h.active.Some? { WorkerStepWaits(h, step); }
  }

  /** Over every run: accepted, uncertain and interrupted are final, restarts included. */
  lemma OutcomesAreFinal(conversations: map<string, Conversation>, steps: seq<Step>, more: seq<Step>)
    ensures Settles(History(conversations, steps).submissions, History(conversations, steps + more).submissions)
  {
    AwaitedThroughout(Initial(conversations), steps);
    RunConcat(Initial(conversations), steps, more);
    AwaitedThroughout(Run(Initial(conversations), steps), more);
  }

  lemma {:induction false} AwaitedThroughout(h: Host, steps: seq<Step>)
    requires Awaited(h)
    ensures Awaited(Run(h, steps)) && Settles(h.submissions, Run(h, steps).submissions)
    decreases |steps|
  {
    if steps != [] {
      StepWaits(h, steps[0]);
      AwaitedThroughout(Next(h, steps[0]), steps[1..]);
    }
  }

  // ------------------------------------------------------------ each way to end

  /** The answers that start a worker: a thread, then a turn. The message it was
      started with is accepted, and its conversation runs that turn. */
  lemma MessagesStartWorkers(
      h: Host, c: string, s: string, input: string, text: string, standard: bool,
      ready: string, thread: string, turn: string)
    requires h.active.None? && c in h.conversations && s !in h.submissions
    ensures var u := Next(Next(Next(Next(h, Submit(c, s, input, text, standard)),
                       StartAnswered(ready)), StartAnswered(thread)), StartAnswered(turn));
      && u.submissions == h.submissions[s := Submission(c, input, Accepted)]
      && u.conversations == h.conversations[c := Conversation(Some(thread), Some(turn), "running")]
      && u.trace == h.trace + [Created(h.created), Sent(s), Acknowledged(s)]
      && u.active.Some? && u.active.value.conversation == c && u.active.value.stage.Settled?
      && !u.active.value.finished
  {
    SubmitMeans(h, c, s, input, text, standard);
    var h1 := Next(h, Submit(c, s, input, text, standard));
    var h2 := Next(h1, StartAnswered(ready));
    assert h2 == h1.(active := Some(h1.active.value.(stage := Threading)));
    ThreadAnswered(h2, thread);
    var h3 := Next(h2, StartAnswered(thread));
    TurnAnswered(h3, turn);
  }

  lemma ThreadAnswered(h: Host, thread: string)
    requires h.active.Some? && !h.active.value.finished && !h.active.value.exited && h.active.value.stage.Threading?
    requires h.active.value.conversation in h.conversations
    ensures var a := h.active.value; var u := Next(h, StartAnswered(thread));
      && u.submissions == h.submissions && u.trace == h.trace + [Sent(a.first)] && u.log == h.log
      && u.conversations ==
           h.conversations[a.conversation := h.conversations[a.conversation].(thread := Some(thread))]
      && u.active == Some(a.(stage := Turning))
  {
  }

  lemma TurnAnswered(h: Host, turn: string)
    requires h.active.Some? && !h.active.value.finished && !h.active.value.exited && h.active.value.stage.Turning?
    requires h.active.value.conversation in h.conversations && h.active.value.first in h.submissions
    ensures var a := h.active.value; var u := Next(h, StartAnswered(turn));
      && u.submissions == h.submissions[a.first := h.submissions[a.first].(state := Accepted)]
      && u.trace == h.trace + [Acknowledged(a.first)] && u.log == h.log
      && u.conversations == h.conversations[a.conversation :=
           h.conversations[a.conversation].(turn := Some(turn), status := "running")]
      && u.active == Some(a.(stage := Settled))
  {
  }

  /** A message sent into a turn is accepted or uncertain as the worker answers; nothing
      else changes. */
  lemma SteeringAnswers(h: Host, s: string)
    requires h.active.Some? && s in h.active.value.steers && s in h.submissions
    ensures var a := h.active.value; var rest := a.(steers := a.steers - {s});
      && Next(h, SteerAnswered(s)) == h.(
           active := Some(rest), trace := h.trace + [Acknowledged(s)],
           submissions := h.submissions[s := h.submissions[s].(state := Accepted)])
      && Next(h, SteerRejected(s)) == h.(
           active := Some(rest), submissions := h.submissions[s := h.submissions[s].(state := Uncertain)])
  {
  }

  /** The turn of a conversation is over. */
  predicate EndsTurn(h: Host, u: Host, c: string, status: string) {
    && c in h.conversations
    && u.conversations == h.conversations[c := h.conversations[c].(status := status, turn := None)]
    && u.active.Some? && u.active.value.finished && u.active.value.closing.Killing?
    && |u.log| > |h.log| && u.log[..|h.log|] == h.log
    && u.log[|h.log|] == Event(|h.log| + 1, c, Status(status))
  }

  lemma {:induction false} ResolvedLog(h: Host, c: string, qs: seq<Question>)
    ensures h.log <= ResolveAll(h, c, qs).log
    decreases |qs|
  {
    if qs != [] { ResolvedLog(Say(h, c, Resolved(qs[0].id)), c, qs[1..]); }
  }

  lemma FinishEndsTurn(h: Host, c: string, status: string)
    requires h.active.Some? && h.active.value.conversation == c && !h.active.value.finished && c in h.conversations
    ensures var u := Finish(h, c, status); EndsTurn(h, u, c, status) && u.submissions == h.submissions
  {
    var a := h.active.value;
    var ended := MarkThat(SetTurn(SetStatus(h, c, status), c, None), Finished(a.id))
      .(active := Some(a.(finished := true, closing := Killing)));
    var said := Say(ended, c, Status(status));
    ResolveAllFrame(said, c, a.approvals);
    ResolvedLog(said, c, a.approvals);
    assert said.log == h.log + [Event(|h.log| + 1, c, Status(status))];
    assert Finish(h, c, status).log[..|h.log|] == said.log[..|h.log|] == h.log;
  }

  lemma StopEndsTurn(h: Host, c: string)
    requires h.active.Some? && h.active.value.conversation == c && !h.active.value.finished && c in h.conversations
    ensures var u := Next(h, Stop(c)); EndsTurn(h, u, c, "interrupted") && u.submissions == h.submissions
  {
    FinishEndsTurn(SetStatus(h, c, "stopping"), c, "interrupted");
  }

  /** A worker that is not finished, and a message that is not about another thread. */
  predicate Heard(h: Host, c: string, thread: Option<string>) {
    && h.active.Some? && h.active.value.conversation == c
    && !h.active.value.finished && !h.active.value.exited && c in h.conversations
    && (thread.Some? && h.conversations[c].thread.Some? ==> thread == h.conversations[c].thread)
  }

  /** Stopping, a failure and a completed turn end the turn of an unfinished worker
      with their status, and leave every submission as it is. */
  lemma WaysToEndATurn(h: Host, c: string, thread: Option<string>, status: string)
    requires Heard(h, c, thread)
    ensures var u := Next(h, Stop(c)); EndsTurn(h, u, c, "interrupted") && u.submissions == h.submissions
    ensures var u := Next(h, Fail); EndsTurn(h, u, c, "failed") && u.submissions == h.submissions
    ensures var u := Next(h, Emit(TurnCompleted(thread, status)));
      EndsTurn(h, u, c, status) && u.submissions == h.submissions
  {
    StopEndsTurn(h, c);
    FinishEndsTurn(h, c, "failed");
    FinishEndsTurn(h, c, status);
  }

  /** A turn that has begun is the conversation's from then on. */
  lemma TurnsBegin(h: Host, c: string, thread: Option<string>, turn: string)
    requires Heard(h, c, thread)
    ensures var u := Next(h, Emit(TurnStarted(thread, turn)));
      && u.conversations == h.conversations[c := h.conversations[c].(turn := Some(turn), status := "running")]
      && u.log == h.log + [Event(|h.log| + 1, c, Status("running"))] && u.submissions == h.submissions
  {
  }

  /** A start that is rejected leaves its message uncertain and fails the turn. */
  lemma RejectedStartsFail(h: Host)
    requires h.active.Some? && !h.active.value.finished && !h.active.value.exited && !h.active.value.stage.Settled?
    requires h.active.value.conversation in h.conversations && h.active.value.first in h.submissions
    ensures var a := h.active.value; var u := Next(h, StartRejected);
      && u.submissions == h.submissions[a.first := h.submissions[a.first].(state := Uncertain)]
      && EndsTurn(h, u, a.conversation, "failed")
  {
    var a := h.active.value;
    var uncertain := SetWorker(SetState(h, a.first, Uncertain), a.(stage := Settled));
    FinishEndsTurn(uncertain, a.conversation, "failed");
    assert EndsTurn(h, Finish(uncertain, a.conversation, "failed"), a.conversation, "failed");
  }

  /** When the worker's process is gone, all it had not answered is uncertain, nothing
      else is rewritten, and the turn is interrupted unless it was over. */
  lemma ExitLeavesUncertain(h: Host)
    requires h.active.Some? && !h.active.value.exited && h.active.value.conversation in h.conversations
    ensures var a := h.active.value; var u := Next(h, Exit);
      && u.submissions.Keys == h.submissions.Keys
      && (forall s | s in h.submissions :: u.submissions[s] ==
            if s in a.steers || (s == a.first && !a.stage.Settled?) then h.submissions[s].(state := Uncertain)
            else h.submissions[s])
      && u.active.Some? && u.active.value.exited && u.active.value.finished
      && (if a.finished then u.conversations == h.conversations && u.log == h.log
          else EndsTurn(h, u, a.conversation, "interrupted"))
  {
    var a := h.active.value;
    var gone := SetWorker(h, a.(exited := true));
    if !a.finished {
      FinishEndsTurn(gone, a.conversation, "interrupted");
      FinishIgnoresExit(h, a.conversation);
      FinishWorker(h, a.conversation);
    }
  }

  lemma FinishWorker(h: Host, c: string)
    requires h.active.Some? && h.active.value.conversation == c && !h.active.value.finished
    ensures Finish(h, c, "interrupted").active == Some(h.active.value.(finished := true, closing := Killing))
  {
    var a := h.active.value;
    var ended := MarkThat(SetTurn(SetStatus(h, c, "interrupted"), c, None), Finished(a.id))
      .(active := Some(a.(finished := true, closing := Killing)));
    ResolveAllFrame(Say(ended, c, Status("interrupted")), c, a.approvals);
  }

  // ------------------------------------------------------------------- restarts

  lemma {:induction false} RecoveredSubmissions(h: Host, order: seq<string>)
    ensures var u := Recovered(h, order);
      && u.active.None? && u.submissions.Keys == h.submissions.Keys
      && forall s | s in h.submissions ::
           u.submissions[s] == (
             if h.submissions[s].state.Pending? then h.submissions[s].(state := Interrupted) else h.submissions[s])
    decreases |order|
  {
    if order != [] {
      if order[0] in h.conversations && h.conversations[order[0]].status in BUSY {
        RecoveredSubmissions(
          Say(SetTurn(SetStatus(h, order[0], "interrupted"), order[0], None), order[0], Status("interrupted")),
          order[1..]);
      } else {
        RecoveredSubmissions(h, order[1..]);
      }
    }
  }

  /** After a restart there is no worker, a submission that was pending reads as
      interrupted, and every other reads as before. */
  lemma RestartInterrupts(h: Host, order: seq<string>, c: string, s: string, input: string)
    requires Lists(order, h.conversations)
    ensures var u := Next(h, Restart(order));
      && u.active.None? && u.submissions.Keys == h.submissions.Keys
      && (forall r | r in h.submissions :: u.submissions[r] ==
            if h.submissions[r].state.Pending? then h.submissions[r].(state := Interrupted) else h.submissions[r])
      && Told(u, c, s, input) ==
           if Told(h, c, s, input) == Some(Ok(Pending)) then Some(Ok(Interrupted)) else Told(h, c, s, input)
  {
    RecoveredSubmissions(h, order);
  }

  // ------------------------------------------------------ whom the host listens to

  /** A finished worker is not heard, nor is one whose process is gone, nor a message
      about another thread. */
  lemma NotHeard(h: Host, m: Message)
    requires h.active.Some?
    requires
      || h.active.value.finished || h.active.value.exited
      || (&& (m.TurnStarted? || m.Report? || m.RequestResolved? || m.TurnCompleted?)
          && h.active.value.conversation in h.conversations
          && var own := h.conversations[h.active.value.conversation].thread;
             own.Some? && m.thread.Some? && own != m.thread)
    ensures Next(h, Emit(m)) == h
  {
  }

  /** A tool call is taken up exactly from the worker's own thread and turn. */
  lemma ToolCallsAreChecked(h: Host, call: string, thread: Option<string>, turn: Option<string>)
    requires h.active.Some? && !h.active.value.finished && !h.active.value.exited
    requires h.active.value.conversation in h.conversations
    ensures var a := h.active.value; var c := h.conversations[a.conversation];
      Next(h, Emit(ToolCall(call, thread, turn))) == (
        if c.thread.Some? && thread == c.thread && (c.turn.Some? ==> turn == c.turn)
        then h.(active := Some(a.(tools := a.tools + {call}))) else h)
  {
  }

  /** A question makes its conversation wait, and its answer lets it run again. */
  lemma QuestionsMakeItWait(h: Host, q: Question)
    requires h.active.Some? && !h.active.value.finished && !h.active.value.exited
    requires h.active.value.conversation in h.conversations
    ensures var c := h.active.value.conversation; var u := Next(h, Emit(AskUser(q)));
      && u.conversations == h.conversations[c := h.conversations[c].(status := "waiting")]
      && u.active.Some? && q in u.active.value.approvals
      && u.log == h.log + [Event(|h.log| + 1, c, Asked(q))]
      && var v := Next(u, Answer(c, q.id, true));
      && v.conversations == h.conversations[c := h.conversations[c].(status := "running")]
      && v.active.Some? && (forall r | r in v.active.value.approvals :: r.id != q.id)
      && v.log == u.log + [Event(|u.log| + 1, c, Resolved(q.id))]
  {
    var a := h.active.value;
    SetQuestionHas(a.approvals, q);
    DeleteQuestionMeans(SetQuestion(a.approvals, q), q.id);
  }

  lemma {:induction false} SetQuestionHas(qs: seq<Question>, q: Question)
    ensures q in SetQuestion(qs, q)
  {
    if qs != [] && qs[0].id != q.id { SetQuestionHas(qs[1..], q); }
  }

  /** A worker that has finished is stopped once all it was asked is settled, and then
      released; only then is there room for another. */
  lemma ClosingInOrder(h: Host)
    requires Inv(h) && h.active.Some?
    ensures var a := h.active.value; var u := Next(h, StopResolved);
      if a.closing.Killing? && a.stage.Settled? && a.steers == {}
      then u.active == Some(a.(closing := Releasing)) && u.trace == h.trace + [Stopped(a.id)] else u == h
    ensures var a := h.active.value; var u := Next(h, ReleaseResolved);
      if a.closing.Releasing? then u.active.None? && u.trace == h.trace + [Released(a.id)] else u == h
  {
  }

  /** What an unfinished worker reports is logged for its conversation, word for word. */
  lemma ReportsAreLogged(h: Host, c: string, thread: Option<string>, body: Body)
    requires Heard(h, c, thread)
    requires body.Delta? || body.Message? || body.Diff? || body.Usage? || body.Notice?
    ensures Next(h, Emit(Report(thread, body))) == h.(log := h.log + [Event(|h.log| + 1, c, body)])
    ensures Next(h, Emit(AskApproval)) == h.(log := h.log + [Event(|h.log| + 1, c, Notice)])
  {
  }

  /** A tool call that ends is over. Its result is evidence, and its failure a notice,
      unless the worker has finished meanwhile. */
  lemma ToolCallsEnd(h: Host, call: string, succeeded: bool)
    requires h.active.Some? && call in h.active.value.tools
    ensures var a := h.active.value; var u := Next(h, ToolEnded(call, succeeded));
      && u.active == Some(a.(tools := a.tools - {call}))
      && u.conversations == h.conversations && u.submissions == h.submissions
      && (a.finished ==> u.log == h.log && u.trace == h.trace)
      && (!a.finished ==>
            && u.log == h.log + [Event(|h.log| + 1, a.conversation, if succeeded then Evidence(a.id) else Notice)]
            && u.trace == if succeeded then h.trace + [Recorded(a.id)] else h.trace)
  {
  }

  /** A worker that finishes before its thread is there sends nothing: its start is
      over, so that it can be stopped. */
  lemma FinishedStartsSendNothing(h: Host, thread: string)
    requires h.active.Some? && h.active.value.finished && !h.active.value.exited && h.active.value.stage.Threading?
    ensures Next(h, StartAnswered(thread)) == h.(active := Some(h.active.value.(stage := Settled)))
  {
  }
}
