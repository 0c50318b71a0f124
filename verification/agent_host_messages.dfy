/** What becomes of a message: when it is recorded, whose worker it is sent to, and
    how its submission ends. */
module AgentHostMessages {
  import opened Common
  import opened ChatFold
  import opened AgentHost
  import opened AgentHostResults
  import opened AgentHostStatus

  // ------------------------------------------------------------- being recorded

  /** A new message is recorded exactly when its conversation is known and no worker
      is there, or the worker is its own conversation's, not finished, in the middle
      of a turn, and the style is the standard one. It is pending and in the log
      before anything is sent. In every other case nothing at all changes. */
  lemma SubmitMeans(h: Host, c: string, s: string, input: string, text: string, standard: bool)
    ensures var u := Next(h, Submit(c, s, input, text, standard));
      if c in h.conversations && s !in h.submissions
        && (h.active.Some? ==>
              && h.active.value.conversation == c && !h.active.value.finished
              && h.conversations[c].turn.Some? && standard)
      then
        && u.submissions == h.submissions[s := Submission(c, input, Pending)]
        && u.log == h.log + [Event(|h.log| + 1, c, User(text))]
        && (if h.active.Some? then
              && u.conversations == h.conversations && u.created == h.created && u.trace == h.trace + [Sent(s)]
              && u.active == Some(h.active.value.(steers := h.active.value.steers + {s}))
            else
              && u.conversations == h.conversations[c := h.conversations[c].(status := "starting")]
              && u.created == h.created + 1 && u.trace == h.trace + [Created(h.created)]
              && u.active == Some(Worker(h.created, c, s, Initializing, {}, {}, [], false, Open, false)))
      else u == h
  {
  }

  // ----------------------------------------------------------------- being sent

  predicate BelongsTo(submissions: Submissions, c: string, s: string) {
    s in submissions && submissions[s].conversation == c
  }

  /** What a worker was started with or steered by is its own conversation's. */
  predicate Belongs(h: Host) {
    h.active.Some? ==>
      && BelongsTo(h.submissions, h.active.value.conversation, h.active.value.first)
      && forall s | s in h.active.value.steers :: BelongsTo(h.submissions, h.active.value.conversation, s)
  }

  /** The same worker, further on. */
  predicate Continues(a: Worker, b: Worker) {
    b.id == a.id && b.conversation == a.conversation && b.first == a.first && b.steers <= a.steers
  }

  /** What a step does to a host that concerns messages already recorded. */
  ghost predicate Proceeds(h: Host, u: Host, sends: bool) {
    && (u.active.Some? ==> h.active.Some? && Continues(h.active.value, u.active.value))
    && (forall s :: Sent(s) in h.trace ==> Sent(s) in u.trace)
    && (forall s :: Sent(s) in u.trace ==>
          Sent(s) in h.trace || (sends && h.active.Some? && s == h.active.value.first))
  }

  lemma FinishProceeds(h: Host, c: string, status: string)
    ensures Proceeds(h, Finish(h, c, status), false)
  {
    if h.active.Some? && h.active.value.conversation == c && !h.active.value.finished {
      var a := h.active.value;
      var ended := MarkThat(SetTurn(SetStatus(h, c, status), c, None), Finished(a.id))
        .(active := Some(a.(finished := true, closing := Killing)));
      ResolveAllFrame(Say(ended, c, Status(status)), c, a.approvals);
      assert Finish(h, c, status).trace == h.trace + [Finished(a.id)];
    }
  }

  /** The worker's first message is sent by the answer to the thread request. */
  predicate SendsFirst(a: Worker, step: Step) {
    step.StartAnswered? && !a.exited && a.stage.Threading? && !a.finished
  }

  lemma StartProceeds(h: Host, value: string)
    requires h.active.Some? && !h.active.value.exited
    ensures Proceeds(h, StartStep(h, h.active.value, value), SendsFirst(h.active.value, StartAnswered(value)))
  {
  }

  lemma StartFailedProceeds(h: Host)
    requires h.active.Some?
    ensures Proceeds(h, StartFailed(h, h.active.value), false)
  {
    var a := h.active.value;
    FinishProceeds(SetWorker(SetState(h, a.first, Uncertain), a.(stage := Settled)), a.conversation, "failed");
  }

  lemma ExitedProceeds(h: Host)
    requires h.active.Some?
    ensures Proceeds(h, Exited(h, h.active.value), false)
  {
    var a := h.active.value;
    FinishProceeds(SetWorker(h, a.(exited := true)), a.conversation, "interrupted");
  }

  lemma HandledProceeds(h: Host, m: Message)
    requires h.active.Some?
    ensures Proceeds(h, Handled(h, h.active.value, m), false)
  {
    if m.TurnCompleted? { FinishProceeds(h, h.active.value.conversation, m.status); }
  }

  lemma SettledProceeds(h: Host, step: Step)
    requires h.active.Some?
    requires step.SteerAnswered? || step.SteerRejected? || step.ToolEnded?
      || step.StopResolved? || step.ReleaseResolved?
    ensures Proceeds(h, WorkerStep(h, h.active.value, step), false)
  {
  }

  lemma WorkerStepProceeds(h: Host, step: Step)
    requires h.active.Some?
    ensures Proceeds(h, WorkerStep(h, h.active.value, step), SendsFirst(h.active.value, step))
  {
    var a := h.active.value;
    match step
    case StartAnswered(value) => if !a.exited { StartProceeds(h, value); }
    case StartRejected => StartFailedProceeds(h);
    case Emit(m) => HandledProceeds(h, m);
    case Fail => FinishProceeds(h, a.conversation, "failed");
    case Exit => ExitedProceeds(h);
    case Submit(_, _, _, _, _) =>
    case Answer(_, _, _) =>
    case Stop(_) =>
    case Restart(_) =>
    case _ => SettledProceeds(h, step);
  }

  /** Of all steps only two send a message: a submission that steers its own
      conversation's worker, and the start of a worker with its first message. */
  lemma StepProceeds(h: Host, step: Step)
    requires !step.Submit?
    ensures Proceeds(h, Next(h, step), h.active.Some? && SendsFirst(h.active.value, step))
  {
    match step
    case Answer(_, _, _) =>
    case Stop(c) => FinishProceeds(SetStatus(h, c, "stopping"), c, "interrupted");
    case Restart(order) => if Lists(order, h.conversations) { RecoveredProceeds(h, order); }
    case _ => if h.active.Some? { WorkerStepProceeds(h, step); }
  }

  lemma RecoveredProceeds(h: Host, order: seq<string>)
    ensures Proceeds(h, Recovered(h, order), false)
  {
    RecoveredTrace(h, order);
    RecoveredHasNoWorker(h, order);
  }

  lemma StepBelongs(h: Host, step: Step)
    requires Belongs(h)
    ensures Belongs(Next(h, step))
  {
    if step.Submit? {
      SubmitMeans(h, step.conversation, step.submission, step.input, step.text, step.standard);
    } else {
      StepProceeds(h, step);
      StepPreserves(h, step);
    }
  }

  lemma {:induction false} RunBelongs(h: Host, steps: seq<Step>)
    requires Belongs(h)
    ensures Belongs(Run(h, steps))
    decreases |steps|
  {
    if steps != [] {
      StepBelongs(h, steps[0]);
      RunBelongs(Next(h, steps[0]), steps[1..]);
    }
  }

  /** The k-th step records the message for the conversation it was submitted to. */
  ghost predicate RecordsAt(h0: Host, steps: seq<Step>, k: nat, s: string) {
    && k < |steps| && steps[k].Submit? && steps[k].submission == s
    && s !in Run(h0, steps[..k]).submissions
    && var u := Next(Run(h0, steps[..k]), steps[k]);
       s in u.submissions && u.submissions[s] == Submission(steps[k].conversation, steps[k].input, Pending)
  }

  /** The k-th step sends the message, to a worker that was not finished. */
  ghost predicate SendsAt(h0: Host, steps: seq<Step>, k: nat, s: string) {
    && k < |steps| && Sent(s) !in Run(h0, steps[..k]).trace
    && var h, u := Run(h0, steps[..k]), Next(Run(h0, steps[..k]), steps[k]);
    && Sent(s) in u.trace
    && h.active.Some? && !h.active.value.finished && !h.active.value.exited
    && u.active.Some? && !u.active.value.finished && u.active.value.id == h.active.value.id
    && (s == u.active.value.first || s in u.active.value.steers)
    && BelongsTo(u.submissions, u.active.value.conversation, s)
  }

  /** What is sent by a step is sent to the conversation's own worker. */
  lemma SentNow(h: Host, step: Step, s: string)
    requires Inv(h) && Belongs(h) && Sent(s) !in h.trace && Sent(s) in Next(h, step).trace
    ensures var u := Next(h, step);
      && h.active.Some? && !h.active.value.finished && !h.active.value.exited
      && u.active.Some? && !u.active.value.finished && u.active.value.id == h.active.value.id
      && (s == u.active.value.first || s in u.active.value.steers)
      && BelongsTo(u.submissions, u.active.value.conversation, s)
  {
    StepBelongs(h, step);
    if step.Submit? {
      SubmitMeans(h, step.conversation, step.submission, step.input, step.text, step.standard);
    } else {
      StepProceeds(h, step);
      var a := h.active.value;
      assert SendsFirst(a, step) && s == a.first;
      assert Next(h, step) == StartStep(h, a, step.value);
    }
  }

  lemma RunSnoc(h: Host, steps: seq<Step>, step: Step)
    ensures Run(h, steps + [step]) == Next(Run(h, steps), step)
  {
    RunConcat(h, steps, [step]);
    RunOne(Run(h, steps), step);
  }

  lemma {:induction false} SentSometime(h0: Host, steps: seq<Step>, s: string)
    requires Inv(h0) && Belongs(h0) && Sent(s) !in h0.trace && Sent(s) in Run(h0, steps).trace
    ensures exists k: nat :: SendsAt(h0, steps, k, s)
    decreases |steps|
  {
    var init, step := steps[..|steps| - 1], steps[|steps| - 1];
    assert steps == init + [step];
    RunSnoc(h0, init, step);
    if Sent(s) in Run(h0, init).trace {
      SentSometime(h0, init, s);
      var k: nat :| SendsAt(h0, init, k, s);
      assert steps[..k] == init[..k];
      assert SendsAt(h0, steps, k, s);
    } else {
      RunKeeps(h0, init);
      RunBelongs(h0, init);
      SentNow(Run(h0, init), step, s);
      assert SendsAt(h0, steps, |init|, s);
    }
  }

  lemma NewSubmissions(h: Host, step: Step, s: string)
    requires s !in h.submissions && s in Next(h, step).submissions
    ensures step.Submit? && step.submission == s
    ensures Next(h, step).submissions[s] == Submission(step.conversation, step.input, Pending)
  {
    if step.Submit? {
      SubmitMeans(h, step.conversation, step.submission, step.input, step.text, step.standard);
    } else {
      NoNewSubmissions(h, step);
    }
  }

  lemma {:induction false} RecoveredNames(h: Host, order: seq<string>)
    ensures Recovered(h, order).submissions.Keys == h.submissions.Keys
    decreases |order|
  {
    if order != [] {
      if order[0] in h.conversations && h.conversations[order[0]].status in BUSY {
        RecoveredNames(
          Say(SetTurn(SetStatus(h, order[0], "interrupted"), order[0], None), order[0], Status("interrupted")),
          order[1..]);
      } else {
        RecoveredNames(h, order[1..]);
      }
    }
  }

  lemma NoNewSubmissions(h: Host, step: Step)
    requires !step.Submit?
    ensures Next(h, step).submissions.Keys == h.submissions.Keys
  {
    match step
    case Answer(_, _, _) =>
    case Stop(c) => FinishPreserves(SetStatus(h, c, "stopping"), c, "interrupted");
    case Restart(order) => RecoveredNames(h, order);
    case _ => if h.active.Some? { WorkerStepNames(h, step); }
  }

  lemma WorkerStepNames(h: Host, step: Step)
    requires h.active.Some?
    ensures WorkerStep(h, h.active.value, step).submissions.Keys == h.submissions.Keys
  {
    var a := h.active.value;
    match step
    case StartRejected =>
      FinishPreserves(SetWorker(SetState(h, a.first, Uncertain), a.(stage := Settled)), a.conversation, "failed");
    case Emit(m) => HandledPreserves(h, a, m);
    case Fail => FinishPreserves(h, a.conversation, "failed");
    case Exit => FinishPreserves(SetWorker(h, a.(exited := true)), a.conversation, "interrupted");
    case _ =>
  }

  lemma {:induction false} RecordedSometime(h0: Host, steps: seq<Step>, s: string)
    requires s !in h0.submissions && s in Run(h0, steps).submissions
    ensures exists k: nat :: RecordsAt(h0, steps, k, s)
    decreases |steps|
  {
    var init, step := steps[..|steps| - 1], steps[|steps| - 1];
    assert steps == init + [step];
    RunSnoc(h0, init, step);
    if s in Run(h0, init).submissions {
      RecordedSometime(h0, init, s);
      var k: nat :| RecordsAt(h0, init, k, s);
      assert steps[..k] == init[..k];
      assert RecordsAt(h0, steps, k, s);
    } else {
      NewSubmissions(Run(h0, init), step, s);
      assert RecordsAt(h0, steps, |init|, s);
    }
  }

  /** Over every run: what was sent, was sent to an unfinished worker of the very
      conversation it was submitted to, with the content it was submitted with. */
  lemma SentToItsOwnConversation(conversations: map<string, Conversation>, steps: seq<Step>, s: string)
    requires Sent(s) in History(conversations, steps).trace
    ensures var h0 := Initial(conversations); var h := History(conversations, steps);
      && (exists k: nat :: SendsAt(h0, steps, k, s))
      && exists k: nat :: RecordsAt(h0, steps, k, s)
           && BelongsTo(h.submissions, steps[k].conversation, s) && h.submissions[s].input == steps[k].input
  {
    var h0 := Initial(conversations);
    InitialHolds(conversations);
    RunKeeps(h0, steps);
    SentSometime(h0, steps, s);
    RecordedSometime(h0, steps, s);
    var k: nat :| RecordsAt(h0, steps, k, s);
    KeptSince(h0, steps, k, s);
  }

  lemma {:induction false} RunPreserves(h: Host, steps: seq<Step>, s: string)
    requires s in h.submissions
    ensures var u := Run(h, steps);
      && s in u.submissions && u.submissions[s].conversation == h.submissions[s].conversation
      && u.submissions[s].input == h.submissions[s].input
    decreases |steps|
  {
    if steps != [] {
      StepPreserves(h, steps[0]);
      RunPreserves(Next(h, steps[0]), steps[1..], s);
    }
  }

  lemma KeptSince(h0: Host, steps: seq<Step>, k: nat, s: string)
    requires RecordsAt(h0, steps, k, s)
    ensures var h := Run(h0, steps);
      BelongsTo(h.submissions, steps[k].conversation, s) && h.submissions[s].input == steps[k].input
  {
    assert steps == steps[..k] + steps[k..] && steps[k..][1..] == steps[k + 1..];
    RunConcat(h0, steps[..k], steps[k..]);
    RunPreserves(Next(Run(h0, steps[..k]), steps[k]), steps[k + 1..], s);
  }

  /** Over every run: whatever worker there is was started with, and is being steered
      by, messages of its own conversation. */
  lemma WorkersServeTheirConversation(conversations: map<string, Conversation>, steps: seq<Step>)
    ensures Belongs(History(conversations, steps))
  {
    RunBelongs(Initial(conversations), steps);
  }
}
