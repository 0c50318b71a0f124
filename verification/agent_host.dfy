/** What a chat shows of its event log: the fold of the log into messages and
    into the questions that are still open. */
module ChatFold {
  datatype Question = Question(id: string, text: string)

  datatype Body =
    | User(text: string)
    | Delta(item: string, text: string)
    | Message(item: string, text: string, phase: string)
    | Asked(question: Question)
    | Resolved(id: string)
    | Status(status: string)
    | Evidence(worker: nat)
    | Notice
    | Usage
    | Diff

  datatype Event = Event(seq_: nat, conversation: string, body: Body)

  /** A JavaScript Map keeps the place of a key that is set again. */
  function SetQuestion(qs: seq<Question>, q: Question): seq<Question> {
    if qs == [] then [q] else if qs[0].id == q.id then [q] + qs[1..] else [qs[0]] + SetQuestion(qs[1..], q)
  }

  function DeleteQuestion(qs: seq<Question>, id: string): seq<Question> {
    if qs == [] then []
    else if qs[0].id == id then DeleteQuestion(qs[1..], id)
    else [qs[0]] + DeleteQuestion(qs[1..], id)
  }

  function Show(qs: seq<Question>, body: Body): seq<Question> {
    match body
    case Asked(q) => SetQuestion(qs, q)
    case Resolved(id) => DeleteQuestion(qs, id)
    case _ => qs
  }

  /** The questions shown for one conversation after a log. */
  function Shown(log: seq<Event>, conversation: string): seq<Question> {
    if log == [] then []
    else
      var last := log[|log| - 1];
      var before := Shown(log[..|log| - 1], conversation);
      if last.conversation == conversation then Show(before, last.body) else before
  }

  lemma ShownNext(log: seq<Event>, event: Event, conversation: string)
    ensures Shown(log + [event], conversation) ==
      if event.conversation == conversation then Show(Shown(log, conversation), event.body)
      else Shown(log, conversation)
  {
    assert (log + [event])[..|log|] == log;
  }

  function DeleteAll(qs: seq<Question>, gone: seq<Question>): seq<Question>
    decreases |gone|
  {
    if gone == [] then qs else DeleteAll(DeleteQuestion(qs, gone[0].id), gone[1..])
  }

  lemma {:induction false} DeleteQuestionMeans(qs: seq<Question>, id: string)
    ensures forall q :: q in DeleteQuestion(qs, id) <==> q in qs && q.id != id
  {
    if qs != [] { DeleteQuestionMeans(qs[1..], id); }
  }

  lemma {:induction false} DeleteAllMeans(qs: seq<Question>, gone: seq<Question>)
    ensures forall q :: q in DeleteAll(qs, gone) ==> q in qs && q !in gone
    decreases |gone|
  {
    if gone != [] {
      DeleteQuestionMeans(qs, gone[0].id);
      DeleteAllMeans(DeleteQuestion(qs, gone[0].id), gone[1..]);
    }
  }

  /** Resolving every open question leaves none. */
  lemma DeleteAllEmpties(qs: seq<Question>)
    ensures DeleteAll(qs, qs) == []
  {
    var left := DeleteAll(qs, qs);
    if left != [] {
      var q := left[0];
      assert q in left;
      DeleteAllMeans(qs, qs);
    }
  }
}

/** The agent host as a state machine: one worker at a time, submissions with a
    durable state, questions, and a finish that spans two awaits. Each step is
    one stretch of host code between awaits.

    What a worker was asked is answered or rejected before its `stop()` resolves. */
module AgentHost {
  import opened Common
  import opened ChatFold

  datatype Conversation = Conversation(thread: Option<string>, turn: Option<string>, status: string)

  datatype SubmissionState = Pending | Accepted | Uncertain | Interrupted

  datatype Submission = Submission(conversation: string, input: string, state: SubmissionState)

  /** The request the start of a worker is waiting for. */
  datatype Stage = Initializing | Threading | Turning | Settled

  datatype Closing = Open | Killing | Releasing

  datatype Worker = Worker(
    id: nat, conversation: string, first: string, stage: Stage,
    steers: set<string>,           // steering requests without an answer
    tools: set<string>,            // tool calls under way
    approvals: seq<Question>,
    finished: bool, closing: Closing, exited: bool)

  /** Bookkeeping of what happened, in order. */
  datatype Mark =
    | Created(worker: nat)
    | Sent(submission: string)
    | Acknowledged(submission: string)
    | Recorded(worker: nat)
    | Finished(worker: nat)
    | Stopped(worker: nat)
    | Released(worker: nat)
    | Restarted

  datatype Host = Host(
    conversations: map<string, Conversation>,
    submissions: map<string, Submission>,
    log: seq<Event>,
    active: Option<Worker>,
    created: nat,
    trace: seq<Mark>)

  datatype Message =
    | ToolCall(call: string, thread: Option<string>, turn: Option<string>)
    | AskUser(question: Question)
    | AskApproval
    | OtherRequest
    | TurnStarted(thread: Option<string>, begun: string)
    | Report(thread: Option<string>, body: Body)
    | RequestResolved(thread: Option<string>, id: string)
    | TurnCompleted(thread: Option<string>, status: string)

  datatype Step =
    | Submit(conversation: string, submission: string, input: string, text: string, standard: bool)
    | StartAnswered(value: string)
    | StartRejected
    | SteerAnswered(submission: string)
    | SteerRejected(submission: string)
    | Emit(message: Message)
    | ToolEnded(call: string, succeeded: bool)
    | Fail
    | Exit
    | Answer(conversation: string, id: string, complete: bool)
    | Stop(conversation: string)
    | StopResolved
    | ReleaseResolved
    | Restart(order: seq<string>)

  const BUSY: set<string> := {"running", "starting", "stopping", "waiting"}

  function Initial(conversations: map<string, Conversation>): Host {
    Host(conversations, map[], [], None, 0, [])
  }

  // ------------------------------------------------------------------- pieces

  function Say(h: Host, conversation: string, body: Body): Host {
    h.(log := h.log + [Event(|h.log| + 1, conversation, body)])
  }

  function SetStatus(h: Host, conversation: string, status: string): Host {
    if conversation in h.conversations then
      h.(conversations := h.conversations[conversation := h.conversations[conversation].(status := status)])
    else h
  }

  function SetThread(h: Host, conversation: string, thread: string): Host {
    if conversation in h.conversations then
      h.(conversations := h.conversations[conversation := h.conversations[conversation].(thread := Some(thread))])
    else h
  }

  function SetTurn(h: Host, conversation: string, turn: Option<string>): Host {
    if conversation in h.conversations then
      h.(conversations := h.conversations[conversation := h.conversations[conversation].(turn := turn)])
    else h
  }

  function SetState(h: Host, submission: string, state: SubmissionState): Host {
    if submission in h.submissions then
      h.(submissions := h.submissions[submission := h.submissions[submission].(state := state)])
    else h
  }

  function MarkThat(h: Host, mark: Mark): Host {
    h.(trace := h.trace + [mark])
  }

  function ResolveAll(h: Host, conversation: string, qs: seq<Question>): Host
    decreases |qs|
  {
    if qs == [] then h else ResolveAll(Say(h, conversation, Resolved(qs[0].id)), conversation, qs[1..])
  }

  /** `finish`, up to its first await. */
  function Finish(h: Host, conversation: string, status: string): Host {
    if h.active.None? || h.active.value.conversation != conversation || h.active.value.finished then h
    else
      var a := h.active.value;
      var ended := MarkThat(SetTurn(SetStatus(h, conversation, status), conversation, None), Finished(a.id))
        .(active := Some(a.(finished := true, closing := Killing)));
      ResolveAll(Say(ended, conversation, Status(status)), conversation, a.approvals)
  }

  function SetWorker(h: Host, a: Worker): Host {
    h.(active := Some(a))
  }

  // -------------------------------------------------------------------- steps

  predicate Refuses(h: Host, conversation: string, standard: bool) {
    h.active.Some? && (
      || conversation !in h.conversations
      || h.active.value.conversation != conversation
      || !standard
      || h.conversations[conversation].turn.None?
      || h.active.value.finished)
  }

  function Submitted(
      h: Host, conversation: string, submission: string, input: string, text: string, standard: bool): Host
  {
    if conversation !in h.conversations || submission in h.submissions then h
    else if Refuses(h, conversation, standard) then h
    else
      var recorded := Say(
        h.(submissions := h.submissions[submission := Submission(conversation, input, Pending)]),
        conversation, User(text));
      if h.active.Some? then
        var a := h.active.value;
        SetWorker(MarkThat(recorded, Sent(submission)), a.(steers := a.steers + {submission}))
      else
        SetWorker(
          MarkThat(SetStatus(recorded, conversation, "starting"), Created(h.created)).(created := h.created + 1),
          Worker(h.created, conversation, submission, Initializing, {}, {}, [], false, Open, false))
  }

  /** What a repeated submission is told: its state, or a refusal. */
  function Told(h: Host, conversation: string, submission: string, input: string): Option<Result<SubmissionState, ()>> {
    if submission !in h.submissions then None
    else
      var prior := h.submissions[submission];
      Some(if prior.conversation != conversation || prior.input != input then Err(()) else Ok(prior.state))
  }

  function StartStep(h: Host, a: Worker, value: string): Host {
    match a.stage
    case Initializing => SetWorker(h, a.(stage := Threading))
    case Threading =>
      if a.finished then SetWorker(h, a.(stage := Settled))
      else SetWorker(MarkThat(SetThread(h, a.conversation, value), Sent(a.first)), a.(stage := Turning))
    case Turning =>
      var accepted := MarkThat(SetState(h, a.first, Accepted), Acknowledged(a.first));
      SetWorker(
        if a.finished then accepted
        else SetStatus(SetTurn(accepted, a.conversation, Some(value)), a.conversation, "running"),
        a.(stage := Settled))
    case Settled => h
  }

  function StartFailed(h: Host, a: Worker): Host {
    if a.stage.Settled? then h
    else Finish(SetWorker(SetState(h, a.first, Uncertain), a.(stage := Settled)), a.conversation, "failed")
  }

  function SteersFailed(submissions: map<string, Submission>, steers: set<string>): map<string, Submission> {
    map s | s in submissions ::
      if s in steers then submissions[s].(state := Uncertain) else submissions[s]
  }

  /** The process closed: the closed handler runs, then the rejected requests. */
  function Exited(h: Host, a: Worker): Host {
    var closed := Finish(SetWorker(h, a.(exited := true)), a.conversation, "interrupted");
    var b := if closed.active.Some? then closed.active.value else a;
    var uncertain := if a.stage.Settled? then closed else SetState(closed, a.first, Uncertain);
    SetWorker(
      uncertain.(submissions := SteersFailed(uncertain.submissions, a.steers)),
      b.(stage := Settled, steers := {}))
  }

  predicate Foreign(h: Host, conversation: string, thread: Option<string>) {
    && thread.Some?
    && conversation in h.conversations
    && h.conversations[conversation].thread.Some?
    && h.conversations[conversation].thread != thread
  }

  predicate IsReport(body: Body) {
    body.Delta? || body.Message? || body.Diff? || body.Usage? || body.Notice?
  }

  function Handled(h: Host, a: Worker, m: Message): Host {
    if a.finished then h else
    match m
    case ToolCall(call, thread, turn) =>
      if a.conversation !in h.conversations then h
      else
        var c := h.conversations[a.conversation];
        if c.thread.None? || thread != c.thread || (c.turn.Some? && turn != c.turn) then h
        else SetWorker(h, a.(tools := a.tools + {call}))
    case AskUser(q) =>
      SetWorker(Say(SetStatus(h, a.conversation, "waiting"), a.conversation, Asked(q)),
                a.(approvals := SetQuestion(a.approvals, q)))
    case AskApproval => Say(h, a.conversation, Notice)
    case OtherRequest => h
    case TurnStarted(thread, turn) =>
      if Foreign(h, a.conversation, thread) then h
      else Say(SetTurn(SetStatus(h, a.conversation, "running"), a.conversation, Some(turn)),
               a.conversation, Status("running"))
    case Report(thread, body) =>
      if Foreign(h, a.conversation, thread) || !IsReport(body) then h else Say(h, a.conversation, body)
    case RequestResolved(thread, id) =>
      if Foreign(h, a.conversation, thread) then h
      else
        var left := DeleteQuestion(a.approvals, id);
        var said := SetWorker(Say(h, a.conversation, Resolved(id)), a.(approvals := left));
        if left == [] then SetStatus(said, a.conversation, "running") else said
    case TurnCompleted(thread, status) =>
      if Foreign(h, a.conversation, thread) then h else Finish(h, a.conversation, status)
  }

  function ToolStep(h: Host, a: Worker, call: string, succeeded: bool): Host {
    var b := a.(tools := a.tools - {call});
    if a.finished then SetWorker(h, b)
    else if succeeded then MarkThat(SetWorker(Say(h, a.conversation, Evidence(a.id)), b), Recorded(a.id))
    else SetWorker(Say(h, a.conversation, Notice), b)
  }

  /** `answer` does not test `finished`. */
  function Answered(h: Host, a: Worker, id: string): Host {
    SetStatus(
      Say(SetWorker(h, a.(approvals := DeleteQuestion(a.approvals, id))), a.conversation, Resolved(id)),
      a.conversation, "running")
  }

  /** `stop` rewrites the status before it finds that the worker has finished. */
  function StopCalled(h: Host, conversation: string): Host {
    Finish(SetStatus(h, conversation, "stopping"), conversation, "interrupted")
  }

  /** The answer to a steering request. */
  function Steered(h: Host, a: Worker, submission: string, state: SubmissionState): Host {
    if submission !in a.steers then h
    else
      var told := SetState(h, submission, state);
      SetWorker(
        if state.Accepted? then MarkThat(told, Acknowledged(submission)) else told,
        a.(steers := a.steers - {submission}))
  }

  /** The first await of `finish` is over. */
  function StopEnded(h: Host, a: Worker): Host {
    if a.closing.Killing? && a.stage.Settled? && a.steers == {}
    then MarkThat(SetWorker(h, a.(closing := Releasing)), Stopped(a.id)) else h
  }

  /** The second await of `finish` is over. */
  function ReleaseEnded(h: Host, a: Worker): Host {
    if a.closing.Releasing? then MarkThat(h.(active := None), Released(a.id)) else h
  }

  predicate IsOpen(qs: seq<Question>, id: string) {
    exists q :: q in qs && q.id == id
  }

  /** `recover`: nothing of the old process is left. */
  function Recovered(h: Host, order: seq<string>): Host
    decreases |order|
  {
    if order == [] then
      h.(active := None, trace := h.trace + [Restarted],
         submissions := map s | s in h.submissions ::
           if h.submissions[s].state.Pending? then h.submissions[s].(state := Interrupted) else h.submissions[s])
    else if order[0] in h.conversations && h.conversations[order[0]].status in BUSY then
      Recovered(
        Say(SetTurn(SetStatus(h, order[0], "interrupted"), order[0], None), order[0], Status("interrupted")),
        order[1..])
    else Recovered(h, order[1..])
  }

  predicate Lists(order: seq<string>, conversations: map<string, Conversation>) {
    Distinct(order) && conversations.Keys == set c | c in order
  }

  /** One step; a step that cannot happen leaves the host as it is. */
  function Next(h: Host, step: Step): Host {
    match step
    case Submit(c, s, input, text, standard) => Submitted(h, c, s, input, text, standard)
    case Answer(c, id, complete) =>
      if h.active.Some? && h.active.value.conversation == c && complete && IsOpen(h.active.value.approvals, id)
      then Answered(h, h.active.value, id) else h
    case Stop(c) =>
      if h.active.Some? && h.active.value.conversation == c then StopCalled(h, c) else h
    case Restart(order) => if Lists(order, h.conversations) then Recovered(h, order) else h
    case _ => if h.active.Some? then WorkerStep(h, h.active.value, step) else h
  }

  function WorkerStep(h: Host, a: Worker, step: Step): Host {
    match step
    case StartAnswered(value) => if !a.exited then StartStep(h, a, value) else h
    case StartRejected => if !a.exited then StartFailed(h, a) else h
    case SteerAnswered(s) => Steered(h, a, s, Accepted)
    case SteerRejected(s) => Steered(h, a, s, Uncertain)
    case Emit(m) => if !a.exited then Handled(h, a, m) else h
    case ToolEnded(call, succeeded) => if call in a.tools then ToolStep(h, a, call, succeeded) else h
    case Fail => if !a.exited then Finish(h, a.conversation, "failed") else h
    case Exit => if !a.exited then Exited(h, a) else h
    case StopResolved => StopEnded(h, a)
    case ReleaseResolved => ReleaseEnded(h, a)
    case _ => h
  }

  function Run(h: Host, steps: seq<Step>): Host
    decreases |steps|
  {
    if steps == [] then h else Run(Next(h, steps[0]), steps[1..])
  }
}
