/** The host object, its live worker and its tables, changed in place. Each
    method is one stretch between awaits and does what the step of the state
    machine does. */
module AgentHostObject {
  import opened Common
  import opened ChatFold
  import H = AgentHost

  class LiveWorker {
    const id: nat
    const conversation: string
    const first: string
    var stage: H.Stage
    var steers: set<string>
    var tools: set<string>
    var approvals: seq<Question>
    var finished: bool
    var closing: H.Closing
    var exited: bool

    constructor (id: nat, conversation: string, first: string)
      ensures Value() == H.Worker(id, conversation, first, H.Initializing, {}, {}, [], false, H.Open, false)
    {
      this.id, this.conversation, this.first := id, conversation, first;
      stage, steers, tools, approvals := H.Initializing, {}, {}, [];
      finished, closing, exited := false, H.Open, false;
    }

    ghost function Value(): H.Worker
      reads this
    {
      H.Worker(id, conversation, first, stage, steers, tools, approvals, finished, closing, exited)
    }
  }

  class Host {
    var conversations: map<string, H.Conversation>
    var submissions: map<string, H.Submission>
    var log: seq<Event>
    var active: LiveWorker?
    var created: nat
    ghost var trace: seq<H.Mark>

    ghost function At(): H.Host
      reads this, active
    {
      H.Host(conversations, submissions, log, if active == null then None else Some(active.Value()), created, trace)
    }

    constructor (conversations: map<string, H.Conversation>)
      ensures At() == H.Initial(conversations)
    {
      this.conversations := conversations;
      submissions, log, active, created, trace := map[], [], null, 0, [];
    }

    method Say(conversation: string, body: Body)
      modifies this`log
      ensures At() == H.Say(old(At()), conversation, body)
    {
      log := log + [Event(|log| + 1, conversation, body)];
    }

    method SetStatus(conversation: string, status: string)
      modifies this`conversations
      ensures At() == H.SetStatus(old(At()), conversation, status)
    {
      if conversation in conversations {
        conversations := conversations[conversation := conversations[conversation].(status := status)];
      }
    }

    method SetTurn(conversation: string, turn: Option<string>)
      modifies this`conversations
      ensures At() == H.SetTurn(old(At()), conversation, turn)
    {
      if conversation in conversations {
        conversations := conversations[conversation := conversations[conversation].(turn := turn)];
      }
    }

    method SetState(submission: string, state: H.SubmissionState)
      modifies this`submissions
      ensures At() == H.SetState(old(At()), submission, state)
    {
      if submission in submissions {
        submissions := submissions[submission := submissions[submission].(state := state)];
      }
    }

    /** `submit`: a new identifier is recorded before anything is sent. */
    method Submit(conversation: string, submission: string, input: string, text: string, standard: bool)
      returns (told: Option<Result<H.SubmissionState, ()>>)
      modifies this, active
      ensures told == H.Told(old(At()), conversation, submission, input)
      ensures At() == H.Submitted(old(At()), conversation, submission, input, text, standard)
      ensures active != old(active) ==> fresh(active)
    {
      told := None;
      if submission in submissions {
        var prior := submissions[submission];
        if prior.conversation != conversation || prior.input != input { return Some(Err(())); }
        return Some(Ok(prior.state));
      }
      if conversation !in conversations { return; }
      if active != null {
        if active.conversation != conversation || !standard { return; }
        if conversations[conversation].turn.None? || active.finished { return; }
      }
      submissions := submissions[submission := H.Submission(conversation, input, H.Pending)];
      Say(conversation, User(text));
      if active != null {
        active.steers := active.steers + {submission};
        trace := trace + [H.Sent(submission)];
        return;
      }
      SetStatus(conversation, "starting");
      active := new LiveWorker(created, conversation, submission);
      trace := trace + [H.Created(created)];
      created := created + 1;
    }

    /** `start`, from one answer of the worker to the next await. */
    method StartAnswered(value: string)
      requires active != null
      modifies this, active
      ensures active == old(active) && At() == H.StartStep(old(At()), old(active.Value()), value)
    {
      match active.stage {
        case Initializing => active.stage := H.Threading;
        case Threading =>
          if active.finished {
            active.stage := H.Settled;
            return;
          }
          if active.conversation in conversations {
            var c := conversations[active.conversation];
            conversations := conversations[active.conversation := c.(thread := Some(value))];
          }
          trace := trace + [H.Sent(active.first)];
          active.stage := H.Turning;
        case Turning =>
          SetState(active.first, H.Accepted);
          trace := trace + [H.Acknowledged(active.first)];
          if !active.finished {
            SetTurn(active.conversation, Some(value));
            SetStatus(active.conversation, "running");
          }
          active.stage := H.Settled;
        case Settled =>
      }
    }

    method StartRejected()
      requires active != null
      modifies this, active
      ensures active == old(active) && At() == H.StartFailed(old(At()), old(active.Value()))
    {
      if active.stage.Settled? { return; }
      SetState(active.first, H.Uncertain);
      active.stage := H.Settled;
      Finish(active.conversation, "failed");
    }

    /** `finish`, up to its first await: once a worker, and every open question is resolved in the log. */
    method Finish(conversation: string, status: string)
      modifies this, active
      ensures active == old(active) && At() == H.Finish(old(At()), conversation, status)
    {
      if active == null || active.conversation != conversation || active.finished { return; }
      active.finished := true;
      active.closing := H.Killing;
      SetStatus(conversation, status);
      SetTurn(conversation, None);
      trace := trace + [H.Finished(active.id)];
      Say(conversation, Status(status));
      ghost var said := At();
      var i := 0;
      while i < |active.approvals|
        invariant active == old(active) && active != null
        invariant active.approvals == old(active.approvals) && 0 <= i <= |active.approvals|
        invariant H.ResolveAll(said, conversation, active.approvals) ==
                  H.ResolveAll(At(), conversation, active.approvals[i..])
      {
        assert active.approvals[i..][1..] == active.approvals[i + 1..];
        Say(conversation, Resolved(active.approvals[i].id));
        i := i + 1;
      }
    }

    /** The message names another thread than the conversation's. */
    method IsForeign(thread: Option<string>) returns (foreign: bool)
      requires active != null
      ensures foreign == H.Foreign(At(), active.conversation, thread)
    {
      if thread.None? || active.conversation !in conversations { return false; }
      var known := conversations[active.conversation].thread;
      return known.Some? && known != thread;
    }

    /** `handle`: one message from the worker, by its kind. */
    method Handle(m: H.Message)
      requires active != null
      modifies this, active
      ensures active == old(active) && At() == H.Handled(old(At()), old(active.Value()), m)
    {
      if active.finished { return; }
      match m {
        case ToolCall(call, thread, turn) => ToolCalled(call, thread, turn);
        case AskUser(q) => AskUser(q);
        case AskApproval => Say(active.conversation, Notice);
        case OtherRequest =>
        case TurnStarted(thread, turn) => TurnStarted(thread, turn);
        case Report(thread, body) =>
          var foreign := IsForeign(thread);
          if !foreign && H.IsReport(body) { Say(active.conversation, body); }
        case RequestResolved(thread, id) => RequestResolved(thread, id);
        case TurnCompleted(thread, status) =>
          var foreign := IsForeign(thread);
          if !foreign { Finish(active.conversation, status); }
      }
    }

    method AskUser(q: Question)
      requires active != null && !active.finished
      modifies this, active
      ensures active == old(active) && At() == H.Handled(old(At()), old(active.Value()), H.AskUser(q))
    {
      active.approvals := SetQuestion(active.approvals, q);
      SetStatus(active.conversation, "waiting");
      Say(active.conversation, Asked(q));
    }

    method TurnStarted(thread: Option<string>, turn: string)
      requires active != null && !active.finished
      modifies this, active
      ensures active == old(active) && At() == H.Handled(old(At()), old(active.Value()), H.TurnStarted(thread, turn))
    {
      var foreign := IsForeign(thread);
      if foreign { return; }
      SetStatus(active.conversation, "running");
      SetTurn(active.conversation, Some(turn));
      Say(active.conversation, Status("running"));
    }

    method RequestResolved(thread: Option<string>, id: string)
      requires active != null && !active.finished
      modifies this, active
      ensures active == old(active) && At() == H.Handled(old(At()), old(active.Value()), H.RequestResolved(thread, id))
    {
      var foreign := IsForeign(thread);
      if foreign { return; }
      active.approvals := DeleteQuestion(active.approvals, id);
      Say(active.conversation, Resolved(id));
      if active.approvals == [] { SetStatus(active.conversation, "running"); }
    }

    /** A tool call that belongs to the turn is started; any other is turned away. */
    method ToolCalled(call: string, thread: Option<string>, turn: Option<string>)
      requires active != null && !active.finished
      modifies this, active
      ensures active == old(active) && At() == H.Handled(old(At()), old(active.Value()), H.ToolCall(call, thread, turn))
    {
      if active.conversation !in conversations { return; }
      var c := conversations[active.conversation];
      if c.thread.None? || thread != c.thread || (c.turn.Some? && turn != c.turn) { return; }
      active.tools := active.tools + {call};
    }

    /** The end of a tool call: after the worker's finish it records nothing. */
    method ToolEnded(call: string, succeeded: bool)
      requires active != null
      modifies this, active
      ensures active == old(active) && At() == H.ToolStep(old(At()), old(active.Value()), call, succeeded)
      ensures old(active.finished) ==> log == old(log)
    {
      active.tools := active.tools - {call};
      if active.finished { return; }
      if succeeded {
        Say(active.conversation, Evidence(active.id));
        trace := trace + [H.Recorded(active.id)];
      } else {
        Say(active.conversation, Notice);
      }
    }

    method Answer(conversation: string, id: string, complete: bool) returns (accepted: bool)
      modifies this, active
      ensures active == old(active)
      ensures accepted <==> old(At()).active.Some? && old(At()).active.value.conversation == conversation
                            && H.IsOpen(old(At()).active.value.approvals, id) && complete
      ensures At() == H.Next(old(At()), H.Answer(conversation, id, complete))
    {
      if active == null || active.conversation != conversation || !H.IsOpen(active.approvals, id) || !complete {
        return false;
      }
      active.approvals := DeleteQuestion(active.approvals, id);
      Say(conversation, Resolved(id));
      SetStatus(conversation, "running");
      return true;
    }

    method Stop(conversation: string)
      modifies this, active
      ensures active == old(active) && At() == H.Next(old(At()), H.Stop(conversation))
    {
      if active == null || active.conversation != conversation { return; }
      SetStatus(conversation, "stopping");
      Finish(conversation, "interrupted");
    }

    /** The process closed: what was pending becomes uncertain. */
    method Exit()
      requires active != null
      modifies this, active
      ensures active == old(active) && At() == H.Exited(old(At()), old(active.Value()))
    {
      var stage, steers := active.stage, active.steers;
      active.exited := true;
      Finish(active.conversation, "interrupted");
      if !stage.Settled? { SetState(active.first, H.Uncertain); }
      submissions := H.SteersFailed(submissions, steers);
      active.stage := H.Settled;
      active.steers := {};
    }

    method StopResolved()
      requires active != null
      modifies this, active
      ensures active == old(active) && At() == H.WorkerStep(old(At()), old(active.Value()), H.StopResolved)
    {
      if active.closing.Killing? && active.stage.Settled? && active.steers == {} {
        active.closing := H.Releasing;
        trace := trace + [H.Stopped(active.id)];
      }
    }

    method ReleaseResolved()
      requires active != null
      modifies this
      ensures active == old(active) || active == null
      ensures At() == H.WorkerStep(old(At()), old(active.Value()), H.ReleaseResolved)
    {
      if active.closing.Releasing? {
        trace := trace + [H.Released(active.id)];
        active := null;
      }
    }

    /** A new process over the same tables: `recover`. */
    method Recover(order: seq<string>)
      modifies this
      ensures active == null && At() == H.Recovered(old(At()), order)
    {
      ghost var before := At();
      var i := 0;
      while i < |order|
        invariant 0 <= i <= |order|
        invariant H.Recovered(before, order) == H.Recovered(At(), order[i..])
      {
        assert order[i..][1..] == order[i + 1..];
        if order[i] in conversations && conversations[order[i]].status in H.BUSY {
          SetStatus(order[i], "interrupted");
          SetTurn(order[i], None);
          Say(order[i], Status("interrupted"));
        }
        i := i + 1;
      }
      active := null;
      submissions := map s | s in submissions ::
        if submissions[s].state.Pending? then submissions[s].(state := H.Interrupted) else submissions[s];
      trace := trace + [H.Restarted];
    }

    /** The answer to a steering request. */
    method SteerSettled(submission: string, accepted: bool)
      requires active != null
      modifies this, active
      ensures active == old(active)
      ensures At() == H.WorkerStep(old(At()), old(active.Value()),
        if accepted then H.SteerAnswered(submission) else H.SteerRejected(submission))
    {
      if submission !in active.steers { return; }
      SetState(submission, if accepted then H.Accepted else H.Uncertain);
      if accepted { trace := trace + [H.Acknowledged(submission)]; }
      active.steers := active.steers - {submission};
    }

    /** What reaches the live worker's callbacks, if there is one. */
    method PerformForWorker(step: H.Step)
      requires active != null
      requires !step.Submit? && !step.Answer? && !step.Stop? && !step.Restart?
      modifies this, active
      ensures active == old(active) || active == null
      ensures At() == H.WorkerStep(old(At()), old(active.Value()), step)
    {
      match step {
        case StartAnswered(value) => if !active.exited { StartAnswered(value); }
        case StartRejected => if !active.exited { StartRejected(); }
        case SteerAnswered(s) => SteerSettled(s, true);
        case SteerRejected(s) => SteerSettled(s, false);
        case Emit(m) => if !active.exited { Handle(m); }
        case ToolEnded(call, succeeded) => if call in active.tools { ToolEnded(call, succeeded); }
        case Fail => if !active.exited { Finish(active.conversation, "failed"); }
        case Exit => if !active.exited { Exit(); }
        case StopResolved => StopResolved();
        case ReleaseResolved => ReleaseResolved();
      }
    }

    method Perform(step: H.Step)
      modifies this, active
      ensures active == old(active) || active == null || fresh(active)
      ensures At() == H.Next(old(At()), step)
    {
      match step {
        case Submit(c, s, input, text, standard) => var _ := Submit(c, s, input, text, standard);
        case Answer(c, id, complete) => var _ := Answer(c, id, complete);
        case Stop(c) => Stop(c);
        case Restart(order) => if H.Lists(order, conversations) { Recover(order); }
        case _ => if active != null { PerformForWorker(step); }
      }
    }

    /** Any sequence of calls does what the run does, so what is proved of runs holds
        of the object. */
    method PerformAll(steps: seq<H.Step>)
      modifies this, active
      ensures At() == H.Run(old(At()), steps)
    {
      var i := 0;
      while i < |steps|
        invariant 0 <= i <= |steps|
        invariant active == old(active) || active == null || fresh(active)
        invariant H.Run(At(), steps[i..]) == H.Run(old(At()), steps)
      {
        assert steps[i..][1..] == steps[i + 1..];
        Perform(steps[i]);
        i := i + 1;
      }
    }
  }
}
