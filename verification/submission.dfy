/** Sending from the chat and checking a send that stayed unanswered: the composer
    keeps the text and the pending submission, the engine records submissions by
    identifier, and the page may be reloaded at any time. */
module ChatSubmission {
  import opened Common

  datatype Submission = Submission(id: nat, text: string, composerText: string, keepText: bool)

  datatype Composer = Composer(text: string, attachments: seq<string>, pending: Option<Submission>)

  /** Where `send` is suspended; `Idle` is `sendingRef` being false. */
  datatype Flow = Idle | Saving(sent: Submission) | SavingAgain(sent: Submission) | Posting(sent: Submission)

  /** One request for the state of a submission. */
  datatype Query = Query(number: nat, id: nat)

  datatype Answer =
    | Accepted(sent: Submission)
    | Failed(sent: Submission)
    | Found(query: Query)
    | Missing(query: Query)

  /** What the engine does with a submission it does not know. */
  datatype Outcome = Records | RecordsAndFails | Refuses

  /** Bookkeeping: what happened to submissions, in order. */
  datatype Mark = Posted(id: nat) | Recorded(id: nat) | Rejected(id: nat) | Confirmed(id: nat) | Returned(id: nat)

  datatype System = System(
    composer: Composer,
    flow: Flow,
    checks: set<Query>,
    posts: set<Submission>,
    queries: set<Query>,
    answers: set<Answer>,
    recorded: set<nat>,
    made: nat,
    trace: seq<Mark>)

  datatype Step =
    | Type(text: string, attachments: seq<string>)
    | Send(text: string, keepText: bool, stored: bool)
    | Flushed(ok: bool)
    | ServePost(post: Submission, outcome: Outcome)
    | PostAnswered(answer: Answer)
    | PostGivenUp
    | Check
    | ServeQuery(query: Query)
    | CheckAnswered(answer: Answer)
    | CheckGivenUp(query: Query)
    | Reload

  function Remember(s: System, mark: Mark): System {
    s.(trace := s.trace + [mark])
  }

  /** The composer once a submission is known to be recorded: text typed since stays. */
  function Sent(c: Composer, sent: Submission): Composer {
    if !sent.keepText && c.text == sent.composerText then Composer("", [], None) else c.(pending := None)
  }

  function Sending(s: System, text: string, keepText: bool, stored: bool): System {
    if !s.flow.Idle? || s.composer.pending.Some? || text == "" || !stored then s
    else
      var sent := Submission(s.made, text, s.composer.text, keepText);
      s.(composer := s.composer.(pending := Some(sent)), flow := Saving(sent), made := s.made + 1)
  }

  function AfterFlush(s: System, ok: bool): System {
    match s.flow
    case Saving(sent) => if ok then s.(flow := SavingAgain(sent)) else s.(flow := Idle)
    case SavingAgain(sent) =>
      if ok then Remember(s, Posted(sent.id)).(flow := Posting(sent), posts := s.posts + {sent}) else s.(flow := Idle)
    case _ => s
  }

  function Served(s: System, post: Submission, outcome: Outcome): System {
    if post !in s.posts then s
    else
      var t := s.(posts := s.posts - {post});
      if post.id in s.recorded then t.(answers := t.answers + {Accepted(post)})
      else
        match outcome
        case Records =>
          Remember(t, Recorded(post.id)).(recorded := t.recorded + {post.id}, answers := t.answers + {Accepted(post)})
        case RecordsAndFails =>
          Remember(t, Recorded(post.id)).(recorded := t.recorded + {post.id}, answers := t.answers + {Failed(post)})
        case Refuses => t.(answers := t.answers + {Failed(post)})
  }

  function AfterPost(s: System, answer: Answer): System {
    if answer !in s.answers || !s.flow.Posting? then s
    else if answer == Accepted(s.flow.sent) then
      Remember(s, Confirmed(s.flow.sent.id)).(composer := Sent(s.composer, s.flow.sent), flow := Idle)
    else if answer == Failed(s.flow.sent) then Remember(s, Rejected(s.flow.sent.id)).(flow := Idle)
    else s
  }

  function Checking(s: System): System {
    if !s.flow.Idle? || s.composer.pending.None? then s
    else
      var query := Query(s.made, s.composer.pending.value.id);
      s.(checks := s.checks + {query}, queries := s.queries + {query}, made := s.made + 1)
  }

  function QueryAnswer(s: System, query: Query): Answer {
    if query.id in s.recorded then Found(query) else Missing(query)
  }

  /** An answer about anything but the pending submission is dropped. */
  function AfterCheck(s: System, answer: Answer): System {
    if answer !in s.answers || !(answer.Found? || answer.Missing?) || answer.query !in s.checks then s
    else
      var t := s.(checks := s.checks - {answer.query});
      var id := answer.query.id;
      if s.composer.pending.None? || s.composer.pending.value.id != id then t
      else if answer.Found? then Remember(t, Confirmed(id)).(composer := Sent(s.composer, s.composer.pending.value))
      else Remember(t, Returned(id)).(composer := s.composer.(pending := None))
  }

  /** One step; a step that cannot happen leaves the system as it is. */
  function Next(s: System, step: Step): System {
    match step
    case Type(text, attachments) => s.(composer := Composer(text, attachments, s.composer.pending))
    case Send(text, keepText, stored) => Sending(s, text, keepText, stored)
    case Flushed(ok) => AfterFlush(s, ok)
    case ServePost(post, outcome) => Served(s, post, outcome)
    case PostAnswered(answer) => AfterPost(s, answer)
    case PostGivenUp => if s.flow.Posting? then s.(flow := Idle) else s
    case Check => Checking(s)
    case ServeQuery(query) =>
      if query in s.queries then
        s.(queries := s.queries - {query}, answers := s.answers + {QueryAnswer(s, query)})
      else s
    case CheckAnswered(answer) => AfterCheck(s, answer)
    case CheckGivenUp(query) => s.(checks := s.checks - {query})
    case Reload => s.(flow := Idle, checks := {})
  }

  function Run(s: System, steps: seq<Step>): System
    decreases |steps|
  {
    if steps == [] then s else Run(Next(s, steps[0]), steps[1..])
  }

  const START := System(Composer("", [], None), Idle, {}, {}, {}, {}, {}, 0, [])
}

/** What sending and checking promise over every run. */
module SubmissionResults {
  import opened Common
  import opened ChatSubmission

  predicate Closed(trace: seq<Mark>, id: nat) {
    Confirmed(id) in trace || Returned(id) in trace
  }

  /** What must hold for a mark to follow a trace. */
  ghost predicate MayFollow(trace: seq<Mark>, mark: Mark) {
    match mark
    case Posted(id) =>
      && Posted(id) !in trace && !Closed(trace, id)
      && forall m :: m in trace && m.Posted? ==> Closed(trace, m.id)
    case Recorded(id) => Posted(id) in trace && Recorded(id) !in trace
    case Rejected(id) => Posted(id) in trace && !Closed(trace, id)
    case Confirmed(id) => Recorded(id) in trace && !Closed(trace, id)
    case Returned(id) => !Closed(trace, id)
  }

  ghost predicate Orderly(trace: seq<Mark>) {
    trace == [] || (Orderly(trace[..|trace| - 1]) && MayFollow(trace[..|trace| - 1], trace[|trace| - 1]))
  }

  predicate IsPending(s: System, id: nat) {
    s.composer.pending.Some? && s.composer.pending.value.id == id
  }

  predicate Fresh(s: System) {
    && (s.composer.pending.Some? ==> s.composer.pending.value.id < s.made)
    && (forall m | m in s.trace :: m.id < s.made)
    && (forall q | q in s.checks :: q.id < s.made)
  }

  predicate FlowFits(s: System) {
    s.flow.Idle? ||
    (&& s.composer.pending == Some(s.flow.sent)
     && (forall q | q in s.checks :: q.id != s.flow.sent.id)
     && (s.flow.Posting? <==> Posted(s.flow.sent.id) in s.trace))
  }

  ghost predicate Ledger(s: System) {
    && (forall p :: p in s.posts ==> Posted(p.id) in s.trace)
    && (forall id :: id in s.recorded <==> Recorded(id) in s.trace)
    && (forall a :: a in s.answers && a.Accepted? ==> a.sent.id in s.recorded)
    && (forall a :: a in s.answers && a.Found? ==> a.query.id in s.recorded)
  }

  ghost predicate Pending(s: System) {
    && (forall m :: m in s.trace && m.Posted? ==> IsPending(s, m.id) || Closed(s.trace, m.id))
    && (s.composer.pending.Some? ==> !Closed(s.trace, s.composer.pending.value.id))
  }

  ghost predicate Inv(s: System) {
    Fresh(s) && FlowFits(s) && Ledger(s) && Pending(s) && Orderly(s.trace)
  }

  lemma Append(trace: seq<Mark>, mark: Mark)
    requires Orderly(trace) && MayFollow(trace, mark)
    ensures Orderly(trace + [mark])
    ensures forall m :: m in trace + [mark] <==> m in trace || m == mark
  {
    assert (trace + [mark])[..|trace|] == trace;
  }

  lemma FlushKeeps(s: System, ok: bool)
    requires Inv(s)
    ensures Inv(AfterFlush(s, ok))
  {
    if s.flow.SavingAgain? && ok { PostedKeeps(s); }
  }

  lemma PostedKeeps(s: System)
    requires Inv(s) && s.flow.SavingAgain?
    ensures Inv(AfterFlush(s, true))
  {
    Append(s.trace, Posted(s.flow.sent.id));
  }

  lemma ServedKeeps(s: System, post: Submission, outcome: Outcome)
    requires Inv(s)
    ensures Inv(Served(s, post, outcome))
  {
    if post in s.posts && post.id !in s.recorded && !outcome.Refuses? {
      Append(s.trace, Recorded(post.id));
      var t := Served(s, post, outcome);
      RecordedLedger(s, post, outcome);
      RecordedPending(s, t, post.id);
    }
  }

  lemma RecordedLedger(s: System, post: Submission, outcome: Outcome)
    requires Ledger(s) && post in s.posts && post.id !in s.recorded && !outcome.Refuses?
    ensures Ledger(Served(s, post, outcome))
  {
    assert Recorded(post.id) in Served(s, post, outcome).trace;
  }

  lemma RecordedPending(s: System, t: System, id: nat)
    requires Pending(s) && t.trace == s.trace + [Recorded(id)] && t.composer == s.composer
    ensures Pending(t)
  {
  }

  /** A mark that records nothing. */
  lemma MarkedLedger(s: System, t: System, m: Mark)
    requires Ledger(s) && t.trace == s.trace + [m] && !m.Recorded?
    requires t.posts == s.posts && t.answers == s.answers && t.recorded == s.recorded
    ensures Ledger(t)
  {
  }

  /** The pending submission is settled, one way or the other. */
  lemma ClosedPending(s: System, t: System, m: Mark)
    requires Pending(s) && t.trace == s.trace + [m] && t.composer.pending.None?
    requires (m.Confirmed? || m.Returned?) && IsPending(s, m.id)
    ensures Pending(t)
  {
    assert m in t.trace;
    forall p | p in t.trace && p.Posted? ensures Closed(t.trace, p.id) {
      assert p in s.trace;
    }
  }

  lemma RejectedPending(s: System, t: System, m: Mark)
    requires Pending(s) && t.trace == s.trace + [m] && t.composer == s.composer && m.Rejected?
    ensures Pending(t)
  {
    forall p | p in t.trace && p.Posted? ensures IsPending(t, p.id) || Closed(t.trace, p.id) {
      assert p in s.trace;
    }
  }

  lemma ConfirmedKeeps(s: System)
    requires Inv(s) && s.flow.Posting? && Accepted(s.flow.sent) in s.answers
    ensures Inv(AfterPost(s, Accepted(s.flow.sent)))
  {
    var t := AfterPost(s, Accepted(s.flow.sent));
    var m := Confirmed(s.flow.sent.id);
    Append(s.trace, m);
    MarkedLedger(s, t, m);
    ClosedPending(s, t, m);
  }

  lemma RejectedKeeps(s: System)
    requires Inv(s) && s.flow.Posting? && Failed(s.flow.sent) in s.answers
    ensures Inv(AfterPost(s, Failed(s.flow.sent)))
  {
    var t := AfterPost(s, Failed(s.flow.sent));
    var m := Rejected(s.flow.sent.id);
    Append(s.trace, m);
    MarkedLedger(s, t, m);
    RejectedPending(s, t, m);
  }

  lemma PostKeeps(s: System, answer: Answer)
    requires Inv(s)
    ensures Inv(AfterPost(s, answer))
  {
    if answer in s.answers && s.flow.Posting? {
      if answer == Accepted(s.flow.sent) { ConfirmedKeeps(s); }
      else if answer == Failed(s.flow.sent) { RejectedKeeps(s); }
    }
  }

  lemma SendKeeps(s: System, text: string, keepText: bool, stored: bool)
    requires Inv(s)
    ensures Inv(Sending(s, text, keepText, stored))
  {
  }

  lemma CheckingKeeps(s: System)
    requires Inv(s)
    ensures Inv(Checking(s))
  {
  }

  lemma CheckKeeps(s: System, answer: Answer)
    requires Inv(s)
    ensures Inv(AfterCheck(s, answer))
  {
    if answer in s.answers && (answer.Found? || answer.Missing?) && answer.query in s.checks {
      if IsPending(s, answer.query.id) { SettledKeeps(s, answer); }
    }
  }

  lemma SettledKeeps(s: System, answer: Answer)
    requires Inv(s) && answer in s.answers && (answer.Found? || answer.Missing?)
    requires answer.query in s.checks && IsPending(s, answer.query.id)
    ensures Inv(AfterCheck(s, answer))
  {
    var t := AfterCheck(s, answer);
    var m := if answer.Found? then Confirmed(answer.query.id) else Returned(answer.query.id);
    Append(s.trace, m);
    MarkedLedger(s, t, m);
    ClosedPending(s, t, m);
  }

  lemma NextKeeps(s: System, step: Step)
    requires Inv(s)
    ensures Inv(Next(s, step))
  {
    match step
    case Send(text, keepText, stored) => SendKeeps(s, text, keepText, stored);
    case Flushed(ok) => FlushKeeps(s, ok);
    case ServePost(post, outcome) => ServedKeeps(s, post, outcome);
    case PostAnswered(answer) => PostKeeps(s, answer);
    case Check => CheckingKeeps(s);
    case CheckAnswered(answer) => CheckKeeps(s, answer);
    case _ =>
  }

  lemma {:induction false} RunKeeps(s: System, steps: seq<Step>)
    requires Inv(s)
    ensures Inv(Run(s, steps))
    decreases |steps|
  {
    if steps != [] {
      NextKeeps(s, steps[0]);
      RunKeeps(Next(s, steps[0]), steps[1..]);
    }
  }

  lemma {:induction false} OrderlyAt(trace: seq<Mark>, i: nat)
    requires Orderly(trace) && i < |trace|
    ensures MayFollow(trace[..i], trace[i])
  {
    if i < |trace| - 1 {
      OrderlyAt(trace[..|trace| - 1], i);
      assert trace[..|trace| - 1][..i] == trace[..i];
    }
  }

  /** No submission is posted twice, and none before the one posted before it was
      confirmed as recorded or handed back, in any run, reloads included. */
  lemma OnePostAtATime(steps: seq<Step>, i: nat, j: nat)
    requires var trace := Run(START, steps).trace; i < j < |trace| && trace[i].Posted? && trace[j].Posted?
    ensures var trace := Run(START, steps).trace;
      && trace[i].id != trace[j].id
      && exists k :: i < k < j && (trace[k] == Confirmed(trace[i].id) || trace[k] == Returned(trace[i].id))
  {
    RunKeeps(START, steps);
    var trace := Run(START, steps).trace;
    OrderlyAt(trace, i);
    OrderlyAt(trace, j);
    assert trace[..j][i] == trace[i];
    var end := if Confirmed(trace[i].id) in trace[..j] then Confirmed(trace[i].id) else Returned(trace[i].id);
    forall m | 0 <= m < i ensures trace[m] != end { assert trace[..i][m] == trace[m]; }
    var k :| 0 <= k < |trace[..j]| && trace[..j][k] == end;
    assert trace[k] == end;
  }

  /** The composer's text is taken away by nothing but the user's own typing, except
      when it is still the text of a submission that the engine has recorded. */
  lemma TextIsTakenOnlyWhenRecorded(steps: seq<Step>, step: Step)
    requires !step.Type?
    requires var s := Run(START, steps);
      (Next(s, step).composer.text, Next(s, step).composer.attachments) != (s.composer.text, s.composer.attachments)
    ensures var s := Run(START, steps);
      && s.composer.pending.Some?
      && s.composer.pending.value.id in s.recorded
      && s.composer.pending.value.composerText == s.composer.text && !s.composer.pending.value.keepText
      && Next(s, step).composer == Composer("", [], None)
  {
    RunKeeps(START, steps);
  }

  lemma {:induction false} NeverRecorded(s: System, steps: seq<Step>, id: nat)
    requires Inv(s) && id < s.made && !IsPending(s, id) && id !in s.recorded
    requires forall p :: p in s.posts ==> p.id != id
    ensures id !in Run(s, steps).recorded
    decreases |steps|
  {
    if steps != [] {
      NextKeeps(s, steps[0]);
      NothingArrives(s, steps[0], id);
      NeverRecorded(Next(s, steps[0]), steps[1..], id);
    }
  }

  lemma NothingArrives(s: System, step: Step, id: nat)
    requires Inv(s) && id < s.made && !IsPending(s, id) && id !in s.recorded
    requires forall p :: p in s.posts ==> p.id != id
    ensures var t := Next(s, step);
      && id < t.made && !IsPending(t, id) && id !in t.recorded && forall p :: p in t.posts ==> p.id != id
  {
  }

  predicate RecordedAfter(s: System, more: seq<Step>, id: nat) {
    id in Run(s, more).recorded
  }

  /** A check that found nothing hands the text back, and sending it again makes a
      new submission. The old one is or will be recorded after all if and only if it
      was recorded in the meantime or its request is still under way. */
  lemma HandedBackMayStillArrive(steps: seq<Step>, id: nat)
    requires Returned(id) in Run(START, steps).trace
    ensures var s := Run(START, steps);
      (exists more :: RecordedAfter(s, more, id)) <==> (id in s.recorded || exists p :: p in s.posts && p.id == id)
  {
    RunKeeps(START, steps);
    var s := Run(START, steps);
    if id in s.recorded {
      var none: seq<Step> := [];
      assert RecordedAfter(s, none, id);
    } else if p :| p in s.posts && p.id == id {
      var step := ServePost(p, Records);
      assert [step][1..] == [];
      assert Run(s, [step]) == Run(Next(s, step), []) == Next(s, step);
      assert RecordedAfter(s, [step], id);
    } else {
      forall more ensures !RecordedAfter(s, more, id) { NeverRecorded(s, more, id); }
    }
  }

  // ----------------------------------------------------------- definitive answers

  predicate IsPostAnswer(a: Answer) {
    a.Accepted? || a.Failed?
  }

  /** Every post is under way once, and served once. */
  ghost predicate ServedOnce(s: System) {
    && (forall p, q :: p in s.posts && q in s.posts && p.id == q.id ==> p == q)
    && (forall a :: a in s.answers && IsPostAnswer(a) ==> Posted(a.sent.id) in s.trace)
    && (forall a, p :: a in s.answers && IsPostAnswer(a) && p in s.posts ==> a.sent.id != p.id)
    && (forall p :: p in s.posts ==> Rejected(p.id) !in s.trace)
    && (forall m :: m in s.trace && m.Rejected? ==> Posted(m.id) in s.trace)
  }

  predicate Asks(q: Query, id: nat) {
    q.id == id
  }

  /** Nobody asks about a submission that is just being sent. */
  ghost predicate AskedLater(s: System) {
    && (forall q :: q in s.queries ==> q.id < s.made)
    && (forall a :: a in s.answers && !IsPostAnswer(a) ==> a.query.id < s.made)
    && (!s.flow.Idle? ==>
         && (forall q :: q in s.queries ==> !Asks(q, s.flow.sent.id))
         && (forall a :: a in s.answers && !IsPostAnswer(a) ==> !Asks(a.query, s.flow.sent.id)))
  }

  /** After a rejection, "no such submission" is true for good. */
  ghost predicate Definite(s: System) {
    && (forall a :: a in s.answers && a.Missing? && Rejected(a.query.id) in s.trace ==> a.query.id !in s.recorded)
    && (forall id :: Returned(id) in s.trace && Rejected(id) in s.trace ==> id !in s.recorded)
  }

  lemma FlushedOnce(s: System, ok: bool)
    requires Inv(s) && ServedOnce(s)
    ensures ServedOnce(Next(s, Flushed(ok)))
  {
  }

  lemma ServeOnce(s: System, post: Submission, outcome: Outcome)
    requires Inv(s) && ServedOnce(s)
    ensures ServedOnce(Next(s, ServePost(post, outcome)))
  {
  }

  lemma AnswerOnce(s: System, answer: Answer)
    requires Inv(s) && ServedOnce(s)
    ensures ServedOnce(Next(s, PostAnswered(answer)))
  {
  }

  lemma CheckOnce(s: System, answer: Answer)
    requires Inv(s) && ServedOnce(s)
    ensures ServedOnce(Next(s, CheckAnswered(answer)))
  {
  }

  lemma ServedOnceStays(s: System, step: Step)
    requires Inv(s) && ServedOnce(s)
    ensures ServedOnce(Next(s, step))
  {
    match step
    case Flushed(ok) => FlushedOnce(s, ok);
    case ServePost(post, outcome) => ServeOnce(s, post, outcome);
    case PostAnswered(answer) => AnswerOnce(s, answer);
    case CheckAnswered(answer) => CheckOnce(s, answer);
    case _ =>
  }

  lemma AskedLaterStays(s: System, step: Step)
    requires Inv(s) && AskedLater(s)
    ensures AskedLater(Next(s, step))
  {
  }

  lemma FlushedDefinite(s: System, ok: bool)
    requires Inv(s) && ServedOnce(s) && AskedLater(s) && Definite(s)
    ensures Definite(Next(s, Flushed(ok)))
  {
  }

  lemma ServeDefinite(s: System, post: Submission, outcome: Outcome)
    requires Inv(s) && ServedOnce(s) && AskedLater(s) && Definite(s)
    ensures Definite(Next(s, ServePost(post, outcome)))
  {
  }

  lemma AnswerDefinite(s: System, answer: Answer)
    requires Inv(s) && ServedOnce(s) && AskedLater(s) && Definite(s)
    ensures Definite(Next(s, PostAnswered(answer)))
  {
  }

  lemma CheckDefinite(s: System, answer: Answer)
    requires Inv(s) && ServedOnce(s) && AskedLater(s) && Definite(s)
    ensures Definite(Next(s, CheckAnswered(answer)))
  {
  }

  lemma DefiniteStays(s: System, step: Step)
    requires Inv(s) && ServedOnce(s) && AskedLater(s) && Definite(s)
    ensures Definite(Next(s, step))
  {
    match step
    case Flushed(ok) => FlushedDefinite(s, ok);
    case ServePost(post, outcome) => ServeDefinite(s, post, outcome);
    case PostAnswered(answer) => AnswerDefinite(s, answer);
    case CheckAnswered(answer) => CheckDefinite(s, answer);
    case _ =>
  }

  lemma {:induction false} RunDefinite(s: System, steps: seq<Step>)
    requires Inv(s) && ServedOnce(s) && AskedLater(s) && Definite(s)
    ensures ServedOnce(Run(s, steps)) && Definite(Run(s, steps))
    decreases |steps|
  {
    if steps != [] {
      NextKeeps(s, steps[0]);
      ServedOnceStays(s, steps[0]);
      AskedLaterStays(s, steps[0]);
      DefiniteStays(s, steps[0]);
      RunDefinite(Next(s, steps[0]), steps[1..]);
    }
  }

  /** What the page itself can tell: if a submission was never posted, or its post was
      answered, then text that a check handed back is handed back for good. Only a
      post that was given up, or cut off by a reload, can still arrive. */
  lemma AnsweredPostsStayAway(steps: seq<Step>, id: nat, more: seq<Step>)
    requires var trace := Run(START, steps).trace;
      Returned(id) in trace && (Rejected(id) in trace || Posted(id) !in trace)
    ensures !RecordedAfter(Run(START, steps), more, id)
  {
    RunKeeps(START, steps);
    RunDefinite(START, steps);
    var s := Run(START, steps);
    assert id in s.recorded ==> Posted(id) in s.trace by { if id in s.recorded { RecordedWasPosted(s.trace, id); } }
    NeverRecorded(s, more, id);
  }

  lemma {:induction false} RecordedWasPosted(trace: seq<Mark>, id: nat)
    requires Orderly(trace) && Recorded(id) in trace
    ensures Posted(id) in trace
  {
    if trace[|trace| - 1] != Recorded(id) {
      RecordedWasPosted(trace[..|trace| - 1], id);
    }
  }

  /** Typed, sent, posted, given up, checked before the engine was reached, and handed back. */
  function GivenUp(text: string): seq<Step> {
    [Type(text, []), Send(text, false, true), Flushed(true), Flushed(true)]
      + [PostGivenUp, Check, ServeQuery(Query(1, 0)), CheckAnswered(Missing(Query(1, 0)))]
  }

  lemma RunFour(s: System, a: Step, b: Step, c: Step, d: Step)
    ensures Run(s, [a, b, c, d]) == Next(Next(Next(Next(s, a), b), c), d)
  {
    assert [a, b, c, d][1..] == [b, c, d] && [b, c, d][1..] == [c, d] && [c, d][1..] == [d] && [d][1..] == [];
    var t := Next(Next(s, a), b);
    assert Run(t, [c, d]) == Run(Next(t, c), [d]);
  }

  lemma {:induction false} RunConcat(s: System, first: seq<Step>, second: seq<Step>)
    ensures Run(s, first + second) == Run(Run(s, first), second)
    decreases |first|
  {
    if first == [] {
      assert first + second == second;
    } else {
      assert (first + second)[1..] == first[1..] + second;
      RunConcat(Next(s, first[0]), first[1..], second);
    }
  }

  /** Any text can be handed back while its post is still under way; then the post
      arrives after all, although the composer holds the text ready to be sent again. */
  lemma HandedBackTooEarly(text: string)
    requires text != ""
    ensures var s := Run(START, GivenUp(text)); var post := Submission(0, text, text, false);
      && Returned(0) in s.trace && post in s.posts && 0 !in s.recorded
      && s.composer == Composer(text, [], None) && s.flow.Idle?
      && 0 in Next(s, ServePost(post, Records)).recorded
  {
    var post := Submission(0, text, text, false);
    var query := Query(1, 0);
    var first := [Type(text, []), Send(text, false, true), Flushed(true), Flushed(true)];
    var second := [PostGivenUp, Check, ServeQuery(query), CheckAnswered(Missing(query))];
    RunFour(START, first[0], first[1], first[2], first[3]);
    var s := Run(START, first);
    assert s == System(Composer(text, [], Some(post)), Posting(post), {}, {post}, {}, {}, {}, 1, [Posted(0)]);
    RunFour(s, second[0], second[1], second[2], second[3]);
    var asked := Next(Next(s, second[0]), second[1]);
    assert asked.queries == {query} && asked.checks == {query};
    var t := Next(asked, second[2]);
    assert Missing(query) in t.answers;
    RunConcat(START, first, second);
  }

  /** A send that stayed unanswered can always be settled: one check that is answered
      clears it, and takes the text exactly if the engine has the submission. */
  lemma CheckingSettles(steps: seq<Step>)
    requires var s := Run(START, steps); s.flow.Idle? && s.composer.pending.Some?
    ensures var s := Run(START, steps); var sent := s.composer.pending.value; var query := Query(s.made, sent.id);
      Run(s, [Check, ServeQuery(query), CheckAnswered(QueryAnswer(s, query))]).composer ==
        if sent.id in s.recorded then Sent(s.composer, sent) else s.composer.(pending := None)
  {
    var s := Run(START, steps);
    var query := Query(s.made, s.composer.pending.value.id);
    var a, b, c := Check, ServeQuery(query), CheckAnswered(QueryAnswer(s, query));
    assert [a, b, c][1..] == [b, c] && [b, c][1..] == [c] && [c][1..] == [];
    var t := Next(Next(s, a), b);
    assert query in t.checks && QueryAnswer(s, query) in t.answers;
    assert Run(t, [c]) == Run(Next(t, c), []) == Next(t, c);
    assert Run(Next(s, a), [b, c]) == Run(t, [c]);
  }
}

/** The chat's own part, over its fields. */
module SubmissionObject {
  import opened Common
  import S = ChatSubmission

  class Chat {
    var composer: S.Composer
    var sending: S.Flow
    var checks: set<S.Query>
    var made: nat
    ghost var posts: set<S.Submission>
    ghost var queries: set<S.Query>
    ghost var answers: set<S.Answer>
    ghost var recorded: set<nat>
    ghost var trace: seq<S.Mark>

    ghost function At(): S.System
      reads this
    {
      S.System(composer, sending, checks, posts, queries, answers, recorded, made, trace)
    }

    constructor ()
      ensures At() == S.START
    {
      composer, sending, checks, made := S.Composer("", [], None), S.Idle, {}, 0;
      posts, queries, answers, recorded, trace := {}, {}, {}, {}, [];
    }

    /** `updateDraft` with the fields that a send or a check may change. */
    method UpdateDraft(pending: Option<S.Submission>, clear: bool)
      modifies this`composer
      ensures composer == if clear then S.Composer("", [], pending) else old(composer).(pending := pending)
    {
      composer := if clear then S.Composer("", [], pending) else composer.(pending := pending);
    }

    /** `send` up to the first flush. */
    method Send(text: string, keepText: bool, stored: bool)
      modifies this
      ensures At() == S.Next(old(At()), S.Send(text, keepText, stored))
    {
      if text == "" || !sending.Idle? { return; }
      if composer.pending.Some? { return; }
      if !stored { return; }
      var submission := S.Submission(made, text, composer.text, keepText);
      made := made + 1;
      UpdateDraft(Some(submission), false);
      sending := S.Saving(submission);
    }

    /** A flush came back; after the second one the submission is posted. */
    method Flushed(ok: bool) returns (post: Option<S.Submission>)
      modifies this
      ensures At() == S.Next(old(At()), S.Flushed(ok))
      ensures posts == old(posts) + if post.Some? then {post.value} else {}
    {
      post := None;
      if !ok {
        if sending.Saving? || sending.SavingAgain? { sending := S.Idle; }
      } else if sending.Saving? {
        sending := S.SavingAgain(sending.sent);
      } else if sending.SavingAgain? {
        post := Some(sending.sent);
        posts, trace := posts + {post.value}, trace + [S.Posted(post.value.id)];
        sending := S.Posting(post.value);
      }
    }

    method PostAnswered(answer: S.Answer)
      requires answer in answers
      modifies this
      ensures At() == S.Next(old(At()), S.PostAnswered(answer))
    {
      if !sending.Posting? { return; }
      var sent := sending.sent;
      if answer == S.Accepted(sent) {
        UpdateDraft(None, !sent.keepText && composer.text == sent.composerText);
        sending := S.Idle;
        trace := trace + [S.Confirmed(sent.id)];
      } else if answer == S.Failed(sent) {
        sending := S.Idle;
        trace := trace + [S.Rejected(sent.id)];
      }
    }

    /** `checkSubmission` up to its answer. */
    method CheckSubmission() returns (query: Option<S.Query>)
      modifies this
      ensures At() == S.Next(old(At()), S.Check)
      ensures queries == old(queries) + if query.Some? then {query.value} else {}
    {
      if composer.pending.None? || !sending.Idle? { return None; }
      query := Some(S.Query(made, composer.pending.value.id));
      made := made + 1;
      checks, queries := checks + {query.value}, queries + {query.value};
    }

    method CheckAnswered(answer: S.Answer)
      requires answer in answers && (answer.Found? || answer.Missing?) && answer.query in checks
      modifies this
      ensures At() == S.Next(old(At()), S.CheckAnswered(answer))
    {
      checks := checks - {answer.query};
      var latest := composer.pending;
      if latest.None? || latest.value.id != answer.query.id { return; }
      if answer.Found? {
        UpdateDraft(None, !latest.value.keepText && composer.text == latest.value.composerText);
        trace := trace + [S.Confirmed(latest.value.id)];
      } else {
        UpdateDraft(None, false);
        trace := trace + [S.Returned(latest.value.id)];
      }
    }

    /** What happens in the engine and on the way to it. */
    ghost method Elsewhere(step: S.Step)
      requires step.ServePost? || step.ServeQuery?
      modifies this`posts, this`queries, this`answers, this`recorded, this`trace
      ensures At() == S.Next(old(At()), step)
    {
      var after := S.Next(At(), step);
      posts, queries, answers := after.posts, after.queries, after.answers;
      recorded, trace := after.recorded, after.trace;
    }

    /** One step; an answer that was never given does not arrive. */
    method Perform(step: S.Step)
      requires (step.PostAnswered? || step.CheckAnswered?) ==> step.answer in answers
      requires step.CheckAnswered? ==> (step.answer.Found? || step.answer.Missing?) && step.answer.query in checks
      modifies this
      ensures At() == S.Next(old(At()), step)
    {
      match step {
        case Type(text, attachments) => composer := S.Composer(text, attachments, composer.pending);
        case Send(text, keepText, stored) => Send(text, keepText, stored);
        case Flushed(ok) => var _ := Flushed(ok);
        case ServePost(_, _) => Elsewhere(step);
        case PostAnswered(answer) => PostAnswered(answer);
        case PostGivenUp => if sending.Posting? { sending := S.Idle; }
        case Check => var _ := CheckSubmission();
        case ServeQuery(_) => Elsewhere(step);
        case CheckAnswered(answer) => CheckAnswered(answer);
        case CheckGivenUp(query) => checks := checks - {query};
        case Reload => sending, checks := S.Idle, {};
      }
    }

    /** Any sequence of calls does what the run does, so what is proved of runs holds
        of the object. */
    method PerformAll(steps: seq<S.Step>)
      requires Given(At(), steps)
      modifies this
      ensures At() == S.Run(old(At()), steps)
    {
      var i := 0;
      while i < |steps|
        invariant 0 <= i <= |steps| && Given(At(), steps[i..])
        invariant S.Run(At(), steps[i..]) == S.Run(old(At()), steps)
      {
        assert steps[i..][1..] == steps[i + 1..];
        Perform(steps[i]);
        i := i + 1;
      }
    }
  }

  /** Only answers that were given, to checks that are waiting, arrive. */
  ghost predicate Given(s: S.System, steps: seq<S.Step>)
    decreases |steps|
  {
    steps == [] ||
    (&& (steps[0].PostAnswered? || steps[0].CheckAnswered? ==> steps[0].answer in s.answers)
     && (steps[0].CheckAnswered? ==>
          (steps[0].answer.Found? || steps[0].answer.Missing?) && steps[0].answer.query in s.checks)
     && Given(S.Next(s, steps[0]), steps[1..]))
  }
}
