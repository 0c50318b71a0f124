/** Saving gets through: without another writer, and with everything answered, a
    written text ends up confirmed and in the engine's row. */
module RecoveryProgress {
  import opened Common
  import opened RecoveryView
  import opened RecoveryServer
  import opened RecoveryProtocol
  import opened RecoveryResults

  /** A post may only carry what the engine keeps under the key. */
  predicate Fits(v: View, kind: Kind) {
    v.loop.Posting? ==> Belongs(v.loop.snapshot.value, kind)
  }

  /** Nothing this view sent was lost or given up, nobody else saves, and what it
      knows of the row is the row's revision. */
  predicate InTouch(s: System, i: nat) {
    && i < |s.views|
    && var v := s.views[i];
    && !v.opening && v.queued == [] && Fits(v, s.kind)
    && s.posts == (if v.loop.Posting? then {PostOf(i, v)} else {})
    && (v.running != map[] ==> v.load.Some? && Get(i, v.load.value) in s.gets)
    && (v.load.Some? && v.running == map[] ==> v.version == Some(Revision(s.server.row)))
  }

  /** The engine's row can always be loaded. */
  predicate RowReads(s: System) {
    s.server.row.Some? ==> ValidValue(s.server.row.value.value)
  }

  /** The text is on screen, and either on its way or in the row. */
  predicate Carries(s: System, i: nat, value: Value) {
    && InTouch(s, i) && RowReads(s)
    && var v := s.views[i];
    && v.cache.Some? && v.cache.value.value == value
    && (!v.cache.value.saving ==> Confirmed(v) && s.server.row.Some? && s.server.row.value.value == value)
  }

  /** What is left to happen before the loop ends. */
  function Distance(v: View): nat {
    Turns(v) + if v.running != map[] then 1 else 0
  }

  /** Revisions are safe integers; three more saves have to fit. */
  predicate HasRoom(s: System, saves: nat) {
    Revision(s.server.row) + saves <= MAX_SAFE_INTEGER
  }

  lemma RowReadsStays(s: System, step: Step)
    requires RowReads(s)
    ensures RowReads(Next(s, step))
  {
  }

  lemma {:induction false} RowReadsInRuns(s: System, steps: seq<Step>)
    requires RowReads(s)
    ensures RowReads(Run(s, steps))
    decreases |steps|
  {
    if steps != [] {
      RowReadsStays(s, steps[0]);
      RowReadsInRuns(Next(s, steps[0]), steps[1..]);
    }
  }

  function LoadReply(s: System, get: Get): Reply {
    var row := s.server.row;
    Loaded(get, row.Some?, if row.Some? then row.value.value else None, Revision(row))
  }

  /** The next answer, or the continuation after one. */
  function Answers(s: System, i: nat): seq<Step>
    requires i < |s.views|
  {
    var v := s.views[i];
    if v.running != map[] && v.load.Some? then
      [ServeGet(Get(i, v.load.value)), Deliver(LoadReply(s, Get(i, v.load.value)), false)]
    else if v.loop.Waiting? then [Local(i, Resume)]
    else if v.loop.Posting? then
      [ServePost(PostOf(i, v)), Deliver(Stored(PostOf(i, v), v.loop.revision + 1), false)]
    else []
  }

  /** Only the network, the engine and the view's own continuations. */
  predicate OnlyAnswers(steps: seq<Step>, i: nat) {
    forall k | 0 <= k < |steps| ::
      steps[k].ServeGet? || steps[k].ServePost? || steps[k].Deliver? || steps[k] == Local(i, Resume)
  }

  lemma AnswersAreAnswers(s: System, i: nat)
    requires i < |s.views|
    ensures OnlyAnswers(Answers(s, i), i)
  {
  }

  lemma TwoSteps(s: System, a: Step, b: Step)
    ensures Run(s, [a, b]) == Next(Next(s, a), b)
  {
    assert [a, b][1..] == [b] && [b][1..] == [];
    assert Run(Next(s, a), [b]) == Run(Next(Next(s, a), b), []);
  }

  lemma OneStep(s: System, a: Step)
    ensures Run(s, [a]) == Next(s, a)
  {
    assert [a][1..] == [];
  }

  lemma LoadCarries(s: System, i: nat, value: Value)
    requires Inv(s) && Carries(s, i, value) && s.views[i].running != map[]
    ensures var t := Run(s, Answers(s, i));
      && Carries(t, i, value) && Distance(t.views[i]) < Distance(s.views[i]) && t.server == s.server
  {
    var v := s.views[i];
    assert ViewInv(s.server, v);
    var l :| l in v.running;
    assert v.load == Some(l) && v.running.Keys == {l};
    var get := Get(i, l);
    var reply := LoadReply(s, get);
    TwoSteps(s, ServeGet(get), Deliver(reply, false));
    var u := Next(s, ServeGet(get));
    assert reply in u.replies && u.views == s.views;
    var w := LoadAnswered(v, l, s.server.row.Some?, reply.value, reply.revision, false);
    assert w.running == map[];
    assert Next(u, Deliver(reply, false)).views[i] == w;
  }

  lemma ResumeCarries(s: System, i: nat, value: Value)
    requires Inv(s) && Carries(s, i, value) && s.views[i].running == map[] && s.views[i].loop.Waiting?
    requires Belongs(value, s.kind)
    ensures var t := Run(s, Answers(s, i));
      && Carries(t, i, value) && Distance(t.views[i]) < Distance(s.views[i]) && t.server == s.server
  {
    assert ViewInv(s.server, s.views[i]);
    OneStep(s, Local(i, Resume));
    var w := Head(s.views[i]);
    var t := Next(s, Local(i, Resume));
    assert t.views[i] == w;
  }

  /** An accepted post: confirmed if its text is still on screen, otherwise posted again. */
  lemma AcceptedView(server: Server, v: View, i: nat, revision: nat)
    requires ViewInv(server, v) && v.loop.Posting? && !v.opening && v.queued == []
    ensures var w := PostAccepted(v, revision);
      && w.cache.Some? && w.cache.value.value == v.cache.value.value
      && !w.opening && w.queued == [] && w.running == map[] && w.load == v.load && w.version == Some(revision)
      && (w.loop.Posting? || w.loop.Idle?)
      && (w.loop.Posting? ==> w.loop != v.loop && w.cache.value.saving && w.loop.snapshot.value == v.cache.value.value)
      && (w.loop.Idle? ==> Confirmed(w) && v.cache.value.value == v.loop.snapshot.value)
      && (w.cache.value.saving <==> w.loop.Posting?)
  {
  }

  /** The engine accepts the post that is under way. */
  lemma PostServed(s: System, i: nat)
    requires i < |s.views| && s.views[i].loop.Posting? && s.posts == {PostOf(i, s.views[i])}
    requires Belongs(s.views[i].loop.snapshot.value, s.kind)
    requires s.views[i].loop.revision == Revision(s.server.row) && HasRoom(s, 1)
    ensures var v := s.views[i];
      var u := Next(s, ServePost(PostOf(i, v)));
      && u.views == s.views && u.posts == {} && u.kind == s.kind
      && Stored(PostOf(i, v), v.loop.revision + 1) in u.replies
      && u.server.row == Some(Row(v.loop.snapshot.value, v.loop.revision + 1))
  {
    var post := PostOf(i, s.views[i]);
    CheckMeans(s.server.row, s.kind, post.value, post.revision);
  }

  lemma AnswerDelivered(s: System, i: nat)
    requires i < |s.views| && s.views[i].loop.Posting? && s.posts == {}
    requires Stored(PostOf(i, s.views[i]), s.views[i].loop.revision + 1) in s.replies
    ensures var v := s.views[i];
      var w := PostAccepted(v, v.loop.revision + 1);
      var t := Next(s, Deliver(Stored(PostOf(i, v), v.loop.revision + 1), false));
      && t.views == s.views[i := w] && t.kind == s.kind && t.server == s.server && t.posts == PostsOf(i, v, w)
  {
    assert Awaits(s, PostOf(i, s.views[i]));
  }

  lemma PostStored(s: System, i: nat)
    requires Inv(s) && InTouch(s, i) && s.views[i].loop.Posting? && s.views[i].running == map[] && HasRoom(s, 1)
    ensures var v := s.views[i];
      var t := Run(s, Answers(s, i));
      && t.views == s.views[i := PostAccepted(v, v.loop.revision + 1)] && t.kind == s.kind
      && t.server.row == Some(Row(v.loop.snapshot.value, v.loop.revision + 1))
      && t.posts == PostsOf(i, v, PostAccepted(v, v.loop.revision + 1))
      && v.loop.revision == Revision(s.server.row)
  {
    var v := s.views[i];
    assert ViewInv(s.server, v);
    PostServed(s, i);
    AnswerDelivered(Next(s, ServePost(PostOf(i, v))), i);
    TwoSteps(s, ServePost(PostOf(i, v)), Deliver(Stored(PostOf(i, v), v.loop.revision + 1), false));
  }

  lemma PostCarries(s: System, i: nat, value: Value)
    requires Inv(s) && Carries(s, i, value) && s.views[i].running == map[] && s.views[i].loop.Posting?
    requires Belongs(value, s.kind) && HasRoom(s, 1)
    ensures var t := Run(s, Answers(s, i));
      && Carries(t, i, value) && Distance(t.views[i]) < Distance(s.views[i])
      && Revision(t.server.row) == Revision(s.server.row) + 1
  {
    var v := s.views[i];
    assert ViewInv(s.server, v);
    PostStored(s, i);
    AcceptedView(s.server, v, i, v.loop.revision + 1);
    PostTurns(s.server, v, v.loop.revision + 1);
  }

  lemma AnswersCarry(s: System, i: nat, value: Value)
    requires Inv(s) && Carries(s, i, value) && Belongs(value, s.kind)
    requires Distance(s.views[i]) > 0 && HasRoom(s, Distance(s.views[i]))
    ensures var t := Run(s, Answers(s, i));
      && Carries(t, i, value) && Distance(t.views[i]) < Distance(s.views[i])
      && HasRoom(t, Distance(t.views[i])) && t.kind == s.kind
  {
    if s.views[i].running != map[] { LoadCarries(s, i, value); }
    else if s.views[i].loop.Waiting? { ResumeCarries(s, i, value); }
    else { PostCarries(s, i, value); }
    KindStays(s, Answers(s, i));
  }

  lemma {:induction false} KindStays(s: System, steps: seq<Step>)
    ensures Run(s, steps).kind == s.kind
    decreases |steps|
  {
    if steps != [] { KindStays(Next(s, steps[0]), steps[1..]); }
  }

  lemma {:induction false} RunConcat(s: System, first: seq<Step>, second: seq<Step>)
    ensures Run(s, first + second) == Run(Run(s, first), second)
    decreases |first|
  {
    if first == [] {
      assert first + second == second;
    } else {
      assert (first + second)[1..] == first[1..] + second;
      RunConcat(Next(s, first[0]), first[1..], second);
    }
  }

  lemma {:induction false} AnswersAreCalm(s: System, steps: seq<Step>, i: nat)
    requires OnlyAnswers(steps, i)
    ensures CalmRun(s, steps)
    decreases |steps|
  {
    if steps != [] {
      assert forall k :: 0 <= k < |steps[1..]| ==> steps[1..][k] == steps[k + 1];
      AnswersAreCalm(Next(s, steps[0]), steps[1..], i);
    }
  }

  /** All answers together. */
  lemma {:induction false} CarriedText(s: System, i: nat, value: Value) returns (steps: seq<Step>)
    requires Inv(s) && Carries(s, i, value) && Belongs(value, s.kind) && HasRoom(s, Distance(s.views[i]))
    ensures OnlyAnswers(steps, i)
    ensures var t := Run(s, steps);
      && i < |t.views| && Confirmed(t.views[i]) && t.views[i].cache.value.value == value
      && t.server.row.Some? && t.server.row.value.value == value
    decreases Distance(s.views[i])
  {
    if Distance(s.views[i]) == 0 {
      assert ViewInv(s.server, s.views[i]);
      steps := [];
    } else {
      AnswersCarry(s, i, value);
      AnswersAreAnswers(s, i);
      AnswersAreCalm(s, Answers(s, i), i);
      RunKeeps(s, Answers(s, i));
      var rest := CarriedText(Run(s, Answers(s, i)), i, value);
      RunConcat(s, Answers(s, i), rest);
      steps := Answers(s, i) + rest;
    }
  }

  lemma WriteCarries(s: System, i: nat, value: Value, copyFails: bool)
    requires Inv(s) && InTouch(s, i) && RowReads(s) && ValidValue(value)
    ensures var t := Next(s, Local(i, CallWrite(value, copyFails)));
      Carries(t, i, value) && Distance(t.views[i]) <= 4 && t.server == s.server && t.kind == s.kind
  {
    assert ViewInv(s.server, s.views[i]);
  }

  /** Saving gets through. From any reachable state in which nobody else saves and
      nothing of this view was lost, a written text, once its load and posts are
      answered, is confirmed on screen and is the row's value. */
  lemma WrittenTextIsSaved(kind: Kind, before: seq<Step>, i: nat, value: Value, copyFails: bool)
    requires CalmRun(Initial(kind, false), before)
    requires var s := Run(Initial(kind, false), before); InTouch(s, i) && HasRoom(s, 4)
    requires Belongs(value, kind)
    ensures exists steps ::
      OnlyAnswers(steps, i) &&
      var t := Run(Next(Run(Initial(kind, false), before), Local(i, CallWrite(value, copyFails))), steps);
      && i < |t.views| && Confirmed(t.views[i]) && t.views[i].cache.value.value == value
      && t.server.row.Some? && t.server.row.value.value == value
  {
    InitialHolds(kind, false);
    RunKeeps(Initial(kind, false), before);
    RowReadsInRuns(Initial(kind, false), before);
    KindStays(Initial(kind, false), before);
    var s := Run(Initial(kind, false), before);
    WriteCarries(s, i, value, copyFails);
    NextKeeps(s, Local(i, CallWrite(value, copyFails)));
    var steps := CarriedText(Next(s, Local(i, CallWrite(value, copyFails))), i, value);
  }

  /** In particular the second, and every later, text of a chat. */
  lemma ChatTextIsSaved(before: seq<Step>, i: nat, text: string)
    requires CalmRun(Initial(ChatKind, false), before)
    requires var s := Run(Initial(ChatKind, false), before); InTouch(s, i) && HasRoom(s, 4)
    requires |text| <= 14000
    ensures exists steps ::
      OnlyAnswers(steps, i) &&
      var draft := Some(Chat(text, [], "quick", None));
      var t := Run(Next(Run(Initial(ChatKind, false), before), Local(i, CallWrite(draft, false))), steps);
      i < |t.views| && Confirmed(t.views[i]) && t.server.row.Some? && t.server.row.value.value == draft
  {
    WrittenTextIsSaved(ChatKind, before, i, Some(Chat(text, [], "quick", None)), false);
  }
}
