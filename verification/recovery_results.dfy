/** What the recovery protocol promises over all runs. */
module RecoveryResults {
  import opened Common
  import opened RecoveryView
  import opened RecoveryServer
  import opened RecoveryProtocol

  lemma InitialHolds(kind: Kind, opening: bool)
    ensures Inv(Initial(kind, opening))
  {
  }

  /** Confirmed means durable: whatever the network did, a view that shows its
      text as kept holds exactly the engine's value at the revision it recorded. */
  lemma ConfirmedIsDurable(kind: Kind, opening: bool, steps: seq<Step>)
    requires CalmRun(Initial(kind, opening), steps)
    ensures var s := Run(Initial(kind, opening), steps);
      forall i :: 0 <= i < |s.views| && Confirmed(s.views[i]) ==>
        && s.views[i].version.Some?
        && Holds(s.server, s.views[i].version.value, s.views[i].cache.value.value)
        && (s.views[i].version.value == Revision(s.server.row) ==>
              s.views[i].cache.value.value == if s.server.row.Some? then s.server.row.value.value else None)
  {
    InitialHolds(kind, opening);
    RunKeeps(Initial(kind, opening), steps);
    var s := Run(Initial(kind, opening), steps);
    assert forall i :: 0 <= i < |s.views| ==> ViewInv(s.server, s.views[i]);
  }

  /** No blind overwrite: the save that made revision r + 1 was posted over
      revision r, by a view that had been told of revision r. */
  lemma NoBlindOverwrite(kind: Kind, opening: bool, steps: seq<Step>)
    requires CalmRun(Initial(kind, opening), steps)
    ensures var s := Run(Initial(kind, opening), steps);
      && Revision(s.server.row) == |s.server.commits| == |s.server.history| - 1
      && forall r :: 0 <= r < |s.server.commits| ==>
           && s.server.commits[r].revision == r
           && s.server.commits[r].value == s.server.history[r + 1]
           && (s.server.commits[r].view, r) in s.learned
  {
    InitialHolds(kind, opening);
    RunKeeps(Initial(kind, opening), steps);
  }

  /** Once another save is accepted over the same revision, a stale one never
      is, however late it arrives; and what was accepted is never rewritten. */
  lemma StaleSaveIsNeverAccepted(s: System, steps: seq<Step>, stale: Post)
    requires Inv(s) && CalmRun(s, steps) && stale.revision < Revision(s.server.row)
    ensures var t := Run(s, steps);
      && s.server.history <= t.server.history
      && s.server.commits <= t.server.commits
      && stale !in t.server.commits[|s.server.commits|..]
  {
    RunKeeps(s, steps);
    var t := Run(s, steps);
    assert forall r :: |s.server.commits| <= r < |t.server.commits| ==> t.server.commits[r].revision == r;
  }

  /** The view behind a refused save keeps its text on screen, says it is not
      saved, and stops; the row stays as it was. */
  lemma StaleViewKeepsItsText(s: System, post: Post)
    requires Inv(s) && post in s.posts && Awaits(s, post) && post.revision < Revision(s.server.row)
    ensures var t := Next(Next(s, ServePost(post)), Deliver(Refused(post), false));
      && t.server == s.server
      && t.views[post.view].cache.Some?
      && t.views[post.view].cache.value.value == s.views[post.view].cache.value.value
      && t.views[post.view].cache.value.notice == NotSaved
      && t.views[post.view].loop.Idle?
  {
    assert PostInv(s, post);
    assert ViewInv(s.server, s.views[post.view]);
    var u := Next(s, ServePost(post));
    assert Refused(post) in u.replies;
    assert u.views == s.views;
  }

  /** A view waits for at most one save: of two under way, one was given up, and
      whatever is answered to that one changes no view. */
  lemma OneSaveInFlight(kind: Kind, opening: bool, steps: seq<Step>, p: Post, q: Post, revision: nat, fails: bool)
    requires CalmRun(Initial(kind, opening), steps)
    requires var s := Run(Initial(kind, opening), steps);
      p in s.posts && q in s.posts && p.view == q.view && p != q
    ensures var s := Run(Initial(kind, opening), steps);
      exists given :: (given == p || given == q)
        && Delivered(s, Stored(given, revision), fails).views == s.views
        && Delivered(s, Refused(given), fails).views == s.views
  {
    InitialHolds(kind, opening);
    RunKeeps(Initial(kind, opening), steps);
    var s := Run(Initial(kind, opening), steps);
    assert PostInv(s, p) && PostInv(s, q);
    var given := if Awaits(s, p) then q else p;
    assert Delivered(s, Refused(given), fails).views == s.views;
  }

  // ------------------------------------------------------------ the save loop

  /** The act puts new text, or a new reason to save, into a view. */
  predicate Disturbs(step: Step, i: nat) {
    step.Local? && step.view == i &&
    (step.act.CallWrite? || step.act.Microtask? || step.act.CallFlush? || step.act.CallInvalidate?)
  }

  predicate Undisturbed(steps: seq<Step>, i: nat) {
    forall k :: 0 <= k < |steps| ==> !Disturbs(steps[k], i)
  }

  /** How many more turns the loop of a view can take on its own. */
  function Turns(v: View): nat {
    match v.loop
    case Idle => 0
    case Waiting(_) => 3
    case Posting(snapshot, _, _) =>
      if v.cache.Some? && v.cache.value.stamp == snapshot.stamp then 1 else 2
  }

  /** How often the loop of view `i` moves in a run. */
  function Moves(s: System, steps: seq<Step>, i: nat): nat
    requires i < |s.views|
    decreases |steps|
  {
    if steps == [] then 0 else
    var t := Next(s, steps[0]);
    ViewsStay(s, steps[0]);
    (if t.views[i].loop != s.views[i].loop then 1 else 0) + Moves(t, steps[1..], i)
  }

  lemma ViewsStay(s: System, step: Step)
    ensures |s.views| <= |Next(s, step).views|
  {
  }

  lemma ActTurns(server: Server, v: View, act: Act)
    requires ViewInv(server, v)
    requires !act.CallWrite? && !act.Microtask? && !act.CallFlush? && !act.CallInvalidate?
    ensures Turns(Acted(v, act)) <= Turns(v)
    ensures Acted(v, act).loop != v.loop ==> Turns(Acted(v, act)) < Turns(v)
  {
  }

  lemma LoadTurns(server: Server, v: View, load: nat, found: bool, value: Value, revision: nat, copyFails: bool)
    requires ViewInv(server, v) && load in v.running
    ensures var w := LoadAnswered(v, load, found, value, revision, copyFails); w.loop == v.loop && Turns(w) <= Turns(v)
  {
  }

  lemma PostTurns(server: Server, v: View, revision: nat)
    requires ViewInv(server, v) && v.loop.Posting?
    ensures Turns(PostAccepted(v, revision)) < Turns(v) && Turns(PostFailed(v)) < Turns(v)
  {
  }

  lemma AnswerTurns(s: System, i: nat, reply: Reply, copyFails: bool)
    requires Inv(s) && i < |s.views| && reply in s.replies
    ensures var w := Delivered(s, reply, copyFails).views[i];
      Turns(w) <= Turns(s.views[i]) && (w.loop != s.views[i].loop ==> Turns(w) < Turns(s.views[i]))
  {
    assert ViewInv(s.server, s.views[i]);
    match reply
    case Loaded(get, found, value, revision) =>
      if get.view == i && get.load in s.views[i].running {
        LoadTurns(s.server, s.views[i], get.load, found, value, revision, copyFails);
      }
    case Stored(post, revision) => if post.view == i && Awaits(s, post) { PostTurns(s.server, s.views[i], revision); }
    case Refused(post) => if post.view == i && Awaits(s, post) { PostTurns(s.server, s.views[i], 0); }
  }

  lemma StepTurns(s: System, i: nat, step: Step)
    requires Inv(s) && i < |s.views| && !Disturbs(step, i)
    ensures i < |Next(s, step).views|
    ensures var w := Next(s, step).views[i];
      Turns(w) <= Turns(s.views[i]) && (w.loop != s.views[i].loop ==> Turns(w) < Turns(s.views[i]))
  {
    assert ViewInv(s.server, s.views[i]);
    match step
    case Local(j, act) => if j == i { ActTurns(s.server, s.views[i], act); }
    case Deliver(reply, fails) => if reply in s.replies { AnswerTurns(s, i, reply, fails); }
    case _ =>
  }

  /** Once writing stops the loop of a view moves at most three times, whatever
      happens in the network and in the other views. */
  lemma {:induction false} SaveLoopEnds(s: System, steps: seq<Step>, i: nat)
    requires Inv(s) && CalmRun(s, steps) && i < |s.views| && Undisturbed(steps, i)
    ensures Moves(s, steps, i) <= Turns(s.views[i]) <= 3
    decreases |steps|
  {
    if steps != [] {
      var t := Next(s, steps[0]);
      StepTurns(s, i, steps[0]);
      NextKeeps(s, steps[0]);
      assert forall k :: 0 <= k < |steps[1..]| ==> steps[1..][k] == steps[k + 1];
      SaveLoopEnds(t, steps[1..], i);
    }
  }

  /** The text last written is still on screen and cannot be replaced by a late load. */
  predicate Keeps(v: View, value: Value) {
    && v.cache.Some? && v.cache.value.value == value
    && (forall l | l in v.running :: v.cache.value.stamp > v.running[l].stamp || v.running[l].saving)
    && (v.load.Some? || v.opening)
    && (v.opening ==> v.cache.value.saving || !v.cache.value.notice.Clear?)
  }

  /** The step puts other text into a view, or forgets it. */
  predicate Replaces(s: System, step: Step, i: nat) {
    step.Local? && step.view == i && i < |s.views| &&
    (step.act.CallWrite? || step.act.CallInvalidate? || (step.act.Microtask? && s.views[i].queued != []))
  }

  /** Nothing else is written into the view; it may be flushed, reloaded and changed elsewhere. */
  predicate TextAlone(s: System, steps: seq<Step>, i: nat)
    decreases |steps|
  {
    steps == [] || (!Replaces(s, steps[0], i) && TextAlone(Next(s, steps[0]), steps[1..], i))
  }

  lemma WriteBeginsKeeping(server: Server, v: View, value: Value, copyFails: bool)
    requires ViewInv(server, v) && ValidValue(value)
    ensures Keeps(Write(v, value, copyFails), value)
  {
    ReadKeeps(server, v);
    EditedKeeps(server, Read(v), value, copyFails);
  }

  lemma ActKeepsText(server: Server, v: View, act: Act, value: Value)
    requires ViewInv(server, v) && Keeps(v, value)
    requires !act.CallWrite? && !act.CallInvalidate? && (act.Microtask? ==> v.queued == [])
    ensures Keeps(Acted(v, act), value)
  {
  }

  lemma AnswerKeepsText(s: System, i: nat, reply: Reply, copyFails: bool, value: Value)
    requires Inv(s) && i < |s.views| && Keeps(s.views[i], value) && reply in s.replies
    ensures i < |Delivered(s, reply, copyFails).views| && Keeps(Delivered(s, reply, copyFails).views[i], value)
  {
    assert ViewInv(s.server, s.views[i]) && ReplyInv(s, reply);
  }

  lemma StepKeepsText(s: System, i: nat, step: Step, value: Value)
    requires Inv(s) && i < |s.views| && !Replaces(s, step, i) && Keeps(s.views[i], value)
    ensures i < |Next(s, step).views| && Keeps(Next(s, step).views[i], value)
  {
    match step
    case Local(j, act) =>
      if j == i {
        assert ViewInv(s.server, s.views[i]);
        ActKeepsText(s.server, s.views[i], act, value);
      }
    case Deliver(reply, fails) => if reply in s.replies { AnswerKeepsText(s, i, reply, fails, value); }
    case _ =>
  }

  lemma {:induction false} RunKeepsText(s: System, steps: seq<Step>, i: nat, value: Value)
    requires Inv(s) && CalmRun(s, steps) && i < |s.views| && TextAlone(s, steps, i) && Keeps(s.views[i], value)
    ensures i < |Run(s, steps).views| && Keeps(Run(s, steps).views[i], value)
    decreases |steps|
  {
    if steps != [] {
      StepKeepsText(s, i, steps[0], value);
      NextKeeps(s, steps[0]);
      RunKeepsText(Next(s, steps[0]), steps[1..], i, value);
    }
  }

  /** When the loop has ended after a write, that very text is on screen, and it
      is the engine's at the recorded revision unless the screen shows an error. */
  lemma LatestWriteIsConfirmedOrFlagged(s: System, i: nat, value: Value, copyFails: bool, steps: seq<Step>)
    requires Inv(s) && i < |s.views| && ValidValue(value)
    requires var written := Next(s, Local(i, CallWrite(value, copyFails)));
      CalmRun(written, steps) && TextAlone(written, steps, i)
    ensures var t := Run(Next(s, Local(i, CallWrite(value, copyFails))), steps);
      && i < |t.views|
      && t.views[i].cache.Some? && t.views[i].cache.value.value == value
      && (t.views[i].loop.Idle? ==>
            && !t.views[i].cache.value.saving
            && (t.views[i].cache.value.notice.Clear? ==> t.views[i].cache.value.ready)
            && (t.views[i].cache.value.notice.Clear? && t.views[i].queued == [] ==>
                  t.views[i].version.Some? && Holds(t.server, t.views[i].version.value, value)))
  {
    var step := Local(i, CallWrite(value, copyFails));
    var u := Next(s, step);
    assert ViewInv(s.server, s.views[i]);
    WriteBeginsKeeping(s.server, s.views[i], value, copyFails);
    NextKeeps(s, step);
    RunKeepsText(u, steps, i, value);
    RunKeeps(u, steps);
    assert ViewInv(Run(u, steps).server, Run(u, steps).views[i]);
  }

  // ------------------------------------------------------------ invalidation

  /** The browser's storage event only ever reaches a key that was never read
      here, so it changes nothing. */
  lemma StorageEventChangesNothing(kind: Kind, opening: bool, steps: seq<Step>, i: nat)
    requires CalmRun(Initial(kind, opening), steps)
    requires i < |Run(Initial(kind, opening), steps).views|
    ensures var s := Run(Initial(kind, opening), steps); Next(s, Local(i, StorageChanged)) == s
  {
    InitialHolds(kind, opening);
    RunKeeps(Initial(kind, opening), steps);
    var s := Run(Initial(kind, opening), steps);
    assert ViewInv(s.server, s.views[i]);
    assert s.views[i := s.views[i]] == s.views;
  }

  /** Invalidating while a load is under way is not harmless: when the answer
      arrives the browser's copy is shown as kept, rightly only if it happens to
      equal the engine's value. */
  lemma InvalidatedLoadIsDurableOnlyByChance(
      server: Server, v: View, load: nat, found: bool, value: Value, revision: nat, copyFails: bool)
    requires ViewInv(server, v) && load in v.running
    requires Holds(server, revision, value) && ValidValue(value)
    ensures var w := LoadAnswered(Invalidate(v), load, found, value, revision, copyFails);
      Durable(server, w) <==>
        (v.queued == [] && v.browser.Readable? && ValidValue(v.browser.value) ==> v.browser.value == value)
  {
  }

  /** Whatever the engine answers to that load, a browser copy that another tab wrote
      makes it wrong: a caller cannot rule it out. */
  lemma InvalidatingAnUnansweredLoadCanGoWrong(
      server: Server, v: View, load: nat, found: bool, value: Value, revision: nat, copyFails: bool)
    requires ViewInv(server, v) && load in v.running && v.queued == []
    requires Holds(server, revision, value) && ValidValue(value)
    ensures exists copy ::
      ValidValue(copy) &&
      !Durable(server, LoadAnswered(Invalidate(v.(browser := Readable(copy))), load, found, value, revision, copyFails))
  {
    var copy := if value == None then Some(Report("", "", "")) else None;
    InvalidatedLoadIsDurableOnlyByChance(
      server, v.(browser := Readable(copy)), load, found, value, revision, copyFails);
  }

  /** What a load that is answered without a competing write leaves as text. */
  function Adopted(v: View, found: bool, value: Value): Value
    requires v.cache.Some?
  {
    if found then value else v.cache.value.value
  }

  /** Invalidating while a save is under way: if a new load is answered first
      and the save is accepted afterwards, the screen shows the loaded text as
      kept at the revision of the other one. */
  lemma InvalidatedSaveIsDurableOnlyByChance(
      server: Server, v: View, found: bool, value: Value, revision: nat, copyFails: bool, accepted: nat)
    requires ViewInv(server, v) && v.loop.Posting? && !v.opening && v.running == map[]
    requires Holds(server, revision, value) && ValidValue(value) && (!found ==> value == None)
    requires Holds(server, accepted, v.loop.snapshot.value)
    ensures var hydrated := Hydrate(Invalidate(v));
      && hydrated.load.Some? && hydrated.load.value in hydrated.running
      && var loaded := LoadAnswered(hydrated, hydrated.load.value, found, value, revision, copyFails);
      && loaded.loop.Posting?
      && var kept := Adopted(hydrated, found, value);
      Durable(server, PostAccepted(loaded, accepted)) <==>
        (v.queued == [] && (found || kept == None) ==> kept == v.loop.snapshot.value)
  {
  }

  /** In the other order, the save accepted before the new load is answered, it is harmless. */
  lemma InvalidatedSaveAcceptedFirstIsDurable(
      server: Server, v: View, found: bool, value: Value, revision: nat, copyFails: bool, accepted: nat)
    requires ViewInv(server, v) && v.loop.Posting? && !v.opening && v.running == map[]
    requires Holds(server, revision, value) && ValidValue(value) && (!found ==> value == None)
    ensures var hydrated := Hydrate(Invalidate(v));
      && hydrated.load.Some?
      && var saved := PostAccepted(hydrated, accepted);
      && hydrated.load.value in saved.running
      && Durable(server, LoadAnswered(saved, hydrated.load.value, found, value, revision, copyFails))
  {
  }

  /** Whatever text is being saved, another view's save after it makes it wrong. */
  lemma InvalidatingAnUnansweredSaveCanGoWrong(server: Server, v: View, copyFails: bool, accepted: nat)
    requires ViewInv(server, v) && v.loop.Posting? && !v.opening && v.running == map[] && v.queued == []
    requires Holds(server, accepted, v.loop.snapshot.value)
    ensures exists value ::
      ValidValue(value) &&
      var later := server.(history := server.history + [value]);
      var hydrated := Hydrate(Invalidate(v));
      && hydrated.load.Some? && hydrated.load.value in hydrated.running
      && var loaded := LoadAnswered(hydrated, hydrated.load.value, true, value, |server.history|, copyFails);
      loaded.loop.Posting? && !Durable(later, PostAccepted(loaded, accepted))
  {
    var value := if v.loop.snapshot.value == None then Some(Report("", "", "")) else None;
    var later := server.(history := server.history + [value]);
    GrowthKeeps(server, later, v);
    InvalidatedSaveIsDurableOnlyByChance(later, v, true, value, |server.history|, copyFails, accepted);
  }

  lemma RunOne(s: System, step: Step, rest: seq<Step>)
    ensures Run(s, [step] + rest) == Run(Next(s, step), rest)
  {
    assert ([step] + rest)[1..] == rest;
  }

  lemma RunFive(s: System, a: Step, b: Step, c: Step, d: Step, e: Step)
    ensures Run(s, [a] + ([b] + ([c] + ([d] + ([e] + []))))) == Next(Next(Next(Next(Next(s, a), b), c), d), e)
  {
    RunOne(s, a, [b] + ([c] + ([d] + ([e] + []))));
    RunOne(Next(s, a), b, [c] + ([d] + ([e] + [])));
    RunOne(Next(Next(s, a), b), c, [d] + ([e] + []));
    RunOne(Next(Next(Next(s, a), b), c), d, [e] + []);
    RunOne(Next(Next(Next(Next(s, a), b), c), d), e, []);
  }

  /** Opened, read and invalidated before the answer. */
  lemma InvalidatedWhileLoading(browser: Browser, draft: Value)
    requires browser == Readable(draft) && ValidValue(draft)
    ensures var first := Next(Initial(ReportKind, false), Open(browser));
      var s := Next(Next(first, Local(0, CallHydrate)), Local(0, CallInvalidate));
      && s.gets == {Get(0, 1)} && s.server == Initial(ReportKind, false).server && s.replies == {}
      && s.views == [NewView(false, browser).(running := map[1 := Snapshot(0, draft, Clear, false, false)], made := 2)]
  {
    var s0 := Initial(ReportKind, false);
    var s1 := Next(s0, Open(browser));
    assert s1.views == [NewView(false, browser)] && s1.gets == {} && s1.replies == {} && s1.server == s0.server;
    HydratedThenInvalidated(browser, draft);
    var hydrated := Hydrate(NewView(false, browser));
    var s2 := Next(s1, Local(0, CallHydrate));
    assert s2.views == [hydrated];
  }

  lemma HydratedThenInvalidated(browser: Browser, draft: Value)
    requires browser == Readable(draft) && ValidValue(draft)
    ensures var v := NewView(false, browser); var hydrated := Hydrate(v);
      && GetsOf(0, v, hydrated) == {Get(0, 1)} && PostsOf(0, v, hydrated) == {}
      && GetsOf(0, hydrated, Invalidate(hydrated)) == {} && PostsOf(0, hydrated, Invalidate(hydrated)) == {}
      && Invalidate(hydrated) == v.(running := map[1 := Snapshot(0, draft, Clear, false, false)], made := 2)
  {
  }

  /** The answer to that read makes the browser's text look kept. */
  lemma AnsweredAfterInvalidation(s: System, browser: Browser, draft: Value)
    requires browser == Readable(draft) && draft.Some? && ValidValue(draft)
    requires s.gets == {Get(0, 1)} && s.server == Initial(ReportKind, false).server && s.replies == {}
    requires s.views ==
      [NewView(false, browser).(running := map[1 := Snapshot(0, draft, Clear, false, false)], made := 2)]
    ensures var t := Next(Next(s, ServeGet(Get(0, 1))), Deliver(Loaded(Get(0, 1), false, None, 0), false));
      |t.views| == 1 && Confirmed(t.views[0]) && !Durable(t.server, t.views[0])
  {
    var u := Next(s, ServeGet(Get(0, 1)));
    var reply := Loaded(Get(0, 1), false, None, 0);
    assert reply in u.replies && u.views == s.views;
    var t := Next(u, Deliver(reply, false));
    assert t.views[0] == LoadAnswered(s.views[0], 1, false, None, 0, false);
  }

  /** A whole run in which it goes wrong: text that only the browser has is shown as kept. */
  lemma InvalidationCanConfirmUnsavedText()
    ensures exists steps :: var s := Run(Initial(ReportKind, false), steps);
      |s.views| == 1 && Confirmed(s.views[0]) && !Durable(s.server, s.views[0])
  {
    var draft := Some(Report("unsaved", "", ""));
    var s0 := Initial(ReportKind, false);
    var a, b, c := Open(Readable(draft)), Local(0, CallHydrate), Local(0, CallInvalidate);
    var d, e := ServeGet(Get(0, 1)), Deliver(Loaded(Get(0, 1), false, None, 0), false);
    InvalidatedWhileLoading(Readable(draft), draft);
    AnsweredAfterInvalidation(Next(Next(Next(s0, a), b), c), Readable(draft), draft);
    RunFive(s0, a, b, c, d, e);
  }
}
