/** Any number of views of one recovery key, the engine's row, and a network
    that may delay, reorder or lose every request and every answer. A request
    given up by its view can still reach the engine later. */
module RecoveryProtocol {
  import opened Common
  import opened RecoveryView
  import opened RecoveryServer

  datatype Get = Get(view: nat, load: nat)

  datatype Post = Post(view: nat, request: nat, value: Value, revision: nat)

  datatype Reply =
    | Loaded(get: Get, found: bool, value: Value, revision: nat)
    | Stored(post: Post, revision: nat)
    | Refused(post: Post)

  /** `history` and `commits` are bookkeeping: the value at every revision so
      far and the request that made each one. */
  datatype Server = Server(row: Option<Row>, history: seq<Value>, commits: seq<Post>)

  /** `learned` records which revisions a view has been told of. */
  datatype System = System(
    kind: Kind,
    opening: bool,
    server: Server,
    views: seq<View>,
    gets: set<Get>,
    posts: set<Post>,
    replies: set<Reply>,
    learned: set<(nat, nat)>)

  /** What happens inside one view, without an answer from the engine. */
  datatype Act =
    | BrowserChange(browser: Browser)
    | CallHydrate
    | CallWrite(value: Value, copyFails: bool)
    | CallFlush
    | Microtask(copyFails: bool)
    | Resume
    | LoadGivenUp(load: nat)
    | PostGivenUp
    | StorageChanged
    | CallInvalidate

  datatype Step =
    | Open(browser: Browser)
    | Local(view: nat, act: Act)
    | ServeGet(get: Get)
    | ServePost(post: Post)
    | Deliver(reply: Reply, copyFails: bool)

  function Initial(kind: Kind, opening: bool): System {
    System(kind, opening, Server(None, [None], []), [], {}, {}, {}, {})
  }

  /** What a view sends when it goes from `before` to `after`. */
  function GetsOf(i: nat, before: View, after: View): set<Get> {
    if after.load.Some? && after.load != before.load then {Get(i, after.load.value)} else {}
  }

  function PostOf(i: nat, v: View): Post
    requires v.loop.Posting?
  {
    Post(i, v.loop.request, v.loop.snapshot.value, v.loop.revision)
  }

  function PostsOf(i: nat, before: View, after: View): set<Post> {
    if after.loop.Posting? && after.loop != before.loop then {PostOf(i, after)} else {}
  }

  function Move(s: System, i: nat, after: View): System
    requires i < |s.views|
  {
    s.(views := s.views[i := after],
       gets := s.gets + GetsOf(i, s.views[i], after),
       posts := s.posts + PostsOf(i, s.views[i], after))
  }

  function Served(s: System, get: Get): System {
    var row := s.server.row;
    s.(gets := s.gets - {get},
       replies := s.replies + {Loaded(get, row.Some?, if row.Some? then row.value.value else None, Revision(row))})
  }

  function Committed(s: System, post: Post): System {
    var server := s.server;
    var answer := Check(server.row, s.kind, post.value, post.revision);
    if answer.Ok? then
      s.(posts := s.posts - {post},
         server := Server(Some(Row(post.value, answer.value)), server.history + [post.value], server.commits + [post]),
         replies := s.replies + {Stored(post, answer.value)})
    else
      s.(posts := s.posts - {post}, replies := s.replies + {Refused(post)})
  }

  function Delivered(s: System, reply: Reply, copyFails: bool): System {
    var t := s.(replies := s.replies - {reply});
    match reply
    case Loaded(get, found, value, revision) =>
      if get.view < |s.views| && get.load in s.views[get.view].running then
        Move(t, get.view, LoadAnswered(s.views[get.view], get.load, found, value, revision, copyFails))
          .(learned := if ValidValue(value) then s.learned + {(get.view, revision)} else s.learned)
      else t
    case Stored(post, revision) =>
      if Awaits(s, post) then
        Move(t, post.view, PostAccepted(s.views[post.view], revision)).(learned := s.learned + {(post.view, revision)})
      else t
    case Refused(post) =>
      if Awaits(s, post) then Move(t, post.view, PostFailed(s.views[post.view])) else t
  }

  /** The view is still waiting for the answer to this very request. */
  predicate Awaits(s: System, post: Post) {
    && post.view < |s.views|
    && s.views[post.view].loop.Posting?
    && s.views[post.view].loop.request == post.request
  }

  /** An act that cannot happen leaves the view as it is. */
  function Acted(v: View, act: Act): View {
    match act
    case BrowserChange(browser) => v.(browser := browser)
    case CallHydrate => Hydrate(v)
    case CallWrite(value, fails) => Write(v, value, fails)
    case CallFlush => Persist(v)
    case Microtask(fails) => if v.queued != [] then RunQueued(v, fails) else v
    case Resume => if CanResume(v) then Head(v) else v
    case LoadGivenUp(load) => if load in v.running then LoadFailed(v, load) else v
    case PostGivenUp => if v.loop.Posting? then PostFailed(v) else v
    case StorageChanged => StorageEvent(v)
    case CallInvalidate => Invalidate(v)
  }

  /** One step; a step that cannot happen leaves the system as it is. */
  function Next(s: System, step: Step): System {
    match step
    case Open(browser) => s.(views := s.views + [NewView(s.opening, browser)])
    case Local(i, act) => if i < |s.views| then Move(s, i, Acted(s.views[i], act)) else s
    case ServeGet(get) => if get in s.gets then Served(s, get) else s
    case ServePost(post) => if post in s.posts then Committed(s, post) else s
    case Deliver(reply, fails) => if reply in s.replies then Delivered(s, reply, fails) else s
  }

  /** `invalidateRecovery` is called directly only when nothing is unanswered. */
  predicate Calm(s: System, step: Step) {
    step.Local? && step.act.CallInvalidate? && step.view < |s.views| ==> Answered(s.views[step.view])
  }

  function Run(s: System, steps: seq<Step>): System
    decreases |steps|
  {
    if steps == [] then s else Run(Next(s, steps[0]), steps[1..])
  }

  predicate CalmRun(s: System, steps: seq<Step>)
    decreases |steps|
  {
    steps == [] || (Calm(s, steps[0]) && CalmRun(Next(s, steps[0]), steps[1..]))
  }

  // ------------------------------------------------------------- invariants

  predicate Holds(server: Server, revision: nat, value: Value) {
    revision < |server.history| && server.history[revision] == value
  }

  /** The screen says the text is kept. */
  predicate Confirmed(v: View) {
    && v.cache.Some? && v.cache.value.ready && !v.cache.value.saving && v.cache.value.notice.Clear?
    && v.queued == []
  }

  predicate Durable(server: Server, v: View) {
    Confirmed(v) ==> v.version.Some? && Holds(server, v.version.value, v.cache.value.value)
  }

  predicate Numbered(v: View) {
    && (v.cache.Some? ==> v.cache.value.stamp < v.made)
    && (v.load.Some? ==> v.load.value < v.made)
    && (forall l | l in v.running :: l < v.made)
    && (v.loop.Posting? ==> v.loop.request < v.made && v.loop.snapshot.stamp < v.made)
  }

  /** A load without an answer is the memoised one, and nothing was confirmed since it began. */
  predicate Loading(v: View) {
    forall l | l in v.running ::
      && v.load == Some(l)
      && !v.loop.Posting?
      && v.cache.Some?
      && v.running[l].stamp < v.made
      && (v.cache.value == v.running[l] || (v.cache.value.saving && v.cache.value.stamp > v.running[l].stamp))
  }

  predicate Shape(v: View) {
    && (v.cache.None? ==> v.load.None? && v.version.None? && v.running == map[])
    && (v.cache.None? && !v.opening ==> v.loop.Idle?)
    && (v.load.None? && !v.opening ==> v.loop.Idle? && v.version.None?)
    && (v.opening ==> v.load.None? && v.version.None?)
    && (v.load.None? ==> v.running == map[] && !v.loop.Posting?)
    && (v.load.None? && v.cache.Some? ==> !v.cache.value.ready)
    && (v.load.Some? && v.load.value !in v.running ==> v.cache.Some? && v.cache.value.ready)
    && (v.loop.Waiting? ==> v.loop.load == v.load)
    && (v.loop.Posting? ==>
         && v.version == Some(v.loop.revision) && v.load.Some? && v.cache.Some? && v.cache.value.saving
         && (v.cache.value.stamp == v.loop.snapshot.stamp ==> v.cache.value == v.loop.snapshot))
  }

  predicate Validated(v: View) {
    && (v.cache.Some? ==> ValidValue(v.cache.value.value))
    && (forall l | l in v.running :: ValidValue(v.running[l].value))
    && (forall q | q in v.queued :: ValidValue(q))
    && (v.loop.Posting? ==> ValidValue(v.loop.snapshot.value))
  }

  predicate Core(server: Server, v: View) {
    && Validated(v) && Numbered(v) && Loading(v) && Shape(v) && Durable(server, v)
    && (v.version.Some? ==> v.version.value < |server.history|)
  }

  /** Unsaved text has a save loop. */
  predicate Tended(v: View) {
    v.cache.Some? && v.cache.value.saving ==> !v.loop.Idle?
  }

  predicate ViewInv(server: Server, v: View) {
    Core(server, v) && Tended(v)
  }

  predicate ServerInv(server: Server) {
    && |server.history| == |server.commits| + 1
    && server.history[0] == None
    && Revision(server.row) == |server.commits|
    && (server.row.Some? ==> |server.commits| > 0 && server.row.value.value == server.history[|server.commits|])
    && (forall r :: 0 <= r < |server.commits| ==>
          server.commits[r].revision == r && server.commits[r].value == server.history[r + 1])
  }

  /** A post under way was made by its view, and is the one the view waits for if the numbers agree. */
  predicate PostInv(s: System, post: Post) {
    && post.view < |s.views|
    && post.request < s.views[post.view].made
    && (Awaits(s, post) ==> post == PostOf(post.view, s.views[post.view]))
  }

  predicate GetInv(s: System, get: Get) {
    get.view < |s.views| && get.load < s.views[get.view].made
  }

  predicate ReplyInv(s: System, reply: Reply) {
    match reply
    case Loaded(get, found, value, revision) =>
      GetInv(s, get) && Holds(s.server, revision, value) && (!found ==> value == None)
    case Stored(post, revision) =>
      PostInv(s, post) && revision == post.revision + 1 && Holds(s.server, revision, post.value)
    case Refused(post) => PostInv(s, post)
  }

  ghost predicate Inv(s: System) {
    && ServerInv(s.server)
    && (forall i :: 0 <= i < |s.views| ==> s.views[i].opening == s.opening && ViewInv(s.server, s.views[i]))
    && (forall p :: p in s.posts ==> PostInv(s, p))
    && (forall g :: g in s.gets ==> GetInv(s, g))
    && (forall r :: r in s.replies ==> ReplyInv(s, r))
    && LearnedInv(s)
  }

  /** A view posts only over a revision it was told of. */
  ghost predicate LearnedInv(s: System) {
    && (forall i :: 0 <= i < |s.views| && s.views[i].version.Some? ==> (i, s.views[i].version.value) in s.learned)
    && (forall p :: p in s.posts ==> (p.view, p.revision) in s.learned)
    && (forall r :: 0 <= r < |s.server.commits| ==> (s.server.commits[r].view, r) in s.learned)
  }

  // ------------------------------------------------------- one view at a time

  /** How a view may change: numbers are never used again, and a new request or
      load carries a new one. */
  predicate Follows(v: View, w: View) {
    && v.made <= w.made
    && w.opening == v.opening
    && (w.loop.Posting? ==> w.loop == v.loop || w.loop.request >= v.made)
    && (w.load.Some? ==> w.load == v.load || w.load.value >= v.made)
  }

  lemma FollowsTransitive(u: View, v: View, w: View)
    requires Follows(u, v) && Follows(v, w)
    ensures Follows(u, w)
  {
  }

  lemma ReadKeeps(server: Server, v: View)
    requires Core(server, v)
    ensures Core(server, Read(v)) && Follows(v, Read(v)) && Read(v).cache.Some?
    ensures Tended(v) ==> Tended(Read(v))
  {
  }

  lemma HydrateKeeps(server: Server, v: View)
    requires Core(server, v)
    ensures Core(server, Hydrate(v)) && Follows(v, Hydrate(v)) && Hydrate(v).version == v.version
    ensures Hydrate(v).opening || Hydrate(v).load.Some?
    ensures Tended(v) ==> Tended(Hydrate(v))
  {
    ReadKeeps(server, v);
  }

  lemma PersistKeeps(server: Server, v: View)
    requires Core(server, v)
    ensures ViewInv(server, Persist(v)) && Follows(v, Persist(v)) && Persist(v).version == v.version
  {
    HydrateKeeps(server, v);
  }

  lemma EditedKeeps(server: Server, v: View, value: Value, copyFails: bool)
    requires Core(server, v) && v.cache.Some? && ValidValue(value)
    ensures var w := Edited(v, value, copyFails);
      Core(server, w) && Follows(v, w) && w.version == v.version
  {
  }

  lemma WriteKeeps(server: Server, v: View, value: Value, copyFails: bool)
    requires ViewInv(server, v)
    ensures var w := Write(v, value, copyFails);
      ViewInv(server, w) && Follows(v, w) && w.version == v.version
  {
    if ValidValue(value) {
      ReadKeeps(server, v);
      EditedKeeps(server, Read(v), value, copyFails);
      PersistKeeps(server, Edited(Read(v), value, copyFails));
      FollowsTransitive(v, Read(v), Edited(Read(v), value, copyFails));
      FollowsTransitive(v, Edited(Read(v), value, copyFails), Write(v, value, copyFails));
    }
  }

  lemma HeadKeeps(server: Server, v: View)
    requires Core(server, v.(loop := Waiting(v.load))) && CanResume(v.(loop := Waiting(v.load)))
    ensures var w := Head(v);
      ViewInv(server, w) && w.version == v.version && v.made <= w.made && w.opening == v.opening
      && w.load == v.load && (w.loop.Posting? ==> w.loop.request >= v.made)
  {
  }

  lemma MicrotaskKeeps(server: Server, v: View, copyFails: bool)
    requires ViewInv(server, v) && v.queued != []
    ensures var w := RunQueued(v, copyFails);
      ViewInv(server, w) && Follows(v, w) && w.version == v.version
  {
    var u := v.(queued := v.queued[1..]);
    var w := Edited(Read(u), v.queued[0], copyFails);
    PersistKeeps(server, w);
    FollowsTransitive(v, w, Persist(w));
  }

  lemma LoadFailedKeeps(server: Server, v: View, load: nat)
    requires ViewInv(server, v) && load in v.running
    ensures var w := LoadFailed(v, load);
      ViewInv(server, w) && Follows(v, w) && w.version == v.version
  {
  }

  lemma LoadAnsweredKeeps(server: Server, v: View, load: nat, found: bool, value: Value, revision: nat, copyFails: bool)
    requires ViewInv(server, v) && load in v.running
    requires Holds(server, revision, value) && (!found ==> value == None)
    ensures var w := LoadAnswered(v, load, found, value, revision, copyFails);
      ViewInv(server, w) && Follows(v, w)
      && w.version == if ValidValue(value) then Some(revision) else v.version
  {
    assert v.running.Keys == {load};
    if !ValidValue(value) { LoadFailedKeeps(server, v, load); }
  }

  lemma PostFailedKeeps(server: Server, v: View)
    requires ViewInv(server, v) && v.loop.Posting?
    ensures var w := PostFailed(v);
      ViewInv(server, w) && Follows(v, w) && w.version == v.version
  {
    HeadKeeps(server, Failed(v));
  }

  lemma PostAcceptedKeeps(server: Server, v: View, revision: nat)
    requires ViewInv(server, v) && v.loop.Posting? && Holds(server, revision, v.loop.snapshot.value)
    ensures var w := PostAccepted(v, revision);
      ViewInv(server, w) && Follows(v, w) && w.version == Some(revision)
  {
  }

  // ---------------------------------------------------------- the whole system

  lemma GrowthKeeps(before: Server, after: Server, v: View)
    requires before.history <= after.history && ViewInv(before, v)
    ensures ViewInv(after, v)
  {
  }

  lemma MoveKeeps(s: System, i: nat, after: View, learned: set<(nat, nat)>)
    requires Inv(s) && i < |s.views|
    requires ViewInv(s.server, after) && Follows(s.views[i], after) && s.learned <= learned
    requires after.version.Some? ==> (i, after.version.value) in learned
    ensures Inv(Move(s, i, after).(learned := learned))
  {
    var t := Move(s, i, after).(learned := learned);
    assert after.opening == s.opening;
    forall p | p in t.posts ensures PostInv(t, p) && (p.view, p.revision) in t.learned {
      if p in s.posts { assert PostInv(s, p); }
    }
    forall g | g in t.gets ensures GetInv(t, g) {
      if g in s.gets { assert GetInv(s, g); }
    }
    forall r | r in t.replies ensures ReplyInv(t, r) {
      assert ReplyInv(s, r);
    }
  }

  lemma MoveSameVersionKeeps(s: System, i: nat, after: View)
    requires Inv(s) && i < |s.views|
    requires ViewInv(s.server, after) && Follows(s.views[i], after)
    requires after.version.Some? ==> after.version == s.views[i].version
    ensures Inv(Move(s, i, after))
  {
    MoveKeeps(s, i, after, s.learned);
    assert Move(s, i, after).(learned := s.learned) == Move(s, i, after);
  }

  lemma ForgetKeeps(s: System, reply: Reply)
    requires Inv(s)
    ensures Inv(s.(replies := s.replies - {reply}))
  {
    var t := s.(replies := s.replies - {reply});
    forall r | r in t.replies ensures ReplyInv(t, r) { assert ReplyInv(s, r); }
    forall p | p in t.posts ensures PostInv(t, p) { assert PostInv(s, p); }
    forall g | g in t.gets ensures GetInv(t, g) { assert GetInv(s, g); }
  }

  lemma OpenKeeps(s: System, browser: Browser)
    requires Inv(s)
    ensures Inv(s.(views := s.views + [NewView(s.opening, browser)]))
  {
    var t := s.(views := s.views + [NewView(s.opening, browser)]);
    forall r | r in t.replies ensures ReplyInv(t, r) { assert ReplyInv(s, r); }
    forall p | p in t.posts ensures PostInv(t, p) { assert PostInv(s, p); }
    forall g | g in t.gets ensures GetInv(t, g) { assert GetInv(s, g); }
  }

  lemma ServedKeeps(s: System, get: Get)
    requires Inv(s) && get in s.gets
    ensures Inv(Served(s, get))
  {
    var t := Served(s, get);
    forall r | r in t.replies ensures ReplyInv(t, r) {
      if r in s.replies { assert ReplyInv(s, r); } else { assert GetInv(s, get); }
    }
    forall p | p in t.posts ensures PostInv(t, p) { assert PostInv(s, p); }
    forall g | g in t.gets ensures GetInv(t, g) { assert GetInv(s, g); }
  }

  lemma CommittedKeeps(s: System, post: Post)
    requires Inv(s) && post in s.posts
    ensures Inv(Committed(s, post))
    ensures s.server.history <= Committed(s, post).server.history
  {
    var t := Committed(s, post);
    assert PostInv(s, post);
    forall i | 0 <= i < |t.views| ensures ViewInv(t.server, t.views[i]) {
      GrowthKeeps(s.server, t.server, s.views[i]);
    }
    CommittedMessages(s, post);
  }

  lemma CommittedMessages(s: System, post: Post)
    requires Inv(s) && post in s.posts
    ensures var t := Committed(s, post);
      && (forall r | r in t.replies :: ReplyInv(t, r))
      && (forall p | p in t.posts :: PostInv(t, p))
      && (forall g | g in t.gets :: GetInv(t, g))
  {
    var t := Committed(s, post);
    assert PostInv(s, post);
    forall r | r in t.replies ensures ReplyInv(t, r) {
      if r in s.replies { assert ReplyInv(s, r); }
    }
    forall p | p in t.posts ensures PostInv(t, p) { assert PostInv(s, p); }
    forall g | g in t.gets ensures GetInv(t, g) { assert GetInv(s, g); }
  }

  lemma DeliveredKeeps(s: System, reply: Reply, copyFails: bool)
    requires Inv(s) && reply in s.replies
    ensures Inv(Delivered(s, reply, copyFails))
  {
    var t := s.(replies := s.replies - {reply});
    assert ReplyInv(s, reply);
    ForgetKeeps(s, reply);
    match reply
    case Loaded(get, found, value, revision) =>
      if get.view < |s.views| && get.load in s.views[get.view].running {
        var v := s.views[get.view];
        LoadAnsweredKeeps(s.server, v, get.load, found, value, revision, copyFails);
        MoveKeeps(t, get.view, LoadAnswered(v, get.load, found, value, revision, copyFails),
          if ValidValue(value) then s.learned + {(get.view, revision)} else s.learned);
      }
    case Stored(post, revision) =>
      if Awaits(s, post) {
        PostAcceptedKeeps(s.server, s.views[post.view], revision);
        MoveKeeps(t, post.view, PostAccepted(s.views[post.view], revision), s.learned + {(post.view, revision)});
      }
    case Refused(post) =>
      if Awaits(s, post) {
        PostFailedKeeps(s.server, s.views[post.view]);
        MoveSameVersionKeeps(t, post.view, PostFailed(s.views[post.view]));
      }
  }

  lemma ActedKeeps(server: Server, v: View, act: Act)
    requires ViewInv(server, v) && (act.CallInvalidate? ==> Answered(v))
    ensures ViewInv(server, Acted(v, act)) && Follows(v, Acted(v, act))
    ensures Acted(v, act).version.Some? ==> Acted(v, act).version == v.version
  {
    match act
    case BrowserChange(_) =>
    case CallHydrate => HydrateKeeps(server, v);
    case CallWrite(value, fails) => WriteKeeps(server, v, value, fails);
    case CallFlush => PersistKeeps(server, v);
    case Microtask(fails) => if v.queued != [] { MicrotaskKeeps(server, v, fails); }
    case Resume => if CanResume(v) { HeadKeeps(server, v); }
    case LoadGivenUp(load) => if load in v.running { LoadFailedKeeps(server, v, load); }
    case PostGivenUp => if v.loop.Posting? { PostFailedKeeps(server, v); }
    case StorageChanged =>
    case CallInvalidate =>
  }

  lemma LocalKeeps(s: System, i: nat, act: Act)
    requires Inv(s) && i < |s.views| && Calm(s, Local(i, act))
    ensures Inv(Move(s, i, Acted(s.views[i], act)))
  {
    ActedKeeps(s.server, s.views[i], act);
    MoveSameVersionKeeps(s, i, Acted(s.views[i], act));
  }

  lemma ServerGrows(s: System, step: Step)
    ensures s.server.history <= Next(s, step).server.history && s.server.commits <= Next(s, step).server.commits
  {
  }

  lemma NextKeeps(s: System, step: Step)
    requires Inv(s) && Calm(s, step)
    ensures Inv(Next(s, step))
    ensures s.server.history <= Next(s, step).server.history && s.server.commits <= Next(s, step).server.commits
  {
    ServerGrows(s, step);
    match step
    case Open(browser) => OpenKeeps(s, browser);
    case ServeGet(get) => if get in s.gets { ServedKeeps(s, get); }
    case ServePost(post) => if post in s.posts { CommittedKeeps(s, post); }
    case Deliver(reply, fails) => if reply in s.replies { DeliveredKeeps(s, reply, fails); }
    case Local(i, act) => if i < |s.views| { LocalKeeps(s, i, act); }
  }

  lemma {:induction false} RunKeeps(s: System, steps: seq<Step>)
    requires Inv(s) && CalmRun(s, steps)
    ensures Inv(Run(s, steps))
    ensures s.server.history <= Run(s, steps).server.history
    ensures s.server.commits <= Run(s, steps).server.commits
    decreases |steps|
  {
    if steps != [] {
      NextKeeps(s, steps[0]);
      RunKeeps(Next(s, steps[0]), steps[1..]);
    }
  }
}
