/** Delivery of one engine's events to any number of chat clients over streams
    that expire, drop and reconnect by the number of the last event received. */
module EventDelivery {
  import opened Common
  import opened EventLog

  /** A response: what was written and not yet received, the server's cursor,
      and whether the server has ended it. */
  datatype Connection = Connection(after: nat, pipe: seq<Event>, ended: bool)

  /** A client: the list on screen, the number its stream was opened after, and
      the last event identifier the browser keeps. */
  datatype Client = Client(
    conversation: string,
    list: seq<Event>,
    openedAfter: Option<nat>,
    lastId: Option<nat>,
    connection: Option<Connection>)

  datatype System = System(log: seq<Event>, clients: seq<Client>)

  const STREAMS := 12

  datatype Step =
    | Append(conversation: string, kind: string, data: string)
    | NewClient(conversation: string)
    | Load(client: nat)
    | Connect(client: nat)
    | Deliver(client: nat)
    | Expire(client: nat)
    | Drop(client: nat)

  function Cursor(c: Client): nat {
    if c.lastId.Some? then c.lastId.value else if c.openedAfter.Some? then c.openedAfter.value else 0
  }

  /** The bus hands every listener of the conversation the new event. */
  function Heard(c: Client, e: Event): Client {
    if c.conversation != e.conversation || c.connection.None? then c
    else
      var k := c.connection.value;
      if e.number <= k.after then c
      else c.(connection := Some(k.(after := e.number, pipe := if k.ended then k.pipe else k.pipe + [e])))
  }

  function HeardByAll(clients: seq<Client>, e: Event): (r: seq<Client>)
    ensures |r| == |clients|
    ensures forall i :: 0 <= i < |clients| ==> r[i] == Heard(clients[i], e)
  {
    if clients == [] then [] else [Heard(clients[0], e)] + HeardByAll(clients[1..], e)
  }

  /** The first list comes from the conversation's own request: one page. */
  function Loaded(log: seq<Event>, c: Client): Client {
    if c.openedAfter.Some? then c
    else
      var page := Page(log, c.conversation, 0);
      c.(list := page, openedAfter := Some(LastNumber(page)))
  }

  function Connected(log: seq<Event>, c: Client): Client {
    if c.openedAfter.None? || c.connection.Some? then c
    else
      var replay := Of(log, c.conversation, Cursor(c));
      c.(connection := Some(Connection(if replay == [] then Cursor(c) else LastNumber(replay), replay, false)))
  }

  function Received(c: Client): Client {
    if c.connection.None? || c.connection.value.pipe == [] then c
    else
      var k := c.connection.value;
      var e := k.pipe[0];
      c.(list := if exists x :: x in c.list && x.number == e.number then c.list else c.list + [e],
         lastId := Some(e.number),
         connection := Some(k.(pipe := k.pipe[1..])))
  }

  function Ended(c: Client): Client {
    if c.connection.None? then c else c.(connection := Some(c.connection.value.(ended := true)))
  }

  function Open(clients: seq<Client>): nat {
    if clients == [] then 0 else (if clients[0].connection.Some? then 1 else 0) + Open(clients[1..])
  }

  function Next(s: System, step: Step): System {
    match step
    case Append(c, kind, data) =>
      var e := Event(|s.log| + 1, c, kind, data);
      System(s.log + [e], HeardByAll(s.clients, e))
    case NewClient(c) => s.(clients := s.clients + [Client(c, [], None, None, None)])
    case Load(i) => if i < |s.clients| then s.(clients := s.clients[i := Loaded(s.log, s.clients[i])]) else s
    case Connect(i) =>
      if i < |s.clients| && Open(s.clients) < STREAMS
      then s.(clients := s.clients[i := Connected(s.log, s.clients[i])]) else s
    case Deliver(i) => if i < |s.clients| then s.(clients := s.clients[i := Received(s.clients[i])]) else s
    case Expire(i) => if i < |s.clients| then s.(clients := s.clients[i := Ended(s.clients[i])]) else s
    case Drop(i) => if i < |s.clients| then s.(clients := s.clients[i := s.clients[i].(connection := None)]) else s
  }

  function Run(s: System, steps: seq<Step>): System
    decreases |steps|
  {
    if steps == [] then s else Run(Next(s, steps[0]), steps[1..])
  }

  const START := System([], [])

  // ------------------------------------------------------------------ invariant

  ghost predicate InStep(log: seq<Event>, c: Client) {
    var all := Of(log, c.conversation, 0);
    && c.list <= all
    && Cursor(c) == LastNumber(c.list)
    && (c.openedAfter.None? ==> c.list == [] && c.lastId.None? && c.connection.None?)
    && (c.connection.Some? ==>
          var k := c.connection.value;
          && c.list + k.pipe <= all
          && (!k.ended ==> c.list + k.pipe == all && k.after == LastNumber(all)))
  }

  ghost predicate Inv(s: System) {
    Numbered(s.log) && forall i :: 0 <= i < |s.clients| ==> InStep(s.log, s.clients[i])
  }

  lemma OfNext(log: seq<Event>, e: Event, conversation: string)
    requires Numbered(log + [e])
    ensures Numbered(log) && e.number == |log| + 1
    ensures Of(log + [e], conversation, 0) ==
      Of(log, conversation, 0) + (if e.conversation == conversation then [e] else [])
  {
    var t := log + [e];
    assert t[|log|] == e;
    assert t[..|log|] == log;
    assert forall i :: 0 <= i < |log| ==> log[i] == t[i];
  }

  lemma HeardInStep(log: seq<Event>, c: Client, e: Event)
    requires Numbered(log + [e]) && InStep(log, c)
    ensures InStep(log + [e], Heard(c, e))
  {
    OfNext(log, e, c.conversation);
    OfBounds(log, c.conversation, 0);
    if c.connection.Some? && !c.connection.value.ended && e.conversation == c.conversation {
      var k := c.connection.value;
      assert k.after < e.number;
      assert c.list + (k.pipe + [e]) == (c.list + k.pipe) + [e];
    }
  }

  lemma LoadedInStep(log: seq<Event>, c: Client)
    requires Numbered(log) && InStep(log, c)
    ensures InStep(log, Loaded(log, c))
  {
  }

  lemma ConnectedInStep(log: seq<Event>, c: Client)
    requires Numbered(log) && InStep(log, c)
    ensures InStep(log, Connected(log, c))
  {
    var all := Of(log, c.conversation, 0);
    if c.list != [] {
      OfResumes(log, c.conversation, 0, |c.list|);
      assert all == c.list + all[|c.list|..];
    }
  }

  lemma ReceivedInStep(log: seq<Event>, c: Client)
    requires Numbered(log) && InStep(log, c)
    ensures InStep(log, Received(c))
  {
    if c.connection.Some? && c.connection.value.pipe != [] {
      var k := c.connection.value;
      var e := k.pipe[0];
      var all := Of(log, c.conversation, 0);
      OfBounds(log, c.conversation, 0);
      assert (c.list + k.pipe)[|c.list|] == e;
      assert forall j :: 0 <= j < |c.list| ==> c.list[j] == all[j] && all[j].number < all[|c.list|].number;
      assert c.list + k.pipe == (c.list + [e]) + k.pipe[1..];
    }
  }

  lemma AppendKeeps(s: System, conversation: string, kind: string, data: string)
    requires Inv(s)
    ensures Inv(Next(s, Append(conversation, kind, data)))
  {
    var e := Event(|s.log| + 1, conversation, kind, data);
    forall i | 0 <= i < |s.clients| ensures InStep(s.log + [e], Heard(s.clients[i], e)) {
      HeardInStep(s.log, s.clients[i], e);
    }
  }

  lemma ClientKeeps(s: System, i: nat, c: Client)
    requires Inv(s) && i < |s.clients| && InStep(s.log, c)
    ensures Inv(s.(clients := s.clients[i := c]))
  {
  }

  lemma QuietInStep(log: seq<Event>, c: Client)
    requires InStep(log, c)
    ensures InStep(log, Ended(c)) && InStep(log, c.(connection := None))
  {
  }

  lemma NextKeeps(s: System, step: Step)
    requires Inv(s)
    ensures Inv(Next(s, step)) && s.log <= Next(s, step).log
  {
    match step
    case Append(c, kind, data) => AppendKeeps(s, c, kind, data);
    case NewClient(_) =>
    case Load(i) =>
      if i < |s.clients| {
        LoadedInStep(s.log, s.clients[i]);
        ClientKeeps(s, i, Loaded(s.log, s.clients[i]));
      }
    case Connect(i) =>
      if i < |s.clients| {
        ConnectedInStep(s.log, s.clients[i]);
        ClientKeeps(s, i, Connected(s.log, s.clients[i]));
      }
    case Deliver(i) =>
      if i < |s.clients| {
        ReceivedInStep(s.log, s.clients[i]);
        ClientKeeps(s, i, Received(s.clients[i]));
      }
    case Expire(i) =>
      if i < |s.clients| {
        QuietInStep(s.log, s.clients[i]);
        ClientKeeps(s, i, Ended(s.clients[i]));
      }
    case Drop(i) =>
      if i < |s.clients| {
        QuietInStep(s.log, s.clients[i]);
        ClientKeeps(s, i, s.clients[i].(connection := None));
      }
  }

  lemma {:induction false} RunKeeps(s: System, steps: seq<Step>)
    requires Inv(s)
    ensures Inv(Run(s, steps)) && s.log <= Run(s, steps).log
    decreases |steps|
  {
    if steps != [] {
      NextKeeps(s, steps[0]);
      RunKeeps(Next(s, steps[0]), steps[1..]);
    }
  }

  /** Exactly once and in order: whatever was appended, dropped, expired or
      reopened, a client's list is a gap-free, duplicate-free beginning of its
      conversation's log. */
  lemma ClientsSeeAPrefix(steps: seq<Step>, i: nat)
    requires i < |Run(START, steps).clients|
    ensures var s := Run(START, steps);
      && s.clients[i].list <= Of(s.log, s.clients[i].conversation, 0)
      && Ascending(s.clients[i].list)
  {
    RunKeeps(START, steps);
    var s := Run(START, steps);
    assert InStep(s.log, s.clients[i]);
    OfBounds(s.log, s.clients[i].conversation, 0);
  }

  /** A live stream owes its client nothing but what is in its pipe: once that is
      delivered the client has the whole log of its conversation. */
  lemma LiveStreamsCatchUp(steps: seq<Step>, i: nat)
    requires i < |Run(START, steps).clients|
    requires var c := Run(START, steps).clients[i]; c.connection.Some? && !c.connection.value.ended
    ensures var s := Run(START, steps);
      s.clients[i].list + s.clients[i].connection.value.pipe == Of(s.log, s.clients[i].conversation, 0)
  {
    RunKeeps(START, steps);
    assert InStep(Run(START, steps).log, Run(START, steps).clients[i]);
  }

  /** A reconnection after any interruption, followed by delivery of what it
      replays, brings the client level with the log. */
  lemma ReconnectingCatchesUp(steps: seq<Step>, i: nat)
    requires i < |Run(START, steps).clients|
    requires var s := Run(START, steps);
      s.clients[i].openedAfter.Some? && s.clients[i].connection.None? && Open(s.clients) < STREAMS
    ensures var s := Next(Run(START, steps), Connect(i));
      && s.clients[i].connection.Some?
      && var t := Drained(s, i, |s.clients[i].connection.value.pipe|);
      i < |t.clients| && t.clients[i].list == Of(s.log, s.clients[i].conversation, 0)
  {
    RunKeeps(START, steps);
    var s := Next(Run(START, steps), Connect(i));
    NextKeeps(Run(START, steps), Connect(i));
    assert InStep(s.log, s.clients[i]);
    DrainedEmpties(s, i, |s.clients[i].connection.value.pipe|);
  }

  function Drained(s: System, i: nat, n: nat): System
    decreases n
  {
    if n == 0 then s else Drained(Next(s, Deliver(i)), i, n - 1)
  }

  lemma {:induction false} DrainedEmpties(s: System, i: nat, n: nat)
    requires Inv(s) && i < |s.clients|
    requires s.clients[i].connection.Some? && !s.clients[i].connection.value.ended
    requires |s.clients[i].connection.value.pipe| == n
    ensures i < |Drained(s, i, n).clients|
    ensures Drained(s, i, n).clients[i].list == Of(s.log, s.clients[i].conversation, 0)
    decreases n
  {
    assert InStep(s.log, s.clients[i]);
    if n > 0 {
      NextKeeps(s, Deliver(i));
      DrainedEmpties(Next(s, Deliver(i)), i, n - 1);
    }
  }

  // ------------------------------------------------------------- how many streams

  /** The clients that have a stream. */
  ghost function Streaming(clients: seq<Client>): set<nat> {
    set i: nat | i < |clients| && clients[i].connection.Some?
  }

  lemma {:induction false} OpenAppend(clients: seq<Client>, last: Client)
    ensures Open(clients + [last]) == Open(clients) + (if last.connection.Some? then 1 else 0)
  {
    if clients == [] {
      assert clients + [last] == [last] && [last][1..] == [];
    } else {
      assert (clients + [last])[1..] == clients[1..] + [last];
      OpenAppend(clients[1..], last);
    }
  }

  lemma StreamingNext(clients: seq<Client>, last: Client)
    ensures |Streaming(clients + [last])| == |Streaming(clients)| + (if last.connection.Some? then 1 else 0)
  {
    assert |clients| !in Streaming(clients);
    assert Streaming(clients + [last]) == Streaming(clients) + (if last.connection.Some? then {|clients|} else {});
  }

  lemma {:induction false} OpenCounts(clients: seq<Client>)
    ensures Open(clients) == |Streaming(clients)|
  {
    if clients == [] {
      assert Streaming(clients) == {};
    } else {
      var init, last := clients[..|clients| - 1], clients[|clients| - 1];
      OpenCounts(init);
      OpenAppend(init, last);
      assert init + [last] == clients;
      StreamingNext(init, last);
    }
  }

  /** A stream is opened exactly for a client that has loaded and has none, while
      fewer than twelve are open; it starts behind the last event the client has. */
  lemma ConnectMeans(s: System, i: nat)
    requires i < |s.clients|
    ensures var c, u := s.clients[i], Next(s, Connect(i));
      if c.openedAfter.Some? && c.connection.None? && |Streaming(s.clients)| < 12 then
        && Streaming(u.clients) == Streaming(s.clients) + {i} && u.log == s.log
        && u.clients[i].connection.value.pipe == Of(s.log, c.conversation, Cursor(c))
        && u.clients[i].list == c.list
      else u == s
  {
    OpenCounts(s.clients);
    assert s.clients[i := s.clients[i]] == s.clients;
  }

  lemma StepStreams(s: System, step: Step)
    requires |Streaming(s.clients)| <= STREAMS
    ensures |Streaming(Next(s, step).clients)| <= STREAMS
  {
    var u := Next(s, step);
    OpenCounts(s.clients);
    if step.Connect? && step.client < |s.clients| {
      assert Streaming(u.clients) <= Streaming(s.clients) + {step.client};
      if |Streaming(s.clients)| < STREAMS {
        Subset(Streaming(u.clients), Streaming(s.clients) + {step.client});
      } else {
        assert u == s;
      }
    } else {
      assert Streaming(u.clients) <= Streaming(s.clients);
      Subset(Streaming(u.clients), Streaming(s.clients));
    }
  }

  lemma Subset(a: set<nat>, b: set<nat>)
    requires a <= b
    ensures |a| <= |b|
  {
    assert b == a + (b - a);
  }

  /** Over every run no more than twelve streams are open at a time. */
  lemma StreamsAreLimited(steps: seq<Step>)
    ensures |Streaming(Run(START, steps).clients)| <= 12
  {
    assert Streaming(START.clients) == {};
    StreamsStayLimited(START, steps);
  }

  lemma {:induction false} StreamsStayLimited(s: System, steps: seq<Step>)
    requires |Streaming(s.clients)| <= STREAMS
    ensures |Streaming(Run(s, steps).clients)| <= STREAMS
    decreases |steps|
  {
    if steps != [] {
      StepStreams(s, steps[0]);
      StreamsStayLimited(Next(s, steps[0]), steps[1..]);
    }
  }
}
