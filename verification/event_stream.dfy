/** The event table, its pages, and the stream handler's replay loop. */
module EventLog {

  const PAGE := 1000

  datatype Event = Event(number: nat, conversation: string, kind: string, data: string)

  /** Row numbers count up from one over all conversations. */
  ghost predicate Numbered(log: seq<Event>) {
    forall i :: 0 <= i < |log| ==> log[i].number == i + 1
  }

  /** The rows of one conversation after a number, in order. */
  function Of(log: seq<Event>, conversation: string, after: nat): seq<Event> {
    if log == [] then []
    else
      var last := log[|log| - 1];
      Of(log[..|log| - 1], conversation, after)
      + (if last.conversation == conversation && last.number > after then [last] else [])
  }

  ghost predicate Ascending(events: seq<Event>) {
    forall i, j :: 0 <= i < j < |events| ==> events[i].number < events[j].number
  }

  /** The number a client resumes from: that of its last event, or zero. */
  function LastNumber(events: seq<Event>): nat {
    if events == [] then 0 else events[|events| - 1].number
  }

  lemma {:induction false} OfMeans(log: seq<Event>, conversation: string, after: nat)
    requires Numbered(log)
    ensures Ascending(Of(log, conversation, after))
    ensures forall e :: e in Of(log, conversation, after) <==>
      e in log && e.conversation == conversation && e.number > after
    ensures forall e :: e in Of(log, conversation, after) ==> 0 < e.number <= |log|
  {
    if log != [] {
      var init, last := log[..|log| - 1], log[|log| - 1];
      OfMeans(init, conversation, after);
      assert log == init + [last];
      var events := Of(init, conversation, after);
      forall i | 0 <= i < |events| ensures events[i].number < last.number { assert events[i] in events; }
    }
  }

  lemma {:induction false} OfBounds(log: seq<Event>, conversation: string, after: nat)
    requires Numbered(log)
    ensures Ascending(Of(log, conversation, after))
    ensures forall i :: 0 <= i < |Of(log, conversation, after)| ==>
      after < Of(log, conversation, after)[i].number <= |log|
  {
    if log != [] { OfBounds(log[..|log| - 1], conversation, after); }
  }

  lemma {:induction false} NothingAfter(log: seq<Event>, conversation: string, after: nat)
    requires Numbered(log) && |log| <= after
    ensures Of(log, conversation, after) == []
  {
    if log != [] { NothingAfter(log[..|log| - 1], conversation, after); }
  }

  /** Resuming after the number of the k-th event gives exactly what follows it. */
  lemma {:induction false} OfResumes(log: seq<Event>, conversation: string, from: nat, k: nat)
    requires Numbered(log) && 0 < k <= |Of(log, conversation, from)|
    ensures Of(log, conversation, Of(log, conversation, from)[k - 1].number) == Of(log, conversation, from)[k..]
  {
    var init, last := log[..|log| - 1], log[|log| - 1];
    var before, all := Of(init, conversation, from), Of(log, conversation, from);
    OfBounds(init, conversation, from);
    if k <= |before| {
      assert all[k - 1] == before[k - 1];
      OfResumes(init, conversation, from, k);
    } else {
      NothingAfter(init, conversation, last.number);
    }
  }

  function Page(log: seq<Event>, conversation: string, after: nat): seq<Event> {
    var rest := Of(log, conversation, after);
    if |rest| <= PAGE then rest else rest[..PAGE]
  }

  lemma PageThenRest(log: seq<Event>, conversation: string, after: nat)
    requires Numbered(log)
    ensures var page := Page(log, conversation, after);
      && Ascending(page) && (page != [] ==> page[0].number > after)
      && Of(log, conversation, after) ==
           page + Of(log, conversation, if page == [] then after else LastNumber(page))
      && (|page| < PAGE ==> page == Of(log, conversation, after))
  {
    var page, rest := Page(log, conversation, after), Of(log, conversation, after);
    OfBounds(log, conversation, after);
    if page != [] {
      OfResumes(log, conversation, after, |page|);
      assert rest == rest[..|page|] + rest[|page|..];
    }
  }

  class EventStore {
    var log: seq<Event>

    constructor ()
      ensures log == []
    {
      log := [];
    }

    /** `event`: what listeners are handed is the row itself. */
    method Append(conversation: string, kind: string, data: string) returns (live: Event)
      requires Numbered(log)
      modifies this
      ensures Numbered(log) && log == old(log) + [live]
      ensures live == Event(|old(log)| + 1, conversation, kind, data)
    {
      live := Event(|log| + 1, conversation, kind, data);
      log := log + [live];
    }

    /** `events`: at most one page after the number, oldest first. */
    method Events(conversation: string, after: nat) returns (page: seq<Event>)
      ensures page == Page(log, conversation, after)
    {
      page := [];
      var i := 0;
      while i < |log| && |page| < PAGE
        invariant 0 <= i <= |log|
        invariant page == Of(log[..i], conversation, after) && |page| <= PAGE
      {
        assert log[..i + 1][..i] == log[..i];
        if log[i].conversation == conversation && log[i].number > after {
          page := page + [log[i]];
        }
        i := i + 1;
      }
      OfPrefix(log, i, conversation, after);
      if i == |log| { assert log[..i] == log; }
    }
  }

  lemma {:induction false} OfPrefix(log: seq<Event>, i: nat, conversation: string, after: nat)
    requires i <= |log|
    ensures Of(log[..i], conversation, after) <= Of(log, conversation, after)
  {
    if i < |log| {
      OfPrefix(log[..|log| - 1], i, conversation, after);
      assert log[..|log| - 1][..i] == log[..i];
    } else {
      assert log[..i] == log;
    }
  }

  /** One response of the stream handler: its cursor and what it wrote. */
  class StreamHandler {
    const conversation: string
    var after: nat
    var written: seq<Event>

    constructor (conversation: string, after: nat)
      ensures this.conversation == conversation && this.after == after && written == []
    {
      this.conversation, this.after := conversation, after;
      written := [];
    }

    method Send(event: Event)
      modifies this
      ensures event.number > old(after) ==> after == event.number && written == old(written) + [event]
      ensures event.number <= old(after) ==> after == old(after) && written == old(written)
    {
      if event.number > after {
        after := event.number;
        written := written + [event];
      }
    }

    method SendPage(page: seq<Event>)
      requires Ascending(page) && (page != [] ==> page[0].number > after)
      modifies this
      ensures written == old(written) + page
      ensures after == if page == [] then old(after) else LastNumber(page)
    {
      for i := 0 to |page|
        invariant after == if i == 0 then old(after) else page[i - 1].number
        invariant written == old(written) + page[..i]
      {
        Send(page[i]);
      }
    }

    /** One page of the do-while: the query from the cursor, and its rows sent. Of
        what was left to send, `rest` is what is left now. */
    method SendNextPage(store: EventStore, ghost left: seq<Event>)
      returns (full: bool, ghost page: seq<Event>, ghost rest: seq<Event>)
      requires Numbered(store.log) && left == Of(store.log, conversation, after)
      modifies this
      ensures page == Page(store.log, conversation, old(after)) && full == (|page| == PAGE)
      ensures written == old(written) + page && left == page + rest
      ensures after == if |page| == 0 then old(after) else LastNumber(written)
      ensures rest == if full then Of(store.log, conversation, after) else []
    {
      var rows := store.Events(conversation, after);
      PageThenRest(store.log, conversation, after);
      SendPage(rows);
      full, page := |rows| == PAGE, rows;
      rest := if full then Of(store.log, conversation, after) else [];
    }

    /** The do-while over pages: it writes every row after the cursor, once and
        in order, however many pages there are. */
    method Replay(store: EventStore)
      requires Numbered(store.log)
      modifies this
      ensures written == old(written) + Of(store.log, conversation, old(after))
      ensures after == if |written| == |old(written)| then old(after) else LastNumber(written)
    {
      ghost var base, left := written, Of(store.log, conversation, after);
      ghost var target := base + left;
      var full := true;
      while full
        invariant written + left == target && |base| <= |written|
        invariant after == if |written| == |base| then old(after) else LastNumber(written)
        invariant left == if full then Of(store.log, conversation, after) else []
        decreases |left|, full
      {
        ghost var sent := written;
        ghost var page, rest;
        full, page, rest := SendNextPage(store, left);
        Regroup(sent, page, rest);
        left := rest;
        assert written == sent + page;
      }
    }
  }

  lemma Regroup(a: seq<Event>, b: seq<Event>, c: seq<Event>)
    ensures a + (b + c) == (a + b) + c
  {
  }
}
