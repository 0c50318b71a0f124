/** The chat's fold of a conversation's events into message bubbles, with its
    index of assistant messages by item. */
module ChatMessages {
  import opened ChatFold

  datatype Bubble = Bubble(id: string, fromUser: bool, text: string, phase: string)

  datatype Fold = Fold(messages: seq<Bubble>, byId: map<string, nat>, activity: seq<Event>, questions: seq<Question>)

  const EMPTY := Fold([], map[], [], [])

  predicate ConcernsItem(body: Body) {
    body.Delta? || body.Message?
  }

  /** What one event of an item does to its text and its phase. */
  function Heard(text: string, body: Body): string {
    match body
    case Delta(_, more) => text + more
    case Message(_, whole, _) => if whole != "" then whole else text
    case _ => text
  }

  function Phased(phase: string, body: Body): string {
    if body.Message? && body.phase != "" then body.phase else phase
  }

  /** The text of one item, told from its own events alone. */
  function TextOf(events: seq<Event>, item: string): string {
    if events == [] then ""
    else
      var last := events[|events| - 1];
      var before := TextOf(events[..|events| - 1], item);
      if ConcernsItem(last.body) && last.body.item == item then Heard(before, last.body) else before
  }

  /** The phase of one item: that of its last message that names one. */
  function PhaseOf(events: seq<Event>, item: string): string {
    if events == [] then ""
    else
      var last := events[|events| - 1].body;
      if last.Message? && last.item == item && last.phase != "" then last.phase
      else PhaseOf(events[..|events| - 1], item)
  }

  predicate Mentions(events: seq<Event>, item: string) {
    exists e :: e in events && ConcernsItem(e.body) && e.body.item == item
  }

  /** The index finds every item that was mentioned, its one bubble, and its text. */
  ghost predicate Indexed(f: Fold, events: seq<Event>) {
    && (forall item :: item in f.byId <==> Mentions(events, item))
    && (forall item :: item in f.byId ==>
          && f.byId[item] < |f.messages|
          && f.messages[f.byId[item]].id == item
          && !f.messages[f.byId[item]].fromUser
          && f.messages[f.byId[item]].text == TextOf(events, item)
          && f.messages[f.byId[item]].phase == PhaseOf(events, item))
    && (forall i :: 0 <= i < |f.messages| && !f.messages[i].fromUser ==>
          f.messages[i].id in f.byId && f.byId[f.messages[i].id] == i)
  }

  function UserTexts(events: seq<Event>): seq<string> {
    if events == [] then []
    else
      var last := events[|events| - 1];
      UserTexts(events[..|events| - 1]) + (if last.body.User? then [last.body.text] else [])
  }

  /** What is shown as activity: statuses, evidence and notices, in order. */
  function Activities(events: seq<Event>): seq<Event> {
    if events == [] then []
    else
      var last := events[|events| - 1];
      Activities(events[..|events| - 1]) +
      (if last.body.Status? || last.body.Evidence? || last.body.Notice? then [last] else [])
  }

  function TextsFromUser(messages: seq<Bubble>): seq<string> {
    if messages == [] then []
    else
      var last := messages[|messages| - 1];
      TextsFromUser(messages[..|messages| - 1]) + (if last.fromUser then [last.text] else [])
  }

  lemma {:induction false} UpdateKeepsUserTexts(messages: seq<Bubble>, i: nat, b: Bubble)
    requires i < |messages| && !messages[i].fromUser && !b.fromUser
    ensures TextsFromUser(messages[i := b]) == TextsFromUser(messages)
  {
    var n := |messages| - 1;
    if i < n {
      UpdateKeepsUserTexts(messages[..n], i, b);
      assert messages[i := b][..n] == messages[..n][i := b];
    } else {
      assert messages[i := b][..n] == messages[..n];
    }
  }

  /** One turn of the loop. */
  function Told(f: Fold, e: Event): Fold {
    match e.body
    case User(text) => f.(messages := f.messages + [Bubble("", true, text, "")])
    case Asked(q) => f.(questions := SetQuestion(f.questions, q))
    case Resolved(id) => f.(questions := DeleteQuestion(f.questions, id))
    case Usage => f
    case Diff => f
    case Delta(item, _) => Spoken(f, item, e.body)
    case Message(item, _, _) => Spoken(f, item, e.body)
    case _ => f.(activity := f.activity + [e])
  }

  function Spoken(f: Fold, item: string, body: Body): Fold {
    var g := if item in f.byId then f
      else f.(byId := f.byId[item := |f.messages|], messages := f.messages + [Bubble(item, false, "", "")]);
    var i := g.byId[item];
    if i < |g.messages| then
      var b := g.messages[i];
      g.(messages := g.messages[i := b.(text := Heard(b.text, body), phase := Phased(b.phase, body))])
    else g
  }

  lemma MentionsNext(events: seq<Event>, e: Event, item: string)
    ensures Mentions(events + [e], item) <==> Mentions(events, item) || (ConcernsItem(e.body) && e.body.item == item)
  {
    if Mentions(events, item) {
      var x :| x in events && ConcernsItem(x.body) && x.body.item == item;
      assert x in events + [e];
    }
    assert e in events + [e];
  }

  lemma TextOfNext(events: seq<Event>, e: Event, item: string)
    ensures TextOf(events + [e], item) ==
      if ConcernsItem(e.body) && e.body.item == item then Heard(TextOf(events, item), e.body) else TextOf(events, item)
    ensures PhaseOf(events + [e], item) ==
      if ConcernsItem(e.body) && e.body.item == item then Phased(PhaseOf(events, item), e.body)
      else PhaseOf(events, item)
  {
    assert (events + [e])[..|events|] == events;
  }

  /** An item that already has its bubble. */
  lemma KnownItemIndexed(f: Fold, events: seq<Event>, e: Event)
    requires Indexed(f, events) && ConcernsItem(e.body) && e.body.item in f.byId
    ensures Indexed(Spoken(f, e.body.item, e.body), events + [e])
    ensures TextsFromUser(Spoken(f, e.body.item, e.body).messages) == TextsFromUser(f.messages)
  {
    var i := f.byId[e.body.item];
    var g := Spoken(f, e.body.item, e.body);
    UpdateKeepsUserTexts(f.messages, i, g.messages[i]);
    forall item
      ensures Mentions(events + [e], item) <==> item in g.byId
      ensures item in g.byId ==> g.messages[g.byId[item]].text == TextOf(events + [e], item)
      ensures item in g.byId ==> g.messages[g.byId[item]].phase == PhaseOf(events + [e], item)
    {
      MentionsNext(events, e, item);
      TextOfNext(events, e, item);
    }
  }

  /** An item heard of for the first time. */
  lemma NewItemIndexed(f: Fold, events: seq<Event>, e: Event)
    requires Indexed(f, events) && ConcernsItem(e.body) && e.body.item !in f.byId
    ensures Indexed(Spoken(f, e.body.item, e.body), events + [e])
    ensures TextsFromUser(Spoken(f, e.body.item, e.body).messages) == TextsFromUser(f.messages)
  {
    var b := Bubble(e.body.item, false, Heard("", e.body), Phased("", e.body));
    var g := Spoken(f, e.body.item, e.body);
    assert g.messages == f.messages + [b];
    AppendUserTexts(f.messages, b);
    Unmentioned(events, e.body.item);
    forall item
      ensures Mentions(events + [e], item) <==> item in g.byId
      ensures item in g.byId ==> g.messages[g.byId[item]].text == TextOf(events + [e], item)
      ensures item in g.byId ==> g.messages[g.byId[item]].phase == PhaseOf(events + [e], item)
    {
      MentionsNext(events, e, item);
      TextOfNext(events, e, item);
    }
  }

  lemma {:induction false} Unmentioned(events: seq<Event>, item: string)
    requires !Mentions(events, item)
    ensures TextOf(events, item) == "" && PhaseOf(events, item) == ""
  {
    if events != [] {
      var last := events[|events| - 1];
      assert last in events;
      assert forall e :: e in events[..|events| - 1] ==> e in events;
      Unmentioned(events[..|events| - 1], item);
    }
  }

  /** The pieces of an item's text, in order. */
  function Pieces(events: seq<Event>, item: string): string {
    if events == [] then ""
    else
      var last := events[|events| - 1].body;
      Pieces(events[..|events| - 1], item) + (if last.Delta? && last.item == item then last.text else "")
  }

  /** No message that brings the whole text of the item. */
  predicate OnlyPieces(events: seq<Event>, item: string) {
    forall e | e in events :: e.body.Message? && e.body.item == item ==> e.body.text == ""
  }

  lemma OnlyPiecesNext(init: seq<Event>, last: Event, item: string)
    requires OnlyPieces(init + [last], item)
    ensures OnlyPieces(init, item) && (last.body.Message? && last.body.item == item ==> last.body.text == "")
    ensures Pieces(init + [last], item) ==
      Pieces(init, item) + (if last.body.Delta? && last.body.item == item then last.body.text else "")
  {
    assert (init + [last])[..|init|] == init && (init + [last])[|init|] == last;
    assert forall e :: e in init ==> e in init + [last];
  }

  /** Pieces that follow events add up behind the text there was. */
  lemma {:induction false} PiecesAddUp(events: seq<Event>, after: seq<Event>, item: string)
    requires OnlyPieces(after, item)
    ensures TextOf(events + after, item) == TextOf(events, item) + Pieces(after, item)
    decreases |after|
  {
    if after == [] {
      assert events + after == events;
    } else {
      var init, last := after[..|after| - 1], after[|after| - 1];
      assert after == init + [last] && events + after == (events + init) + [last];
      OnlyPiecesNext(init, last, item);
      PiecesAddUp(events, init, item);
      TextOfNext(events + init, last, item);
    }
  }

  /** The text of an item is the last whole text it was given, if any, and the pieces
      that came after it. */
  lemma TextIsWholeAndPieces(before: seq<Event>, whole: Event, after: seq<Event>, item: string)
    requires OnlyPieces(after, item)
    ensures TextOf(after, item) == Pieces(after, item)
    ensures whole.body.Message? && whole.body.item == item && whole.body.text != "" ==>
      TextOf(before + [whole] + after, item) == whole.body.text + Pieces(after, item)
  {
    var none: seq<Event> := [];
    PiecesAddUp(none, after, item);
    assert none + after == after && "" + Pieces(after, item) == Pieces(after, item);
    PiecesAddUp(before + [whole], after, item);
    TextOfNext(before, whole, item);
  }

  lemma AppendUserTexts(messages: seq<Bubble>, b: Bubble)
    ensures TextsFromUser(messages + [b]) == TextsFromUser(messages) + (if b.fromUser then [b.text] else [])
  {
    assert (messages + [b])[..|messages|] == messages;
  }

  lemma OtherTold(f: Fold, e: Event)
    requires !ConcernsItem(e.body)
    ensures Told(f, e).byId == f.byId && f.messages <= Told(f, e).messages
    ensures TextsFromUser(Told(f, e).messages) ==
      TextsFromUser(f.messages) + (if e.body.User? then [e.body.text] else [])
  {
    if e.body.User? { AppendUserTexts(f.messages, Bubble("", true, e.body.text, "")); }
  }

  lemma OtherIndexed(f: Fold, events: seq<Event>, e: Event)
    requires Indexed(f, events) && !ConcernsItem(e.body)
    ensures Indexed(Told(f, e), events + [e])
    ensures TextsFromUser(Told(f, e).messages) ==
      TextsFromUser(f.messages) + (if e.body.User? then [e.body.text] else [])
  {
    var g := Told(f, e);
    OtherTold(f, e);
    forall item
      ensures Mentions(events + [e], item) <==> item in g.byId
      ensures item in g.byId ==> g.messages[g.byId[item]].text == TextOf(events + [e], item)
      ensures item in g.byId ==> g.messages[g.byId[item]].phase == PhaseOf(events + [e], item)
    {
      MentionsNext(events, e, item);
      TextOfNext(events, e, item);
    }
  }

  lemma ToldIndexed(f: Fold, events: seq<Event>, e: Event)
    requires Indexed(f, events)
    ensures Indexed(Told(f, e), events + [e])
    ensures TextsFromUser(Told(f, e).messages) ==
      TextsFromUser(f.messages) + (if e.body.User? then [e.body.text] else [])
  {
    if ConcernsItem(e.body) {
      assert Told(f, e) == Spoken(f, e.body.item, e.body);
      if e.body.item in f.byId { KnownItemIndexed(f, events, e); } else { NewItemIndexed(f, events, e); }
    } else {
      OtherIndexed(f, events, e);
    }
  }

  lemma ToldQuestions(f: Fold, e: Event)
    ensures Told(f, e).questions == Show(f.questions, e.body)
    ensures e.body.Status? || e.body.Evidence? || e.body.Notice? ==> Told(f, e).activity == f.activity + [e]
    ensures !(e.body.Status? || e.body.Evidence? || e.body.Notice?) ==> Told(f, e).activity == f.activity
  {
  }

  lemma ActivitiesNext(events: seq<Event>, e: Event)
    ensures Activities(events + [e]) == Activities(events) +
      (if e.body.Status? || e.body.Evidence? || e.body.Notice? then [e] else [])
  {
    assert (events + [e])[..|events|] == events;
  }

  lemma UserTextsNext(events: seq<Event>, e: Event)
    ensures UserTexts(events + [e]) == UserTexts(events) + (if e.body.User? then [e.body.text] else [])
  {
    assert (events + [e])[..|events|] == events;
  }

  /** The fold of one conversation's events: the questions are those of the
      log, every item has exactly one bubble with exactly its own text and phase, the
      user's messages all appear in order, and so does the activity. */
  method FoldEvents(events: seq<Event>, conversation: string) returns (f: Fold)
    requires forall e :: e in events ==> e.conversation == conversation
    ensures f.questions == Shown(events, conversation)
    ensures Indexed(f, events)
    ensures TextsFromUser(f.messages) == UserTexts(events)
    ensures f.activity == Activities(events)
  {
    f := EMPTY;
    for i := 0 to |events|
      invariant f.questions == Shown(events[..i], conversation)
      invariant Indexed(f, events[..i])
      invariant TextsFromUser(f.messages) == UserTexts(events[..i])
      invariant f.activity == Activities(events[..i])
    {
      var e := events[i];
      assert e in events && events[..i + 1] == events[..i] + [e];
      ShownNext(events[..i], e, conversation);
      ToldQuestions(f, e);
      ToldIndexed(f, events[..i], e);
      UserTextsNext(events[..i], e);
      ActivitiesNext(events[..i], e);
      f := Told(f, e);
    }
    assert events[..|events|] == events;
  }
}
