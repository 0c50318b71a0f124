/** The recovery copy of one draft: a browser view that caches, loads and saves
    it, and the engine's table that accepts a save only against the revision it
    holds. Each function below is one stretch of client code between two awaits.

    Snapshots, load promises and save requests are compared by object identity
    in the client, so each carries a number that no other one of its key has. */
module RecoveryView {
  import opened Common

  datatype Kind = ChatKind | ReportKind

  datatype Submission = Submission(
    id: string, text: string, replyStyle: string,
    conversationId: Option<string>, composerText: string, keepText: bool)

  datatype Draft =
    | Chat(text: string, attachments: seq<string>, replyStyle: string, pending: Option<Submission>)
    | Report(text: string, hash: string, path: string)

  type Value = Option<Draft>

  function KindOf(draft: Draft): Kind {
    if draft.Chat? then ChatKind else ReportKind
  }

  predicate ValidSubmission(s: Submission) {
    && |s.id| <= 100 && |s.text| <= 16000
    && s.replyStyle in {"quick", "standard", "brief"}
    && |s.composerText| <= 14000
  }

  predicate ValidDraft(d: Draft) {
    && |d.text| <= 500000
    && match d
       case Report(_, hash, path) => |hash| <= 100 && |path| <= 2000
       case Chat(text, attachments, style, pending) =>
         && |text| <= 14000
         && style in {"quick", "standard"}
         && |attachments| <= 50
         && (forall a | a in attachments :: |a| <= 2000)
         && (pending.Some? ==> ValidSubmission(pending.value))
  }

  predicate ValidValue(v: Value) {
    v.Some? ==> ValidDraft(v.value)
  }

  /** What makes a report, or a chat with its unanswered submission, one that cannot
      be kept: a field that is too long or a style that is not known. */
  lemma InvalidMeans(d: Draft)
    ensures !ValidDraft(d) <==>
      match d
      case Report(text, hash, path) => |text| > 500000 || |hash| > 100 || |path| > 2000
      case Chat(text, attachments, style, pending) =>
        || |text| > 14000 || !(style == "quick" || style == "standard")
        || |attachments| > 50 || (exists i :: 0 <= i < |attachments| && |attachments[i]| > 2000)
        || (pending.Some? &&
              var sent := pending.value;
              || |sent.id| > 100 || |sent.text| > 16000 || |sent.composerText| > 14000
              || !(sent.replyStyle == "quick" || sent.replyStyle == "standard" || sent.replyStyle == "brief"))
  {
    if d.Chat? && exists a | a in d.attachments :: |a| > 2000 {
      var a :| a in d.attachments && |a| > 2000;
      var i :| 0 <= i < |d.attachments| && d.attachments[i] == a;
    }
  }

  /** What the snapshot's error line says; `Clear` is the empty string. */
  datatype Notice = Clear | BrowserUnreadable | BrowserUnavailable | Unchecked | NotSaved

  datatype Snapshot = Snapshot(stamp: nat, value: Value, notice: Notice, saving: bool, ready: bool)

  /** The copy in the browser's own storage: what it decodes to, if it does. */
  datatype Browser = Readable(value: Value) | Unreadable

  /** The save loop of one key: absent, waiting for the first load, or waiting
      for the answer to one posted snapshot. */
  datatype Loop =
    | Idle
    | Waiting(load: Option<nat>)
    | Posting(snapshot: Snapshot, revision: nat, request: nat)

  datatype View = View(
    opening: bool,                 // keys under "opening:" are never loaded
    cache: Option<Snapshot>,
    load: Option<nat>,             // the memoised load promise
    running: map<nat, Snapshot>,   // loads without an answer, with the snapshot they started from
    loop: Loop,
    version: Option<nat>,
    queued: seq<Value>,            // rewrites handed to queueMicrotask
    browser: Browser,
    made: nat)                     // numbers used so far

  function NewView(opening: bool, browser: Browser): View {
    View(opening, None, None, map[], Idle, None, [], browser, 0)
  }

  function Read(v: View): View {
    if v.cache.Some? then v else
    var snapshot := match v.browser
      case Readable(value) =>
        if ValidValue(value) then Snapshot(v.made, value, Clear, false, false)
        else Snapshot(v.made, None, BrowserUnreadable, false, false)
      case Unreadable => Snapshot(v.made, None, BrowserUnreadable, false, false);
    v.(cache := Some(snapshot), made := v.made + 1)
  }

  function Hydrate(v: View): View {
    if v.opening || v.load.Some? then v else
    var t := Read(v);
    t.(load := Some(t.made), running := t.running[t.made := t.cache.value], made := t.made + 1)
  }

  /** A load was answered. `copyFails` is the browser refusing its own copy. */
  function LoadAnswered(v: View, load: nat, found: bool, value: Value, revision: nat, copyFails: bool): View
    requires load in v.running
  {
    if !ValidValue(value) then LoadFailed(v, load) else
    var original := v.running[load];
    var u := v.(running := v.running - {load}, version := Some(revision));
    if u.cache.Some? && u.cache.value.stamp == original.stamp && !original.saving then
      var kept := if found then value else original.value;
      u.(cache := Some(Snapshot(u.made, kept, Clear, false, true)),
         made := u.made + 1,
         browser := if copyFails then u.browser else Readable(kept),
         queued := if !found && kept.Some? then u.queued + [kept] else u.queued)
    else
      var t := Read(u);
      t.(cache := Some(t.cache.value.(ready := true, stamp := t.made)), made := t.made + 1)
  }

  function LoadFailed(v: View, load: nat): View
    requires load in v.running
  {
    var t := Read(v.(running := v.running - {load}));
    t.(cache := Some(t.cache.value.(ready := true, notice := Unchecked, stamp := t.made)), made := t.made + 1)
  }

  function Persist(v: View): View {
    if !v.loop.Idle? then v else
    var h := Hydrate(v);
    h.(loop := Waiting(if h.opening then None else h.load))
  }

  predicate CanResume(v: View) {
    v.loop.Waiting? && (v.loop.load.Some? ==> v.loop.load.value !in v.running)
  }

  function Failed(v: View): View {
    var t := Read(v);
    t.(cache := Some(t.cache.value.(saving := false, notice := NotSaved, stamp := t.made)), made := t.made + 1)
  }

  /** The loop head: post the current snapshot, or leave and drop the promise. */
  function Head(v: View): View {
    var t := Read(v);
    if !t.cache.value.saving then t.(loop := Idle)
    else if t.version.None? then Failed(t).(loop := Idle)
    else t.(loop := Posting(t.cache.value, t.version.value, t.made), made := t.made + 1)
  }

  function PostAccepted(v: View, revision: nat): View
    requires v.loop.Posting?
  {
    var u := v.(version := Some(revision));
    Head(
      if u.cache.Some? && u.cache.value.stamp == v.loop.snapshot.stamp then
        u.(cache := Some(v.loop.snapshot.(saving := false, notice := Clear, ready := true, stamp := u.made)),
           made := u.made + 1)
      else u)
  }

  function PostFailed(v: View): View
    requires v.loop.Posting?
  {
    Head(Failed(v))
  }

  function Edited(v: View, value: Value, copyFails: bool): View
    requires v.cache.Some?
  {
    v.(browser := if copyFails then v.browser else Readable(value),
       cache := Some(
         Snapshot(v.made, value, if copyFails then BrowserUnavailable else Clear, true, v.cache.value.ready)),
       made := v.made + 1)
  }

  function Write(v: View, value: Value, copyFails: bool): View {
    if !ValidValue(value) then v else Persist(Edited(Read(v), value, copyFails))
  }

  function RunQueued(v: View, copyFails: bool): View
    requires v.queued != []
  {
    Write(v.(queued := v.queued[1..]), v.queued[0], copyFails)
  }

  function Invalidate(v: View): View {
    v.(cache := None, load := None, version := None)
  }

  function StorageEvent(v: View): View {
    if v.cache.None? then Invalidate(v) else v
  }

  /** No load of this key is without an answer, and no save loop is under way: what
      the memoised promises of the key tell. */
  predicate Answered(v: View) {
    v.running == map[] && v.loop.Idle?
  }
}

/** The engine's side: one table row a key. */
module RecoveryServer {
  import opened Common
  import opened RecoveryView

  datatype Row = Row(value: Value, revision: nat)

  datatype SaveError = InvalidKey | InvalidCopy | InvalidVersion | Changed

  const MAX_SAFE_INTEGER := 9007199254740991

  function Revision(row: Option<Row>): nat {
    if row.Some? then row.value.revision else 0
  }

  function Check(row: Option<Row>, kind: Kind, value: Value, revision: int): Result<nat, SaveError> {
    if value.Some? && (!ValidDraft(value.value) || KindOf(value.value) != kind) then Err(InvalidCopy)
    else if revision < 0 || revision > MAX_SAFE_INTEGER then Err(InvalidVersion)
    else if Revision(row) != revision then Err(Changed)
    else Ok(Revision(row) + 1)
  }

  /** No draft, or a valid one of the key's kind. */
  predicate Belongs(value: Value, kind: Kind) {
    value.None? || (ValidDraft(value.value) && KindOf(value.value) == kind)
  }

  /** A save is accepted exactly when its value may be kept under the key and its
      revision is in range and the one the row holds, or 0 without a row; then it
      makes the next revision. */
  lemma CheckMeans(row: Option<Row>, kind: Kind, value: Value, revision: int)
    ensures Check(row, kind, value, revision).Ok? <==>
      && Belongs(value, kind)
      && 0 <= revision <= MAX_SAFE_INTEGER
      && (row.Some? ==> row.value.revision == revision)
      && (row.None? ==> revision == 0)
    ensures Check(row, kind, value, revision).Ok? ==> Check(row, kind, value, revision).value == revision + 1
  {
  }

  /** The `recovery` table, with the keys the engine recognises. */
  class RecoveryTable {
    const kinds: map<string, Kind>
    var rows: map<string, Row>

    constructor (kinds: map<string, Kind>)
      ensures this.kinds == kinds && rows == map[]
    {
      this.kinds := kinds;
      rows := map[];
    }

    method Recovery(key: string) returns (r: Result<(bool, Value, nat), SaveError>)
      ensures key !in kinds ==> r == Err(InvalidKey)
      ensures key in kinds ==>
        r == Ok((key in rows, if key in rows then rows[key].value else None, Revision(Find(rows, key))))
    {
      if key !in kinds { return Err(InvalidKey); }
      if key in rows {
        return Ok((true, rows[key].value, rows[key].revision));
      }
      return Ok((false, None, 0));
    }

    /** Accepted exactly when the caller names the revision held, and then the
        row holds the caller's value at the next revision. */
    method SaveRecovery(key: string, value: Value, revision: int) returns (r: Result<nat, SaveError>)
      modifies this`rows
      ensures r.Ok? <==>
        && key in kinds && Belongs(value, kinds[key]) && 0 <= revision <= MAX_SAFE_INTEGER
        && revision == if key in old(rows) then old(rows)[key].revision else 0
      ensures r.Ok? ==> r.value == revision + 1 && rows == old(rows)[key := Row(value, r.value)]
      ensures r.Err? ==> rows == old(rows)
      ensures key in kinds ==> r == Check(old(Find(rows, key)), kinds[key], value, revision)
    {
      if key !in kinds { return Err(InvalidKey); }
      match value {
        case Some(draft) =>
          if !ValidDraft(draft) || KindOf(draft) != kinds[key] { return Err(InvalidCopy); }
        case None =>
      }
      if revision < 0 || revision > MAX_SAFE_INTEGER { return Err(InvalidVersion); }
      var current := Recovery(key);
      if current.value.2 != revision { return Err(Changed); }
      rows := rows[key := Row(value, current.value.2 + 1)];
      return Ok(current.value.2 + 1);
    }
  }
}
