/** The copy in the browser: what is on screen is read again after a reload, and a
    notice says so when it could not be stored. */
module RecoveryCopies {
  import opened Common
  import opened RecoveryView
  import opened RecoveryServer
  import opened RecoveryProtocol

  /** What a page shows first when it is opened over what the browser has. */
  function Reopened(v: View): Snapshot {
    Read(NewView(v.opening, v.browser)).cache.value
  }

  /** A valid value that is written is on screen at once, waiting to be saved, and in the
      browser, unless that refuses it; then the notice says so. A reload shows what
      the browser has. An invalid value changes nothing. */
  lemma WrittenTextIsCopied(v: View, value: Value, copyFails: bool)
    ensures var u := Write(v, value, copyFails);
      if value.Some? && !ValidDraft(value.value) then u == v
      else
        && u.cache.Some? && u.cache.value.value == value && u.cache.value.saving
        && (copyFails ==> u.cache.value.notice.BrowserUnavailable? && u.browser == v.browser)
        && (!copyFails ==> u.cache.value.notice.Clear? && u.browser == Readable(value)
                           && Reopened(u).value == value && Reopened(u).notice.Clear?)
  {
  }

  /** What is on screen, if anything, is what the browser has. */
  predicate Copied(v: View) {
    v.cache.Some? && v.cache.value.value.Some? ==> v.browser == Readable(v.cache.value.value)
  }

  /** The browser takes every copy of the view, and no other page rewrites it. */
  predicate Stores(step: Step, i: nat) {
    match step
    case Local(j, act) =>
      j == i ==> !act.BrowserChange? && (act.CallWrite? || act.Microtask? ==> !act.copyFails)
    case Deliver(_, copyFails) => !copyFails
    case _ => true
  }

  lemma ActKeepsCopy(v: View, act: Act)
    requires Shape(v) && Copied(v) && !act.BrowserChange? && (act.CallWrite? || act.Microtask? ==> !act.copyFails)
    ensures Copied(Acted(v, act))
  {
  }

  lemma AnswerKeepsCopy(v: View, load: nat, found: bool, value: Value, revision: nat)
    requires load in v.running && Loading(v) && Copied(v)
    ensures Copied(LoadAnswered(v, load, found, value, revision, false))
  {
  }

  lemma SaveKeepsCopy(v: View, revision: nat)
    requires v.loop.Posting? && Shape(v) && Copied(v)
    ensures Copied(PostAccepted(v, revision)) && Copied(PostFailed(v))
  {
  }

  lemma StepKeepsCopy(s: System, step: Step, i: nat)
    requires Inv(s) && i < |s.views| && Copied(s.views[i]) && Stores(step, i)
    ensures i < |Next(s, step).views| && Copied(Next(s, step).views[i])
  {
    assert ViewInv(s.server, s.views[i]);
    match step
    case Local(j, act) => if j == i { ActKeepsCopy(s.views[i], act); }
    case Deliver(reply, fails) => if reply in s.replies { DeliveryKeepsCopy(s, reply, i); }
    case _ =>
  }

  lemma DeliveryKeepsCopy(s: System, reply: Reply, i: nat)
    requires Inv(s) && i < |s.views| && Copied(s.views[i])
    ensures i < |Delivered(s, reply, false).views| && Copied(Delivered(s, reply, false).views[i])
  {
    assert ViewInv(s.server, s.views[i]);
    match reply
    case Loaded(get, found, value, revision) =>
      if get.view == i && get.load in s.views[i].running {
        AnswerKeepsCopy(s.views[i], get.load, found, value, revision);
      }
    case Stored(post, revision) =>
      if post.view == i && Awaits(s, post) { SaveKeepsCopy(s.views[i], revision); }
    case Refused(post) =>
      if post.view == i && Awaits(s, post) { SaveKeepsCopy(s.views[i], 0); }
  }

  lemma {:induction false} CopiedThroughout(s: System, steps: seq<Step>, i: nat)
    requires Inv(s) && CalmRun(s, steps) && i < |s.views| && Copied(s.views[i])
    requires forall k | 0 <= k < |steps| :: Stores(steps[k], i)
    ensures i < |Run(s, steps).views| && Copied(Run(s, steps).views[i])
    ensures Inv(Run(s, steps))
    decreases |steps|
  {
    if steps != [] {
      StepKeepsCopy(s, steps[0], i);
      NextKeeps(s, steps[0]);
      assert forall k | 0 <= k < |steps[1..]| :: steps[1..][k] == steps[k + 1];
      CopiedThroughout(Next(s, steps[0]), steps[1..], i);
    }
  }

  /** From the opening of a page, whatever its loads and saves do: as long as the browser
      takes its copies and no other page rewrites them, a reload shows the text that
      was on screen. */
  lemma TextSurvivesReloads(s: System, browser: Browser, steps: seq<Step>)
    requires Inv(s)
    requires var start := Next(s, Open(browser));
      CalmRun(start, steps) && forall k | 0 <= k < |steps| :: Stores(steps[k], |s.views|)
    ensures var u := Run(Next(s, Open(browser)), steps); var i := |s.views|;
      && i < |u.views|
      && (u.views[i].cache.Some? && u.views[i].cache.value.value.Some? ==>
            Reopened(u.views[i]).value == u.views[i].cache.value.value)
  {
    NextKeeps(s, Open(browser));
    CopiedThroughout(Next(s, Open(browser)), steps, |s.views|);
    var u := Run(Next(s, Open(browser)), steps);
    assert ViewInv(u.server, u.views[|s.views|]);
  }
}
