/** The three OneDrive account slots: rows that outlive the host, a pending
    sign-in for a slot at a time, and answers that may come after a sign-in was
    cancelled or replaced. An answer's handlers run as one step. */
module AccountSlots {
  import opened Common

  datatype Status = Disconnected | Connecting | Connected | Removed

  datatype Account = Account(homeId: Option<string>, status: Status)

  datatype Slots = Slots(
    accounts: map<nat, Account>,
    pending: map<nat, nat>,        // the sign-in request of a slot
    flights: map<nat, nat>,        // every request without an answer, and its slot
    errors: set<nat>,
    made: nat)

  const SLOTS: set<nat> := {1, 2, 3}

  function Initial(): Slots {
    Slots(map slot: nat | slot in SLOTS :: Account(None, Disconnected), map[], map[], {}, 0)
  }

  datatype Step =
    | Add
    | Connect(slot: nat)
    | Answered(request: nat, homeId: Option<string>)
    | Rejected(request: nat)
    | Disconnect(slot: nat, remove: bool)
    | Restart

  predicate Usable(s: Slots, slot: nat) {
    slot in s.accounts && !s.accounts[slot].status.Removed?
  }

  function FirstRemoved(s: Slots): Option<nat> {
    if 1 in s.accounts && s.accounts[1].status.Removed? then Some(1)
    else if 2 in s.accounts && s.accounts[2].status.Removed? then Some(2)
    else if 3 in s.accounts && s.accounts[3].status.Removed? then Some(3)
    else None
  }

  /** The request is the slot's current sign-in. */
  predicate Current(s: Slots, request: nat) {
    && request in s.flights
    && s.flights[request] in s.pending && s.pending[s.flights[request]] == request
    && s.flights[request] in s.accounts
  }

  predicate TakenElsewhere(s: Slots, slot: nat, homeId: string) {
    exists other | other in s.accounts :: other != slot && s.accounts[other].homeId == Some(homeId)
  }

  function Resting(account: Account): Account {
    account.(status := if account.homeId.Some? then Connected else Disconnected)
  }

  function SignedIn(s: Slots, slot: nat, homeId: string): Slots {
    s.(accounts := s.accounts[slot := Account(Some(homeId), Connected)], pending := s.pending - {slot})
  }

  function SignInFailed(s: Slots, slot: nat): Slots
    requires slot in s.accounts
  {
    s.(accounts := s.accounts[slot := Resting(s.accounts[slot])],
       pending := s.pending - {slot},
       errors := s.errors + {slot})
  }

  function Next(s: Slots, step: Step): Slots {
    match step
    case Add =>
      if FirstRemoved(s).None? then s
      else
        var slot := FirstRemoved(s).value;
        if slot in s.accounts then s.(accounts := s.accounts[slot := s.accounts[slot].(status := Disconnected)]) else s
    case Connect(slot) =>
      if !Usable(s, slot) || slot in s.pending then s
      else s.(
        accounts := s.accounts[slot := s.accounts[slot].(status := Connecting)],
        pending := s.pending[slot := s.made],
        flights := s.flights[s.made := slot],
        errors := s.errors - {slot},
        made := s.made + 1)
    case Answered(request, homeId) =>
      if request !in s.flights then s
      else
        var t := s.(flights := s.flights - {request});
        if !Current(s, request) then t
        else
          var slot := s.flights[request];
          if homeId.None? || TakenElsewhere(s, slot, homeId.value) then SignInFailed(t, slot)
          else SignedIn(t, slot, homeId.value)
    case Rejected(request) =>
      if request !in s.flights then s
      else
        var t := s.(flights := s.flights - {request});
        if !Current(s, request) then t else SignInFailed(t, s.flights[request])
    case Disconnect(slot, remove) =>
      if !Usable(s, slot) then s
      else s.(
        accounts := s.accounts[slot := Account(None, if remove then Removed else Disconnected)],
        pending := s.pending - {slot},
        errors := s.errors - {slot})
    case Restart =>
      s.(accounts := map slot | slot in s.accounts ::
           if s.accounts[slot].status.Connecting? then Resting(s.accounts[slot]) else s.accounts[slot],
         pending := map[], flights := map[], errors := {})
  }

  function Run(s: Slots, steps: seq<Step>): Slots
    decreases |steps|
  {
    if steps == [] then s else Run(Next(s, steps[0]), steps[1..])
  }

  // ------------------------------------------------------------------ invariant

  predicate Identities(s: Slots) {
    forall a, b | a in s.accounts && b in s.accounts ::
      a != b && s.accounts[a].homeId.Some? ==> s.accounts[a].homeId != s.accounts[b].homeId
  }

  predicate Statuses(s: Slots) {
    forall slot | slot in s.accounts ::
      match s.accounts[slot].status
      case Connected => s.accounts[slot].homeId.Some?
      case Disconnected => s.accounts[slot].homeId.None?
      case Removed => s.accounts[slot].homeId.None?
      case Connecting => true
  }

  /** A slot is connecting exactly while a sign-in is pending for it. */
  predicate Waiting(s: Slots) {
    && (forall slot | slot in s.accounts :: s.accounts[slot].status.Connecting? <==> slot in s.pending)
    && (forall slot | slot in s.pending :: slot in s.accounts && s.pending[slot] < s.made)
    && (forall request | request in s.flights :: request < s.made)
    && (forall slot | slot in s.pending :: s.pending[slot] in s.flights && s.flights[s.pending[slot]] == slot)
  }

  predicate Inv(s: Slots) {
    s.accounts.Keys == SLOTS && Identities(s) && Statuses(s) && Waiting(s)
  }

  predicate Fits(a: Account) {
    match a.status
    case Connected => a.homeId.Some?
    case Connecting => true
    case _ => a.homeId.None?
  }

  /** Rewriting one account with an identity nobody else has. */
  lemma PutKeeps(s: Slots, t: Slots, slot: nat, a: Account)
    requires Inv(s) && slot in s.accounts && t.accounts == s.accounts[slot := a] && Fits(a)
    requires a.homeId.Some? ==> !TakenElsewhere(s, slot, a.homeId.value)
    ensures t.accounts.Keys == SLOTS && Identities(t) && Statuses(t)
  {
  }

  lemma RestKeeps(s: Slots, slot: nat)
    requires Inv(s) && slot in s.accounts
    ensures Fits(Resting(s.accounts[slot]))
    ensures var id := s.accounts[slot].homeId; id.Some? ==> !TakenElsewhere(s, slot, id.value)
  {
  }

  lemma AddKeeps(s: Slots)
    requires Inv(s)
    ensures Inv(Next(s, Add))
  {
    if FirstRemoved(s).Some? {
      var slot := FirstRemoved(s).value;
      PutKeeps(s, Next(s, Add), slot, s.accounts[slot].(status := Disconnected));
    }
  }

  lemma ConnectKeeps(s: Slots, slot: nat)
    requires Inv(s)
    ensures Inv(Next(s, Connect(slot)))
  {
    if Usable(s, slot) && slot !in s.pending {
      RestKeeps(s, slot);
      PutKeeps(s, Next(s, Connect(slot)), slot, s.accounts[slot].(status := Connecting));
      ConnectWaits(s, slot);
    }
  }

  lemma ConnectWaits(s: Slots, slot: nat)
    requires Waiting(s)
    ensures Waiting(Next(s, Connect(slot)))
  {
  }

  lemma DisconnectKeeps(s: Slots, slot: nat, remove: bool)
    requires Inv(s)
    ensures Inv(Next(s, Disconnect(slot, remove)))
  {
    if Usable(s, slot) {
      PutKeeps(s, Next(s, Disconnect(slot, remove)), slot, Account(None, if remove then Removed else Disconnected));
      DisconnectWaits(s, slot, remove);
    }
  }

  lemma DisconnectWaits(s: Slots, slot: nat, remove: bool)
    requires Waiting(s)
    ensures Waiting(Next(s, Disconnect(slot, remove)))
  {
  }

  lemma ForgetKeeps(s: Slots, request: nat)
    requires Inv(s) && request in s.flights && !Current(s, request)
    ensures Inv(s.(flights := s.flights - {request}))
  {
  }

  /** The answered request of a slot that stops waiting for it. */
  lemma SettledWaits(s: Slots, t: Slots, request: nat, a: Account)
    requires Waiting(s) && Current(s, request) && !a.status.Connecting?
    requires t.accounts == s.accounts[s.flights[request] := a] && t.made == s.made
    requires t.pending == s.pending - {s.flights[request]} && t.flights == s.flights - {request}
    ensures Waiting(t)
  {
  }

  lemma SignedInKeeps(s: Slots, request: nat, homeId: string)
    requires Inv(s) && Current(s, request) && !TakenElsewhere(s, s.flights[request], homeId)
    ensures Inv(SignedIn(s.(flights := s.flights - {request}), s.flights[request], homeId))
  {
    var t := SignedIn(s.(flights := s.flights - {request}), s.flights[request], homeId);
    PutKeeps(s, t, s.flights[request], Account(Some(homeId), Connected));
    SettledWaits(s, t, request, Account(Some(homeId), Connected));
  }

  lemma SignInFailedKeeps(s: Slots, request: nat)
    requires Inv(s) && Current(s, request)
    ensures Inv(SignInFailed(s.(flights := s.flights - {request}), s.flights[request]))
  {
    var slot := s.flights[request];
    var t := SignInFailed(s.(flights := s.flights - {request}), slot);
    RestKeeps(s, slot);
    PutKeeps(s, t, slot, Resting(s.accounts[slot]));
    SettledWaits(s, t, request, Resting(s.accounts[slot]));
  }

  lemma RestartKeeps(s: Slots)
    requires Inv(s)
    ensures Inv(Next(s, Restart))
  {
    var t := Next(s, Restart);
    assert forall slot | slot in s.accounts :: t.accounts[slot].homeId == s.accounts[slot].homeId;
  }

  lemma AnsweredKeeps(s: Slots, request: nat, homeId: Option<string>)
    requires Inv(s)
    ensures Inv(Next(s, Answered(request, homeId)))
  {
    if request in s.flights {
      if !Current(s, request) { ForgetKeeps(s, request); }
      else if homeId.None? || TakenElsewhere(s, s.flights[request], homeId.value) { SignInFailedKeeps(s, request); }
      else { SignedInKeeps(s, request, homeId.value); }
    }
  }

  lemma RejectedKeeps(s: Slots, request: nat)
    requires Inv(s)
    ensures Inv(Next(s, Rejected(request)))
  {
    if request in s.flights {
      if !Current(s, request) { ForgetKeeps(s, request); } else { SignInFailedKeeps(s, request); }
    }
  }

  lemma NextKeeps(s: Slots, step: Step)
    requires Inv(s)
    ensures Inv(Next(s, step))
  {
    match step
    case Add => AddKeeps(s);
    case Connect(slot) => ConnectKeeps(s, slot);
    case Disconnect(slot, remove) => DisconnectKeeps(s, slot, remove);
    case Restart => RestartKeeps(s);
    case Answered(request, homeId) => AnsweredKeeps(s, request, homeId);
    case Rejected(request) => RejectedKeeps(s, request);
  }

  lemma MadeGrows(s: Slots, step: Step)
    ensures s.made <= Next(s, step).made
  {
  }

  lemma {:induction false} RunKeeps(s: Slots, steps: seq<Step>)
    requires Inv(s)
    ensures Inv(Run(s, steps))
    decreases |steps|
  {
    if steps != [] {
      NextKeeps(s, steps[0]);
      RunKeeps(Next(s, steps[0]), steps[1..]);
    }
  }

  /** In every reachable state identities are pairwise distinct, connected means
      an identity, disconnected or removed means none, and connecting means a
      pending request that is still unanswered. */
  lemma SlotsStayConsistent(steps: seq<Step>, a: nat, b: nat)
    requires a in SLOTS && b in SLOTS
    ensures var s := Run(Initial(), steps);
      && a in s.accounts && b in s.accounts
      && (a != b && s.accounts[a].homeId.Some? ==> s.accounts[a].homeId != s.accounts[b].homeId)
      && (s.accounts[a].status.Connected? ==> s.accounts[a].homeId.Some?)
      && (s.accounts[a].status.Disconnected? || s.accounts[a].status.Removed? ==> s.accounts[a].homeId.None?)
      && (s.accounts[a].status.Connecting? <==> a in s.pending)
      && (a in s.pending ==> s.pending[a] in s.flights)
  {
    RunKeeps(Initial(), steps);
  }

  /** A request that is no longer its slot's sign-in never becomes it again. */
  lemma {:induction false} NeverCurrentAgain(s: Slots, steps: seq<Step>, request: nat)
    requires Inv(s) && request < s.made && !Current(s, request)
    ensures !Current(Run(s, steps), request)
    decreases |steps|
  {
    if steps != [] {
      NextKeeps(s, steps[0]);
      MadeGrows(s, steps[0]);
      StaysReplaced(s, steps[0], request);
      NeverCurrentAgain(Next(s, steps[0]), steps[1..], request);
    }
  }

  lemma StaysReplaced(s: Slots, step: Step, request: nat)
    requires Inv(s) && request < s.made && !Current(s, request)
    ensures !Current(Next(s, step), request)
  {
  }

  /** The late answer of a cancelled or replaced sign-in changes nothing, however
      late it comes and whatever it says. */
  lemma LateAnswersChangeNothing(s: Slots, steps: seq<Step>, request: nat, homeId: Option<string>)
    requires Inv(s) && request < s.made && !Current(s, request)
    ensures var t := Run(s, steps);
      && Next(t, Answered(request, homeId)).(flights := t.flights) == t
      && Next(t, Rejected(request)).(flights := t.flights) == t
  {
    NeverCurrentAgain(s, steps, request);
  }

  /** Disconnecting a slot cancels its sign-in: no later answer connects it. */
  lemma DisconnectCancels(s: Slots, slot: nat, remove: bool, steps: seq<Step>, homeId: Option<string>)
    requires Inv(s) && slot in s.pending && Usable(s, slot)
    ensures var t := Run(Next(s, Disconnect(slot, remove)), steps);
      Next(t, Answered(s.pending[slot], homeId)).(flights := t.flights) == t
  {
    NextKeeps(s, Disconnect(slot, remove));
    LateAnswersChangeNothing(Next(s, Disconnect(slot, remove)), steps, s.pending[slot], homeId);
  }
}

/** The OneDrive object's own maps and the account rows, changed in place. */
module AccountSlotsObject {
  import opened Common
  import S = AccountSlots

  class OneDriveAccounts {
    var accounts: map<nat, S.Account>
    var pending: map<nat, nat>
    var errors: set<nat>
    var flights: map<nat, nat>
    var made: nat

    ghost function At(): S.Slots
      reads this
    {
      S.Slots(accounts, pending, flights, errors, made)
    }

    constructor ()
      ensures At() == S.Initial()
    {
      accounts := S.Initial().accounts;
      pending, errors, flights, made := map[], {}, map[], 0;
    }

    method Add() returns (added: Option<nat>)
      modifies this
      ensures added == S.FirstRemoved(old(At())) && At() == S.Next(old(At()), S.Add)
    {
      added := None;
      var slot: nat := 1;
      while slot <= 3
        invariant 1 <= slot <= 4 && At() == old(At())
        invariant forall n: nat :: 1 <= n < slot ==> !(n in accounts && accounts[n].status.Removed?)
      {
        if slot in accounts && accounts[slot].status.Removed? {
          accounts := accounts[slot := accounts[slot].(status := S.Disconnected)];
          return Some(slot);
        }
        slot := slot + 1;
      }
    }

    method Connect(slot: nat) returns (started: bool)
      modifies this
      ensures started <==> S.Usable(old(At()), slot) && slot !in old(pending)
      ensures At() == S.Next(old(At()), S.Connect(slot))
    {
      if !(slot in accounts && !accounts[slot].status.Removed?) || slot in pending { return false; }
      errors := errors - {slot};
      pending := pending[slot := made];
      flights := flights[made := slot];
      made := made + 1;
      accounts := accounts[slot := accounts[slot].(status := S.Connecting)];
      return true;
    }

    method Duplicate(slot: nat, homeId: string) returns (found: bool)
      ensures found == S.TakenElsewhere(At(), slot, homeId)
    {
      found := exists other | other in accounts :: other != slot && accounts[other].homeId == Some(homeId);
    }

    /** The success handler, then the failure handler if it threw, then the last one. */
    method Answered(request: nat, homeId: Option<string>)
      modifies this
      ensures At() == S.Next(old(At()), S.Answered(request, homeId))
    {
      if request !in flights { return; }
      var slot := flights[request];
      var current := slot in pending && pending[slot] == request && slot in accounts;
      flights := flights - {request};
      if !current { return; }
      if homeId.Some? {
        var duplicate := Duplicate(slot, homeId.value);
        if !duplicate {
          accounts := accounts[slot := S.Account(homeId, S.Connected)];
          pending := pending - {slot};
          return;
        }
      }
      Failed(slot);
    }

    method Failed(slot: nat)
      requires slot in accounts
      modifies this
      ensures At() == S.SignInFailed(old(At()), slot)
    {
      errors := errors + {slot};
      accounts := accounts[slot :=
        accounts[slot].(status := if accounts[slot].homeId.Some? then S.Connected else S.Disconnected)];
      pending := pending - {slot};
    }

    method Disconnect(slot: nat, remove: bool)
      modifies this
      ensures At() == S.Next(old(At()), S.Disconnect(slot, remove))
    {
      if !(slot in accounts && !accounts[slot].status.Removed?) { return; }
      pending := pending - {slot};
      accounts := accounts[slot := S.Account(None, if remove then S.Removed else S.Disconnected)];
      errors := errors - {slot};
    }

    /** A sign-in that failed at Microsoft or timed out. */
    method Rejected(request: nat)
      modifies this
      ensures At() == S.Next(old(At()), S.Rejected(request))
    {
      if request !in flights { return; }
      var slot := flights[request];
      var current := slot in pending && pending[slot] == request && slot in accounts;
      flights := flights - {request};
      if current { Failed(slot); }
    }

    /** A new process over the same rows: what was connecting goes back to what it was. */
    method Restart()
      modifies this
      ensures At() == S.Next(old(At()), S.Restart)
    {
      ghost var before := old(At());
      ghost var after := S.Next(before, S.Restart).accounts;
      var todo := accounts.Keys;
      while todo != {}
        invariant todo <= accounts.Keys == before.accounts.Keys && made == before.made
        invariant forall slot | slot in accounts ::
          accounts[slot] == if slot in todo then before.accounts[slot] else after[slot]
        decreases |todo|
      {
        var slot :| slot in todo;
        if accounts[slot].status.Connecting? {
          accounts := accounts[slot :=
            accounts[slot].(status := if accounts[slot].homeId.None? then S.Disconnected else S.Connected)];
        }
        todo := todo - {slot};
      }
      assert accounts == after;
      pending, flights, errors := map[], map[], {};
    }

    method Perform(step: S.Step)
      modifies this
      ensures At() == S.Next(old(At()), step)
    {
      match step {
        case Add => var _ := Add();
        case Connect(slot) => var _ := Connect(slot);
        case Answered(request, homeId) => Answered(request, homeId);
        case Rejected(request) => Rejected(request);
        case Disconnect(slot, remove) => Disconnect(slot, remove);
        case Restart => Restart();
      }
    }

    /** Any sequence of calls on a new object keeps the slots consistent: no identity
        twice, connected with one, disconnected or removed without. */
    method PerformAll(steps: seq<S.Step>)
      modifies this
      ensures At() == S.Run(old(At()), steps)
      ensures old(At()) == S.Initial() ==> S.Inv(At())
    {
      var i := 0;
      while i < |steps|
        invariant 0 <= i <= |steps|
        invariant S.Run(At(), steps[i..]) == S.Run(old(At()), steps)
      {
        assert steps[i..][1..] == steps[i + 1..];
        Perform(steps[i]);
        i := i + 1;
      }
      if old(At()) == S.Initial() { S.RunKeeps(S.Initial(), steps); }
    }
  }
}
