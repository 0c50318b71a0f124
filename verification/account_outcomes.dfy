/** How sign-ins end, and what each call does to the slots. */
module AccountOutcomes {
  import opened Common
  import opened AccountSlots

  // ------------------------------------------------------------ how sign-ins end

  /** A step that neither gives up the slot's sign-in nor answers it. */
  predicate Leaves(step: Step, slot: nat, request: nat) {
    match step
    case Restart => false
    case Disconnect(other, _) => other != slot
    case Answered(other, _) => other != request
    case Rejected(other) => other != request
    case _ => true
  }

  lemma StillWaits(s: Slots, step: Step, slot: nat)
    requires Inv(s) && slot in s.pending && Leaves(step, slot, s.pending[slot])
    ensures var t := Next(s, step);
      && slot in t.pending && t.pending[slot] == s.pending[slot]
      && slot in t.accounts && t.accounts[slot] == s.accounts[slot]
  {
  }

  lemma {:induction false} WaitsThroughout(s: Slots, steps: seq<Step>, slot: nat)
    requires Inv(s) && slot in s.pending
    requires forall i | 0 <= i < |steps| :: Leaves(steps[i], slot, s.pending[slot])
    ensures var t := Run(s, steps);
      && Inv(t) && slot in t.pending && t.pending[slot] == s.pending[slot]
      && slot in t.accounts && t.accounts[slot] == s.accounts[slot]
    decreases |steps|
  {
    if steps != [] {
      NextKeeps(s, steps[0]);
      StillWaits(s, steps[0], slot);
      assert forall i | 0 <= i < |steps[1..]| :: steps[1..][i] == steps[i + 1];
      WaitsThroughout(Next(s, steps[0]), steps[1..], slot);
    }
  }

  /** The account a slot ends with when its sign-in is answered. */
  predicate EndsAs(t: Slots, u: Slots, slot: nat, account: Account, failed: bool) {
    && u.accounts == t.accounts[slot := account] && u.pending == t.pending - {slot}
    && u.errors == if failed then t.errors + {slot} else t.errors
  }

  predicate HeldElsewhere(t: Slots, slot: nat, homeId: Option<string>) {
    exists other | other in t.accounts && other != slot :: t.accounts[other].homeId == homeId
  }

  /** A waiting slot rests on the identity it had, if the answer brings none of its own. */
  lemma AnswerMeans(t: Slots, slot: nat, homeId: Option<string>)
    requires Inv(t) && slot in t.accounts && slot in t.pending
    ensures var rested := Account(t.accounts[slot].homeId,
                            if t.accounts[slot].homeId.Some? then Connected else Disconnected);
      && EndsAs(t, Next(t, Rejected(t.pending[slot])), slot, rested, true)
      && var u := Next(t, Answered(t.pending[slot], homeId));
      if homeId.Some? && !HeldElsewhere(t, slot, homeId)
      then EndsAs(t, u, slot, Account(homeId, Connected), false)
      else EndsAs(t, u, slot, rested, true)
  {
  }

  /** A sign-in that nothing gives up ends as it is answered, however much happens
      in between: with an identity that no other slot holds the slot is connected
      under it, and otherwise it is what it was before, with an error. No other
      slot changes. */
  lemma SignInsEndAsAnswered(s: Slots, slot: nat, steps: seq<Step>, homeId: Option<string>)
    requires Inv(s) && slot in s.accounts && !s.accounts[slot].status.Removed? && slot !in s.pending
    requires forall i | 0 <= i < |steps| :: Leaves(steps[i], slot, s.made)
    ensures var t := Run(Next(s, Connect(slot)), steps);
      && EndsAs(t, Next(t, Rejected(s.made)), slot, s.accounts[slot], true)
      && var u := Next(t, Answered(s.made, homeId));
      if homeId.Some? && !HeldElsewhere(t, slot, homeId)
      then EndsAs(t, u, slot, Account(homeId, Connected), false)
      else EndsAs(t, u, slot, s.accounts[slot], true)
  {
    NextKeeps(s, Connect(slot));
    WaitsThroughout(Next(s, Connect(slot)), steps, slot);
    AnswerMeans(Run(Next(s, Connect(slot)), steps), slot, homeId);
  }

  // ------------------------------------------------------------ what each call does

  /** A sign-in starts exactly in a slot that is there, not removed and not waiting;
      it keeps the identity, forgets the error and waits for a new request. */
  lemma ConnectMeans(s: Slots, slot: nat)
    requires Inv(s)
    ensures var u := Next(s, Connect(slot));
      && (u == s <==> slot !in s.accounts || s.accounts[slot].status.Removed? || slot in s.pending)
      && (u != s ==>
            && u.accounts == s.accounts[slot := Account(s.accounts[slot].homeId, Connecting)]
            && u.pending == s.pending[slot := s.made] && u.flights == s.flights[s.made := slot]
            && u.errors == s.errors - {slot} && s.made !in s.flights)
  {
    if Usable(s, slot) && slot !in s.pending { assert slot in Next(s, Connect(slot)).pending; }
  }

  /** A disconnected slot has no identity, no sign-in and no error; a removed one
      neither, and the other slots are as before. */
  lemma DisconnectMeans(s: Slots, slot: nat, remove: bool)
    requires Inv(s)
    ensures var u := Next(s, Disconnect(slot, remove));
      && u.flights == s.flights && u.made == s.made
      && (if slot in s.accounts && !s.accounts[slot].status.Removed? then
            && slot !in u.pending && slot !in u.errors
            && u.accounts[slot].homeId.None?
            && u.accounts[slot].status == (if remove then Removed else Disconnected)
          else u == s)
      && forall other | other in s.accounts && other != slot ::
           && u.accounts[other] == s.accounts[other]
           && (other in u.pending <==> other in s.pending) && (other in u.errors <==> other in s.errors)
  {
  }

  /** The lowest removed slot comes back, disconnected. */
  lemma AddMeans(s: Slots, slot: nat)
    requires Inv(s) && slot in s.accounts && s.accounts[slot].status.Removed?
    requires forall lower | lower in s.accounts && lower < slot :: !s.accounts[lower].status.Removed?
    ensures Next(s, Add) == s.(accounts := s.accounts[slot := Account(None, Disconnected)])
  {
  }

  lemma NothingToAdd(s: Slots)
    requires forall slot | slot in s.accounts :: !s.accounts[slot].status.Removed?
    ensures Next(s, Add) == s
  {
  }

  /** A new process keeps every identity and waits for nothing; what was connecting
      is connected if it has an identity and disconnected if not. */
  lemma RestartMeans(s: Slots)
    requires Inv(s)
    ensures var u := Next(s, Restart);
      && u.pending == map[] && u.flights == map[] && u.errors == {} && u.accounts.Keys == s.accounts.Keys
      && forall slot | slot in s.accounts ::
           && u.accounts[slot].homeId == s.accounts[slot].homeId
           && u.accounts[slot].status == (
                if s.accounts[slot].status.Removed? then Removed
                else if s.accounts[slot].homeId.Some? then Connected
                else Disconnected)
  {
  }
}
