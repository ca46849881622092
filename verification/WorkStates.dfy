/** RagCore's work states, and which of them the Integrations Service still executes. */
module WorkStates {
  import opened Uuids
  import opened Domain

  datatype WorkState =
    | Open | AwaitingDecision | Authorized | Claimed | Executed | Failed | Expired | Cancelled | Escalated
  {
    function Value(): string {
      match this
      case Open => "open"
      case AwaitingDecision => "awaiting_decision"
      case Authorized => "authorized"
      case Claimed => "claimed"
      case Executed => "executed"
      case Failed => "failed"
      case Expired => "expired"
      case Cancelled => "cancelled"
      case Escalated => "escalated"
    }
  }

  /** The text each state is stored as. */
  lemma StoredAs(state: WorkState, text: string)
    ensures state.Value() == text <==>
            || (state == Open && text == "open")
            || (state == AwaitingDecision && text == "awaiting_decision")
            || (state == Authorized && text == "authorized")
            || (state == Claimed && text == "claimed")
            || (state == Executed && text == "executed")
            || (state == WorkState.Failed && text == "failed")
            || (state == Expired && text == "expired")
            || (state == Cancelled && text == "cancelled")
            || (state == Escalated && text == "escalated")
  {
  }

  /** The states in which work is over. */
  const COMPLETED_WORK_STATES: set<WorkState> := {Executed, WorkState.Failed, Expired, Cancelled, Escalated}

  lemma BlockedValues(state: WorkState)
    ensures state.Value() in ["cancelled", "expired", "closed", "failed"] <==>
            state in {WorkState.Failed, Expired, Cancelled}
  {
    assert state == Executed || state == Escalated ==> state.Value()[0] == 'e';
    assert state == Executed ==> |state.Value()| == 8;
    assert state == Escalated ==> |state.Value()| == 9;
    assert state == Open || state == AwaitingDecision || state == Authorized ==> state.Value()[0] in ['o', 'a'];
    assert state == Claimed ==> |state.Value()| == 7 && state.Value()[1] == 'l' && state.Value()[2] == 'a';
    assert "closed"[1] == 'l' && "closed"[2] == 'o' && "expired"[1] == 'x';
  }

  /** Work that was executed or escalated is over, and is executed again all the same. */
  lemma FinishedWorkStillExecutes(i: Instruction, now: Time, state: WorkState)
    requires (state == Executed || state == Escalated) && i.workState == state.Value() && i.OtherwiseInOrder(now)
    ensures state in COMPLETED_WORK_STATES && i.IsExecutableAt(now)
  {
    BlockedValues(state);
  }

  /** Of the states in which work is over, execution is refused at every instant in exactly three. */
  lemma FinishedWorkIsRefusedIff(state: WorkState)
    requires state in COMPLETED_WORK_STATES
    ensures (forall i: Instruction, now: Time :: i.workState == state.Value() ==> !i.IsExecutableAt(now)) <==>
            state in {WorkState.Failed, Expired, Cancelled}
  {
    BlockedValues(state);
    if state !in {WorkState.Failed, Expired, Cancelled} {
      var i := Instruction(0, 0, 0, 0, CapabilityIdentity("c", 1), "", 1, state.Value(), "approved", "active");
      FinishedWorkStillExecutes(i, 0, state);
      assert i.workState == state.Value() && i.IsExecutableAt(0);
    }
  }
}
