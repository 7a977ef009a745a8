/** What the live session and its handover share. */
module LiveTypes {

  datatype TurnState = Unset | Idle | Thinking | Speaking

  predicate Busy(s: TurnState) {
    s == Speaking || s == Thinking
  }
}
