/** The status word of a server: five fields of bits. */
module ServerStatus {

  type Status = nat

  function Live(status: Status): nat { status % 2 }
  function Ring(status: Status): nat { status / 0x10 % 4 }
  function Action(status: Status): nat { status / 0x100 % 4 }
  function Operate(status: Status): nat { status / 0x1000 % 4 }
  function Suspend(status: Status): nat { status / 0x1_0000 % 2 }

  predicate IsDown(status: Status) { Live(status) == 0 }
  predicate IsServiceOut(status: Status) { Ring(status) == 1 }
  predicate IsNoAct(status: Status) { Action(status) == 0 }
  predicate IsAdd(status: Status) { Action(status) == 1 }
  predicate IsDelete(status: Status) { Action(status) == 2 }
  predicate IsNothing(status: Status) { Operate(status) == 0 }
  predicate IsSuspend(status: Status) { Suspend(status) == 1 }

  /** The status without the suspend bit. */
  function Unsuspended(status: Status): Status {
    status - Suspend(status) * 0x1_0000
  }

  const SRVIN_UP_NORMAL: Status := 0x21
  const SRVIN_UP_DELPENDING: Status := 0x1221
  const SRVIN_UP_DELETING: Status := 0x2221

  predicate IsServicing(status: Status) {
    var s := Unsuspended(status);
    s == SRVIN_UP_NORMAL || s == SRVIN_UP_DELPENDING || s == SRVIN_UP_DELETING
  }

  /** Up, in service, not suspended, and with no action, or one of deletion that is pending
      or being done. */
  predicate Serves(status: Status) {
    status == 0x21 || status == 0x1221 || status == 0x2221
  }

  lemma ServesMeans(status: Status)
    ensures IsServicing(status) && !IsSuspend(status) <==> Serves(status)
  {
  }

  /** The action field has one of its three defined values. */
  predicate HasAction(status: Status) {
    IsNoAct(status) || IsAdd(status) || IsDelete(status)
  }
}
