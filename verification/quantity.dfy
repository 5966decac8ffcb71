/** The plus/minus head-count steppers shared by the home page and the ticket
    checkout: the handler both pages define, and the buttons around it, each
    disabled at its bound. */
module Quantity {

  datatype Direction = Increase | Decrease

  /** The largest head count either stepper offers. */
  const MaxCount: int := 10

  /** The handler both pages define: one step up, capped at ten, or one step
      down, floored at one. */
  function ChangeQuantity(d: Direction, current: int): (r: int)
    ensures d == Increase ==> r <= MaxCount && (current < MaxCount ==> r == current + 1)
    ensures d == Decrease ==> r >= 1 && (current > 1 ==> r == current - 1)
    ensures 0 <= current <= MaxCount ==> 1 <= r <= MaxCount
  {
    match d
    case Increase => if current + 1 < MaxCount then current + 1 else MaxCount
    case Decrease => if current - 1 > 1 then current - 1 else 1
  }

  /** A press of an adults button: minus is disabled at one or fewer, plus at
      ten or more. */
  function PressAdults(d: Direction, adults: int): (r: int)
    ensures 1 <= adults <= MaxCount ==> 1 <= r <= MaxCount
    ensures d == Increase ==> r == adults + 1 || (r == adults && adults >= MaxCount)
    ensures d == Decrease ==> r == adults - 1 || (r == adults && adults <= 1)
  {
    match d
    case Increase => if adults >= MaxCount then adults else ChangeQuantity(d, adults)
    case Decrease => if adults <= 1 then adults else ChangeQuantity(d, adults)
  }

  /** A press of a children button as the pages wire it: minus is disabled
      only at zero, yet the handler it calls floors at one. */
  function PressChildrenAsWritten(d: Direction, children: int): (r: int)
    ensures 0 <= children <= MaxCount ==> 0 <= r <= MaxCount
    ensures d == Increase ==> r == children + 1 || (r == children && children >= MaxCount)
    ensures d == Decrease && children >= 1 ==> r >= 1
  {
    match d
    case Increase => if children >= MaxCount then children else ChangeQuantity(d, children)
    case Decrease => if children <= 0 then children else ChangeQuantity(d, children)
  }

  /** As written, once a child is added the count never returns to zero. */
  lemma {:induction false} ChildrenAsWrittenNeverReachZero(ds: seq<Direction>, children: int)
    requires children >= 1
    ensures PressAllChildrenAsWritten(ds, children) >= 1
  {
    if |ds| > 0 {
      ChildrenAsWrittenNeverReachZero(ds[1..], PressChildrenAsWritten(ds[0], children));
    }
  }

  /** The counterexample: plus then minus from zero children leaves one. */
  lemma ChildrenAsWrittenMinusDoesNotUndoPlus()
    ensures PressChildrenAsWritten(Decrease, PressChildrenAsWritten(Increase, 0)) == 1
  {
  }

  /** A series of children-button presses, as written. */
  function PressAllChildrenAsWritten(ds: seq<Direction>, children: int): int
  {
    if |ds| == 0 then children
    else PressAllChildrenAsWritten(ds[1..], PressChildrenAsWritten(ds[0], children))
  }

  /** The children stepper as its buttons intend it: between zero and ten. */
  function PressChildren(d: Direction, children: int): (r: int)
    ensures 0 <= children <= MaxCount ==> 0 <= r <= MaxCount
    ensures d == Increase ==> r == children + 1 || (r == children && children >= MaxCount)
    ensures d == Decrease ==> r == children - 1 || (r == children && children <= 0)
  {
    match d
    case Increase => if children >= MaxCount then children else children + 1
    case Decrease => if children <= 0 then children else children - 1
  }

  /** With the intended stepper, minus undoes plus from every count below
      ten, zero included. */
  lemma ChildrenMinusUndoesPlus(children: int)
    requires 0 <= children < MaxCount
    ensures PressChildren(Decrease, PressChildren(Increase, children)) == children
  {
  }

  /** With the intended stepper, minus then plus is the identity down to one
      child. */
  lemma ChildrenPlusUndoesMinus(children: int)
    requires 0 < children <= MaxCount
    ensures PressChildren(Increase, PressChildren(Decrease, children)) == children
  {
  }

  /** Minus undoes plus on the adults stepper, and the other way round. */
  lemma AdultsStepsAreInverse(adults: int)
    ensures 1 <= adults < MaxCount ==> PressAdults(Decrease, PressAdults(Increase, adults)) == adults
    ensures 1 < adults <= MaxCount ==> PressAdults(Increase, PressAdults(Decrease, adults)) == adults
  {
  }

  /** Counts valid before a press stay valid after any series of presses. */
  lemma {:induction false} PressesStayInRange(ds: seq<Direction>, adults: int, children: int)
    requires 1 <= adults <= MaxCount && 0 <= children <= MaxCount
    ensures 1 <= PressAllAdults(ds, adults) <= MaxCount
    ensures 0 <= PressAllChildren(ds, children) <= MaxCount
  {
    if |ds| > 0 {
      PressesStayInRange(ds[1..], PressAdults(ds[0], adults), PressChildren(ds[0], children));
    }
  }

  /** A series of adults-button presses. */
  function PressAllAdults(ds: seq<Direction>, adults: int): int
  {
    if |ds| == 0 then adults else PressAllAdults(ds[1..], PressAdults(ds[0], adults))
  }

  /** A series of children-button presses, with the intended stepper. */
  function PressAllChildren(ds: seq<Direction>, children: int): int
  {
    if |ds| == 0 then children else PressAllChildren(ds[1..], PressChildren(ds[0], children))
  }
}
