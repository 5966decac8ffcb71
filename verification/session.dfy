/** The application-wide ticket session (the ticket context provider): the
    visit date, the head counts, the chosen ticket tier and the confirmed
    ticket holders, shared by the home page, the ticket checkout and the
    ticket-holder form. */
module TicketSession {
  import opened Common

  /** A calendar day. The model never inspects it: only whether one is set. */
  datatype VisitDate = VisitDate(day: int)

  datatype HolderType = Adult | Child

  /** One named attendee of the order. */
  datatype Holder = Holder(
    ticketType: HolderType,
    firstName: string,
    lastName: string,
    dateOfBirth: string)

  /** The session record. `children` is what the provider exposes under that
      name (its own state variable is `childrenCount`). */
  datatype Session = Session(
    selectedDate: Option<VisitDate>,
    adults: int,
    children: int,
    selectedTicketType: string,
    ticketHolders: seq<Holder>)

  /** The tier selected before the visitor picks one. */
  const DefaultTicketType: string := "standard"

  /** The state the provider starts in. */
  function Initial(): (r: Session)
    ensures r.selectedDate.None?
    ensures r.adults == 1 && r.children == 0
    ensures r.selectedTicketType == DefaultTicketType
    ensures r.ticketHolders == []
  {
    Session(None, 1, 0, DefaultTicketType, [])
  }

  /** The five fields of the session, one per setter. */
  datatype SessionField = DateField | AdultsField | ChildrenField | TicketTypeField | HoldersField

  /** The fields on which two sessions differ. */
  function ChangedFields(a: Session, b: Session): set<SessionField>
  {
    (if a.selectedDate != b.selectedDate then {DateField} else {})
    + (if a.adults != b.adults then {AdultsField} else {})
    + (if a.children != b.children then {ChildrenField} else {})
    + (if a.selectedTicketType != b.selectedTicketType then {TicketTypeField} else {})
    + (if a.ticketHolders != b.ticketHolders then {HoldersField} else {})
  }

  /** A call of one of the provider's setters. */
  datatype Update =
    | SetSelectedDate(date: Option<VisitDate>)
    | SetAdults(count: int)
    | SetChildren(count: int)
    | SetSelectedTicketType(tier: string)
    | SetTicketHolders(holders: seq<Holder>)

  /** The field a setter writes. */
  function FieldOf(u: Update): SessionField
  {
    match u
    case SetSelectedDate(_) => DateField
    case SetAdults(_) => AdultsField
    case SetChildren(_) => ChildrenField
    case SetSelectedTicketType(_) => TicketTypeField
    case SetTicketHolders(_) => HoldersField
  }

  /** The session shows the value a setter wrote. */
  predicate Shows(s: Session, u: Update)
  {
    match u
    case SetSelectedDate(d) => s.selectedDate == d
    case SetAdults(n) => s.adults == n
    case SetChildren(n) => s.children == n
    case SetSelectedTicketType(t) => s.selectedTicketType == t
    case SetTicketHolders(h) => s.ticketHolders == h
  }

  /** Calls a setter: its field takes the new value and nothing else changes. */
  function Apply(s: Session, u: Update): (r: Session)
    ensures Shows(r, u)
    ensures ChangedFields(s, r) <= {FieldOf(u)}
  {
    match u
    case SetSelectedDate(d) => s.(selectedDate := d)
    case SetAdults(n) => s.(adults := n)
    case SetChildren(n) => s.(children := n)
    case SetSelectedTicketType(t) => s.(selectedTicketType := t)
    case SetTicketHolders(h) => s.(ticketHolders := h)
  }

  /** Two sessions agreeing on every field are the same session. */
  lemma NoChangedFields(a: Session, b: Session)
    requires ChangedFields(a, b) == {}
    ensures a == b
  {
    assert DateField !in ChangedFields(a, b);
    assert AdultsField !in ChangedFields(a, b);
    assert ChildrenField !in ChangedFields(a, b);
    assert TicketTypeField !in ChangedFields(a, b);
    assert HoldersField !in ChangedFields(a, b);
  }

  /** Two calls of the same setter: the later one wins. */
  lemma LastWriteWins(s: Session, u: Update, v: Update)
    requires FieldOf(u) == FieldOf(v)
    ensures Apply(Apply(s, u), v) == Apply(s, v)
  {
  }

  /** Setters of different fields commute. */
  lemma SettersCommute(s: Session, u: Update, v: Update)
    requires FieldOf(u) != FieldOf(v)
    ensures Apply(Apply(s, u), v) == Apply(Apply(s, v), u)
  {
  }

  /** Writing back the value a field already holds changes nothing. */
  lemma ApplyShownIsIdentity(s: Session, u: Update)
    requires Shows(s, u)
    ensures Apply(s, u) == s
  {
  }
}
