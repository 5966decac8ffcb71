/** The four-step ticket checkout: tickets and date, extras, ticket holders,
    payment, then the completed order. Prices are in cents. */
module Checkout {
  import opened Common
  import opened Park
  import opened TicketSession
  import opened Quantity
  import opened HolderForm

  // ---------------------------------------------------------------------
  // Prices
  // ---------------------------------------------------------------------

  /** No two ticket tiers share an id. */
  ghost predicate UniqueTicketIds(tickets: seq<Ticket>)
  {
    forall i, j :: 0 <= i < j < |tickets| ==> tickets[i].id != tickets[j].id
  }

  /** The tier whose id is the selected one, if the backend lists it. */
  function SelectedTicket(tickets: seq<Ticket>, tier: string): Option<Ticket>
  {
    Find(tickets, (t: Ticket) => t.id == tier)
  }

  /** The ticket line of the order: the tier's price times the adults; zero
      when the selected tier is not listed. Children are not charged. */
  function TicketTotal(tickets: seq<Ticket>, tier: string, adults: int): (r: int)
    ensures (exists t :: t in tickets && t.id == tier && r == t.price * adults)
      || ((forall t :: t in tickets ==> t.id != tier) && r == 0)
  {
    match SelectedTicket(tickets, tier)
    case Some(t) => t.price * adults
    case None => 0
  }

  /** With unique tier ids, the ticket line of a listed tier is its own
      price times the adults. */
  lemma TicketTotalOfListedTier(tickets: seq<Ticket>, k: int, adults: int)
    requires 0 <= k < |tickets| && UniqueTicketIds(tickets)
    ensures TicketTotal(tickets, tickets[k].id, adults) == tickets[k].price * adults
  {
    var r := SelectedTicket(tickets, tickets[k].id);
    assert r.Some?;
    var j :| 0 <= j < |tickets| && tickets[j] == r.value;
    assert tickets[j].id == tickets[k].id;
    assert j == k;
  }

  /** A tier the backend does not list costs nothing. */
  lemma TicketTotalOfUnknownTier(tickets: seq<Ticket>, tier: string, adults: int)
    requires forall t :: t in tickets ==> t.id != tier
    ensures TicketTotal(tickets, tier, adults) == 0
  {
    var p := (t: Ticket) => t.id == tier;
    assert forall j :: 0 <= j < |tickets| ==> !p(tickets[j]) by {
      forall j | 0 <= j < |tickets| ensures !p(tickets[j]) {
        assert tickets[j] in tickets;
      }
    }
  }

  /** The price of the extra with the given id; zero when it is not listed. */
  function ExtraPrice(extras: seq<Extra>, id: string): (r: int)
    ensures (exists e :: e in extras && e.id == id && r == e.price)
      || ((forall e :: e in extras ==> e.id != id) && r == 0)
  {
    match Find(extras, (e: Extra) => e.id == id)
    case Some(e) => e.price
    case None => 0
  }

  /** The sum of the prices of the selected extras. */
  function ExtrasTotal(selected: seq<string>, extras: seq<Extra>): (r: int)
    ensures (forall e :: e in extras ==> e.price >= 0) ==> r >= 0
  {
    if |selected| == 0 then 0
    else ExtraPrice(extras, selected[0]) + ExtrasTotal(selected[1..], extras)
  }

  /** An id the backend does not list adds nothing to the extras total. */
  lemma UnlistedExtraIsFree(selected: seq<string>, extras: seq<Extra>, id: string)
    requires forall e :: e in extras ==> e.id != id
    ensures ExtraPrice(extras, id) == 0
    ensures ExtrasTotal(selected + [id], extras) == ExtrasTotal(selected, extras)
  {
    ExtrasTotalAppend(selected, [id], extras);
    assert [id][1..] == [];
  }

  /** The extras total of a concatenation is the sum of the two totals. */
  lemma {:induction false} ExtrasTotalAppend(a: seq<string>, b: seq<string>, extras: seq<Extra>)
    ensures ExtrasTotal(a + b, extras) == ExtrasTotal(a, extras) + ExtrasTotal(b, extras)
  {
    if |a| == 0 {
      assert a + b == b;
    } else {
      assert (a + b)[1..] == a[1..] + b;
      ExtrasTotalAppend(a[1..], b, extras);
    }
  }

  /** Toggling an extra adds its price when it was not selected and takes it
      off when it was (selections never hold an id twice). */
  lemma ExtraToggleTotal(selected: seq<string>, extras: seq<Extra>, id: string)
    requires Distinct(selected)
    ensures ExtrasTotal(Toggle(selected, id), extras) ==
      ExtrasTotal(selected, extras) + (if id in selected then -ExtraPrice(extras, id) else ExtraPrice(extras, id))
  {
    if id in selected {
      var i :| 0 <= i < |selected| && selected[i] == id;
      var pre, post := selected[..i], selected[i + 1..];
      assert selected == pre + [id] + post;
      assert id !in pre by {
        forall k | 0 <= k < |pre| ensures pre[k] != id {
          assert pre[k] == selected[k];
        }
      }
      assert id !in post by {
        forall k | 0 <= k < |post| ensures post[k] != id {
          assert post[k] == selected[i + 1 + k];
        }
      }
      ToggleRemovesOne(pre, id, post);
      ExtrasTotalAround(pre, id, post, extras);
    } else {
      ExtrasTotalAppend(selected, [id], extras);
    }
  }

  /** The extras total around one id is the total without it plus its price. */
  lemma ExtrasTotalAround(pre: seq<string>, id: string, post: seq<string>, extras: seq<Extra>)
    ensures ExtrasTotal(pre + [id] + post, extras) == ExtrasTotal(pre + post, extras) + ExtraPrice(extras, id)
  {
    ExtrasTotalAppend(pre, post, extras);
    ExtrasTotalAppend(pre + [id], post, extras);
    ExtrasTotalAppend(pre, [id], extras);
  }

  /** The order total: the ticket line plus the extras. */
  function TotalPrice(tickets: seq<Ticket>, extras: seq<Extra>, s: Session, selected: seq<string>): (r: int)
    ensures s.adults >= 0 && (forall t :: t in tickets ==> t.price >= 0) ==>
      (forall e :: e in extras ==> e.price >= 0) ==> r >= 0
  {
    TicketTotal(tickets, s.selectedTicketType, s.adults) + ExtrasTotal(selected, extras)
  }

  /** The number of children never changes the total. */
  lemma ChildrenAreNotCharged(tickets: seq<Ticket>, extras: seq<Extra>, s: Session, selected: seq<string>, n: int)
    ensures TotalPrice(tickets, extras, Apply(s, SetChildren(n)), selected) == TotalPrice(tickets, extras, s, selected)
  {
  }

  // ---------------------------------------------------------------------
  // Payment form
  // ---------------------------------------------------------------------

  datatype PaymentForm = PaymentForm(
    email: string,
    phone: string,
    cardNumber: string,
    expiry: string,
    cvc: string,
    nameOnCard: string)

  const EmptyPayment: PaymentForm := PaymentForm("", "", "", "", "", "")

  /** The six inputs of the payment step, by their element ids. */
  datatype PaymentField = Email | Phone | CardNumber | Expiry | Cvc | NameOnCard

  function PaymentValue(form: PaymentForm, f: PaymentField): string
  {
    match f
    case Email => form.email
    case Phone => form.phone
    case CardNumber => form.cardNumber
    case Expiry => form.expiry
    case Cvc => form.cvc
    case NameOnCard => form.nameOnCard
  }

  /** Typing into one payment input: that field takes the value, the other
      five keep theirs. */
  function UpdatePayment(form: PaymentForm, f: PaymentField, value: string): (r: PaymentForm)
    ensures PaymentValue(r, f) == value
    ensures forall g :: g != f ==> PaymentValue(r, g) == PaymentValue(form, g)
  {
    match f
    case Email => form.(email := value)
    case Phone => form.(phone := value)
    case CardNumber => form.(cardNumber := value)
    case Expiry => form.(expiry := value)
    case Cvc => form.(cvc := value)
    case NameOnCard => form.(nameOnCard := value)
  }

  /** The payment step's check: each field is a truthy (non-empty) string. */
  predicate IsPaymentValid(form: PaymentForm)
  {
    form.email != "" && form.phone != "" && form.cardNumber != ""
    && form.expiry != "" && form.cvc != "" && form.nameOnCard != ""
  }

  /** The payment form is valid exactly when no field is empty. */
  lemma IsPaymentValidIff(form: PaymentForm)
    ensures IsPaymentValid(form) <==> forall f :: PaymentValue(form, f) != ""
  {
    if forall f :: PaymentValue(form, f) != "" {
      assert PaymentValue(form, Email) != "" && PaymentValue(form, Phone) != "";
      assert PaymentValue(form, CardNumber) != "" && PaymentValue(form, Expiry) != "";
      assert PaymentValue(form, Cvc) != "" && PaymentValue(form, NameOnCard) != "";
    }
  }

  /** Unlike the holder form, the payment form does not trim: fields holding
      a single space pass. */
  lemma PaymentAcceptsBlanks()
    ensures IsPaymentValid(PaymentForm(" ", " ", " ", " ", " ", " "))
    ensures !IsPaymentValid(EmptyPayment)
  {
  }

  // ---------------------------------------------------------------------
  // The wizard
  // ---------------------------------------------------------------------

  /** The four steps, numbered 1 to 4 on the page. */
  datatype Step = ChooseTickets | ChooseExtras | HolderDetails | Payment

  datatype CheckoutState = CheckoutState(
    step: Step,
    orderComplete: bool,
    selectedExtras: seq<string>,
    payment: PaymentForm,
    holderForm: seq<Holder>,
    session: Session)

  /** The page as it opens, on whatever the session already holds. */
  function Open(s: Session): CheckoutState
  {
    CheckoutState(ChooseTickets, false, [], EmptyPayment, [], s)
  }

  /** What the visitor can do: each event is a control on some step. */
  datatype Event =
    | PickDate(date: Option<VisitDate>)
    | PickTier(tier: string)
    | AdultsButton(adultsStep: Direction)
    | ChildrenButton(childrenStep: Direction)
    | ContinueToExtras
    | ToggleExtra(extraId: string)
    | BackToTickets
    | ContinueToHolders
    | EditHolder(index: int, holderField: HolderField, holderValue: string)
    | SubmitHolders
    | BackToHolders
    | EditPayment(paymentField: PaymentField, paymentValue: string)
    | CompleteOrder

  /** The moves between steps the page's buttons make: step 1 to 2, step 2
      back to 1 or on to 3, step 3 to 4, and step 4 back to 3. */
  predicate WizardMove(from: Step, to: Step)
  {
    (from == ChooseTickets && to == ChooseExtras)
    || (from == ChooseExtras && (to == ChooseTickets || to == HolderDetails))
    || (from == HolderDetails && to == Payment)
    || (from == Payment && to == HolderDetails)
  }

  /** One event. A control that is not on screen or is disabled does nothing;
      once the order is complete only the confirmation is on screen. */
  function Next(st: CheckoutState, ev: Event): (r: CheckoutState)
    ensures st.orderComplete ==> r == st
    ensures r.step != st.step ==> WizardMove(st.step, r.step)
    ensures r.session.selectedDate != st.session.selectedDate
      || r.session.adults != st.session.adults
      || r.session.children != st.session.children
      || r.session.selectedTicketType != st.session.selectedTicketType
      ==> st.step == ChooseTickets
    ensures r.selectedExtras != st.selectedExtras ==> st.step == ChooseExtras
    ensures r.session.ticketHolders != st.session.ticketHolders ==>
      st.step == HolderDetails && r.step == Payment
    ensures r.orderComplete && !st.orderComplete ==> st.step == Payment && IsPaymentValid(st.payment)
  {
    if st.orderComplete then st
    else match ev
      case PickDate(d) =>
        if st.step == ChooseTickets then st.(session := Apply(st.session, SetSelectedDate(d))) else st
      case PickTier(t) =>
        if st.step == ChooseTickets then st.(session := Apply(st.session, SetSelectedTicketType(t))) else st
      case AdultsButton(d) =>
        if st.step == ChooseTickets
        then st.(session := Apply(st.session, SetAdults(PressAdults(d, st.session.adults))))
        else st
      case ChildrenButton(d) =>
        if st.step == ChooseTickets
        then st.(session := Apply(st.session, SetChildren(PressChildren(d, st.session.children))))
        else st
      case ContinueToExtras =>
        if st.step == ChooseTickets && st.session.selectedDate.Some? then st.(step := ChooseExtras) else st
      case ToggleExtra(id) =>
        if st.step == ChooseExtras then st.(selectedExtras := Toggle(st.selectedExtras, id)) else st
      case BackToTickets =>
        if st.step == ChooseExtras then st.(step := ChooseTickets) else st
      case ContinueToHolders =>
        if st.step == ChooseExtras
        then st.(step := HolderDetails, holderForm := InitialHolders(st.session.adults, st.session.children))
        else st
      case EditHolder(i, f, v) =>
        if st.step == HolderDetails && 0 <= i < |st.holderForm|
        then st.(holderForm := HandleInputChange(st.holderForm, i, f, v))
        else st
      case SubmitHolders =>
        if st.step == HolderDetails then
          var (s, ok) := Submit(st.holderForm, st.session);
          if ok then st.(step := Payment, session := s) else st
        else st
      case BackToHolders =>
        if st.step == Payment
        then st.(step := HolderDetails, holderForm := InitialHolders(st.session.adults, st.session.children))
        else st
      case EditPayment(f, v) =>
        if st.step == Payment then st.(payment := UpdatePayment(st.payment, f, v)) else st
      case CompleteOrder =>
        if st.step == Payment && IsPaymentValid(st.payment) then st.(orderComplete := true) else st
  }

  /** A series of events. */
  function Run(st: CheckoutState, evs: seq<Event>): CheckoutState
    decreases |evs|
  {
    if |evs| == 0 then st else Run(Next(st, evs[0]), evs[1..])
  }

  /** Head counts the steppers can produce. */
  predicate CountsInRange(s: Session)
  {
    1 <= s.adults <= MaxCount && 0 <= s.children <= MaxCount
  }

  /** What the wizard guarantees at every step: past step 1 a date is chosen;
      on the payment step the session holds a valid holder list for the
      current head counts; a completed order has a valid payment form. */
  ghost predicate Inv(st: CheckoutState)
  {
    CountsInRange(st.session)
    && (st.step != ChooseTickets ==> st.session.selectedDate.Some?)
    && (st.step == Payment ==>
          IsFormValid(st.session.ticketHolders, st.session.adults, st.session.children))
    && (st.orderComplete ==> st.step == Payment && IsPaymentValid(st.payment))
  }

  /** The page opens in a good state on any session the steppers produced. */
  lemma OpenSatisfiesInv(s: Session)
    requires CountsInRange(s)
    ensures Inv(Open(s))
  {
  }

  /** The provider's initial session is such a session. */
  lemma InitialCountsInRange()
    ensures CountsInRange(Initial())
  {
  }

  /** Every event keeps the wizard's guarantees. */
  lemma NextPreservesInv(st: CheckoutState, ev: Event)
    requires Inv(st)
    ensures Inv(Next(st, ev))
  {
    if !st.orderComplete {
      match ev
      case AdultsButton(d) =>
        assert 1 <= PressAdults(d, st.session.adults) <= MaxCount;
      case ChildrenButton(d) =>
        assert 0 <= PressChildren(d, st.session.children) <= MaxCount;
      case _ =>
    }
  }

  /** Every series of events keeps the wizard's guarantees. */
  lemma {:induction false} RunPreservesInv(st: CheckoutState, evs: seq<Event>)
    requires Inv(st)
    ensures Inv(Run(st, evs))
    decreases |evs|
  {
    if |evs| > 0 {
      NextPreservesInv(st, evs[0]);
      RunPreservesInv(Next(st, evs[0]), evs[1..]);
    }
  }

  /** Whatever the visitor does, a completed order has a date, exactly one
      complete holder per ticket, and a filled-in payment form. */
  lemma CompletedOrderIsConsistent(s: Session, evs: seq<Event>)
    requires CountsInRange(s)
    ensures var r := Run(Open(s), evs);
      r.orderComplete ==>
        r.session.selectedDate.Some?
        && |r.session.ticketHolders| == r.session.adults + r.session.children
        && (forall i :: 0 <= i < |r.session.ticketHolders| ==> HolderComplete(r.session.ticketHolders[i]))
        && IsPaymentValid(r.payment)
  {
    RunPreservesInv(Open(s), evs);
  }

  /** Step 1's continue button moves on exactly when a date is chosen. */
  lemma ContinueNeedsDate(st: CheckoutState)
    requires st.step == ChooseTickets && !st.orderComplete
    ensures Next(st, ContinueToExtras).step == ChooseExtras <==> st.session.selectedDate.Some?
  {
  }

  /** Step 2's buttons always work: continue opens the holder step on a
      blank form with one entry per ticket, back returns to step 1. */
  lemma ExtrasStepMoves(st: CheckoutState)
    requires st.step == ChooseExtras && !st.orderComplete
    ensures Next(st, ContinueToHolders)
      == st.(step := HolderDetails, holderForm := InitialHolders(st.session.adults, st.session.children))
    ensures Next(st, BackToTickets) == st.(step := ChooseTickets)
  {
  }

  /** The holder step moves on exactly when its form is valid, storing the
      entries in the session. */
  lemma SubmitAdvancesIff(st: CheckoutState)
    requires st.step == HolderDetails && !st.orderComplete
    ensures Next(st, SubmitHolders).step == Payment <==>
      IsFormValid(st.holderForm, st.session.adults, st.session.children)
    ensures Next(st, SubmitHolders).step == Payment ==>
      Next(st, SubmitHolders).session.ticketHolders == st.holderForm
  {
  }

  /** The order completes exactly when every payment field is non-empty. */
  lemma CompleteOrderIff(st: CheckoutState)
    requires st.step == Payment && !st.orderComplete
    ensures Next(st, CompleteOrder).orderComplete <==> forall f :: PaymentValue(st.payment, f) != ""
  {
    IsPaymentValidIff(st.payment);
  }

  /** Going back from payment remounts the holder form, which starts over
      blank: the entries must be typed again before moving on. */
  lemma BackToHoldersClearsForm(st: CheckoutState)
    requires CountsInRange(st.session) && st.step == Payment && !st.orderComplete
    ensures var r := Next(st, BackToHolders);
      r.step == HolderDetails
      && !IsFormValid(r.holderForm, r.session.adults, r.session.children)
  {
    var blank := InitialHolders(st.session.adults, st.session.children);
    assert Next(st, BackToHolders) == st.(step := HolderDetails, holderForm := blank);
    FreshFormInvalid(st.session.adults, st.session.children);
  }

  /** A child can be added and removed again on step 1, leaving the session
      as it was. */
  lemma ChildAddedAndRemoved(st: CheckoutState)
    requires st.step == ChooseTickets && !st.orderComplete
    requires 0 <= st.session.children < MaxCount
    ensures Run(st, [ChildrenButton(Increase), ChildrenButton(Decrease)]) == st
  {
    var evs := [ChildrenButton(Increase), ChildrenButton(Decrease)];
    var once := Next(st, evs[0]);
    var twice := Next(once, evs[1]);
    assert evs[1..][1..] == [];
    assert Run(st, evs) == twice;
    ChildrenMinusUndoesPlus(st.session.children);
    assert once.session == st.session.(children := st.session.children + 1);
    assert twice.session == st.session;
  }
}
