/** The home page: the hero carousel and the quick ticket widget, which
    edits the shared ticket session and leads to the checkout. */
module Home {
  import opened Common
  import opened TicketSession
  import opened Quantity

  /** The number of hero slides. */
  const SlideCount: int := 4

  /** The carousel's timer tick: the next slide, wrapping to the first. */
  function NextSlide(current: int): (r: int)
    requires 0 <= current < SlideCount
    ensures 0 <= r < SlideCount
    ensures current < SlideCount - 1 ==> r == current + 1
    ensures current == SlideCount - 1 ==> r == 0
  {
    (current + 1) % SlideCount
  }

  /** `n` timer ticks. */
  function Advance(current: int, n: nat): (r: int)
    requires 0 <= current < SlideCount
    ensures 0 <= r < SlideCount
  {
    if n == 0 then current else NextSlide(Advance(current, n - 1))
  }

  /** After `n` ticks the carousel is `n` slides further on, modulo four;
      in particular four ticks bring it back. */
  lemma {:induction false} AdvanceIsModular(current: int, n: nat)
    requires 0 <= current < SlideCount
    ensures Advance(current, n) == (current + n) % SlideCount
  {
    if n > 0 {
      AdvanceIsModular(current, n - 1);
    }
  }

  /** Every slide comes round once in four ticks. */
  lemma CarouselIsPeriodic(current: int)
    requires 0 <= current < SlideCount
    ensures Advance(current, 4) == current
    ensures forall n: nat :: n < 4 && n > 0 ==> Advance(current, n) != current
  {
    AdvanceIsModular(current, 4);
    forall n: nat | n < 4 && n > 0 ensures Advance(current, n) != current {
      AdvanceIsModular(current, n);
    }
  }

  /** What moves the carousel: the timer, or a click on one of the four
      indicator dots. */
  datatype CarouselInput = Tick | Dot(index: int)

  /** The slide after one input; the dots exist only for the four slides. */
  function Slide(current: int, input: CarouselInput): (r: int)
    requires 0 <= current < SlideCount
    requires input.Dot? ==> 0 <= input.index < SlideCount
    ensures 0 <= r < SlideCount
    ensures input.Dot? ==> r == input.index
    ensures input == Tick ==> r == Advance(current, 1)
  {
    match input
    case Tick => NextSlide(current)
    case Dot(i) => i
  }

  /** A click does not reset the timer: after picking a dot the carousel
      carries on from that slide, `n` ticks later being `n` slides on. */
  lemma DotThenTicks(current: int, index: int, n: nat)
    requires 0 <= current < SlideCount && 0 <= index < SlideCount
    ensures Advance(Slide(current, Dot(index)), n) == (index + n) % SlideCount
  {
    AdvanceIsModular(index, n);
  }

  /** The widget's estimate, in cents: 29.90 per adult and 19.90 per child.
      Unlike the checkout, children are charged here. */
  function EstimateCents(adults: int, children: int): (r: int)
    ensures adults >= 0 && children >= 0 ==> r >= 0
  {
    adults * 2990 + children * 1990
  }

  /** One more child adds the child price to the estimate, one more adult the
      adult price. */
  lemma EstimateSteps(adults: int, children: int)
    ensures EstimateCents(adults, children + 1) == EstimateCents(adults, children) + 1990
    ensures EstimateCents(adults + 1, children) == EstimateCents(adults, children) + 2990
  {
  }

  /** The widget's controls. */
  datatype Control =
    | PickDate(date: Option<VisitDate>)
    | AdultsButton(adultsStep: Direction)
    | ChildrenButton(childrenStep: Direction)
    | Buy

  /** What a control does: the new session, and whether the page moves on
      to the checkout. Buy is disabled, and does nothing, without a date. */
  function Press(s: Session, c: Control): (r: (Session, bool))
    ensures r.1 <==> c == Buy && s.selectedDate.Some?
    ensures c == Buy ==> r.0 == s
    ensures ChangedFields(s, r.0) <= {DateField, AdultsField, ChildrenField}
    ensures 1 <= s.adults <= MaxCount && 0 <= s.children <= MaxCount ==>
      1 <= r.0.adults <= MaxCount && 0 <= r.0.children <= MaxCount
  {
    match c
    case PickDate(d) => (Apply(s, SetSelectedDate(d)), false)
    case AdultsButton(d) => (Apply(s, SetAdults(PressAdults(d, s.adults))), false)
    case ChildrenButton(d) => (Apply(s, SetChildren(PressChildren(d, s.children))), false)
    case Buy => (s, s.selectedDate.Some?)
  }

  /** The checkout is reached only once a date has been picked, and picking
      one and pressing buy always reaches it. */
  lemma BuyNeedsDate(s: Session, d: VisitDate)
    ensures !Press(Apply(s, SetSelectedDate(None)), Buy).1
    ensures Press(Press(s, PickDate(Some(d))).0, Buy).1
  {
  }
}
