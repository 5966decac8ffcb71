/** The ticket-holder form: one entry per ticket, adults first, each needing a
    first name, a last name and a date of birth before the form can be
    submitted to the session. */
module HolderForm {
  import opened Common
  import opened Text
  import opened TicketSession

  /** A holder of the given kind with every text field blank. */
  function EmptyHolder(t: HolderType): Holder
  {
    Holder(t, "", "", "")
  }

  /** `n` copies of `h`, pushed one by one as the form's counting loops do;
      a non-positive `n` runs the loop zero times. */
  function Repeat(n: int, h: Holder): (r: seq<Holder>)
    ensures |r| == if n <= 0 then 0 else n
    ensures forall i :: 0 <= i < |r| ==> r[i] == h
    decreases n
  {
    if n <= 0 then [] else Repeat(n - 1, h) + [h]
  }

  /** The entries the form builds when it mounts or the head counts change:
      an empty adult entry per adult, then an empty child entry per child. */
  function InitialHolders(adults: int, children: int): (r: seq<Holder>)
    ensures |r| == (if adults <= 0 then 0 else adults) + (if children <= 0 then 0 else children)
    ensures forall i :: 0 <= i < |r| ==>
      r[i] == EmptyHolder(if i < adults then Adult else Child)
  {
    Repeat(adults, EmptyHolder(Adult)) + Repeat(children, EmptyHolder(Child))
  }

  /** The three text fields of an entry. */
  datatype HolderField = FirstName | LastName | DateOfBirth

  function FieldValue(h: Holder, f: HolderField): string
  {
    match f
    case FirstName => h.firstName
    case LastName => h.lastName
    case DateOfBirth => h.dateOfBirth
  }

  /** Replaces one text field of an entry. */
  function WithField(h: Holder, f: HolderField, value: string): (r: Holder)
    ensures FieldValue(r, f) == value
    ensures forall g :: g != f ==> FieldValue(r, g) == FieldValue(h, g)
    ensures r.ticketType == h.ticketType
  {
    match f
    case FirstName => h.(firstName := value)
    case LastName => h.(lastName := value)
    case DateOfBirth => h.(dateOfBirth := value)
  }

  /** Typing into field `f` of entry `index`: that field takes the value and
      every other field of every entry is untouched. */
  function HandleInputChange(holders: seq<Holder>, index: int, f: HolderField, value: string): (r: seq<Holder>)
    requires 0 <= index < |holders|
    ensures |r| == |holders|
    ensures FieldValue(r[index], f) == value
    ensures forall g :: g != f ==> FieldValue(r[index], g) == FieldValue(holders[index], g)
    ensures r[index].ticketType == holders[index].ticketType
    ensures forall j :: 0 <= j < |r| && j != index ==> r[j] == holders[j]
  {
    holders[index := WithField(holders[index], f, value)]
  }

  /** Every text field of the entry has a non-blank value after trimming. */
  predicate HolderComplete(h: Holder)
  {
    IsFilled(h.firstName) && IsFilled(h.lastName) && IsFilled(h.dateOfBirth)
  }

  /** The form may be submitted: one entry per ticket, every entry complete. */
  predicate IsFormValid(holders: seq<Holder>, adults: int, children: int)
    ensures IsFormValid(holders, adults, children) ==>
      forall i :: 0 <= i < |holders| ==>
        holders[i].firstName != "" && holders[i].lastName != "" && holders[i].dateOfBirth != ""
  {
    |holders| == adults + children
    && forall i :: 0 <= i < |holders| ==> HolderComplete(holders[i])
  }

  /** Validity in terms of characters: the count matches and every field of
      every entry holds some character that is not JavaScript white space. */
  lemma IsFormValidIff(holders: seq<Holder>, adults: int, children: int)
    ensures IsFormValid(holders, adults, children) <==>
      |holders| == adults + children
      && forall i, f :: 0 <= i < |holders| ==> HasVisibleChar(FieldValue(holders[i], f))
  {
    forall i, f | 0 <= i < |holders|
      ensures IsFilled(FieldValue(holders[i], f)) <==> HasVisibleChar(FieldValue(holders[i], f))
    {
      IsFilledIff(FieldValue(holders[i], f));
    }
    if IsFormValid(holders, adults, children) {
      forall i, f | 0 <= i < |holders|
        ensures HasVisibleChar(FieldValue(holders[i], f))
      {
        assert HolderComplete(holders[i]);
      }
    }
    if |holders| == adults + children
      && forall i, f :: 0 <= i < |holders| ==> HasVisibleChar(FieldValue(holders[i], f))
    {
      forall i | 0 <= i < |holders|
        ensures HolderComplete(holders[i])
      {
        assert HasVisibleChar(FieldValue(holders[i], FirstName));
        assert HasVisibleChar(FieldValue(holders[i], LastName));
        assert HasVisibleChar(FieldValue(holders[i], DateOfBirth));
      }
    }
  }

  /** A freshly built form for at least one ticket cannot be submitted. */
  lemma FreshFormInvalid(adults: int, children: int)
    requires adults + children > 0
    ensures !IsFormValid(InitialHolders(adults, children), adults, children)
  {
    var hs := InitialHolders(adults, children);
    if |hs| == adults + children {
      assert hs[0].firstName == "";
      assert Trim("") == "";
    }
  }

  /** For non-negative counts, the fresh form has exactly one entry per
      ticket, so filling it in is the only thing between it and validity. */
  lemma FreshFormHasOneEntryPerTicket(adults: int, children: int)
    requires adults >= 0 && children >= 0
    ensures |InitialHolders(adults, children)| == adults + children
    ensures forall i :: 0 <= i < adults ==> InitialHolders(adults, children)[i].ticketType == Adult
    ensures forall i :: adults <= i < adults + children ==> InitialHolders(adults, children)[i].ticketType == Child
  {
  }

  /** With two adults and one child, complete entries are accepted exactly
      when there are three of them. */
  lemma TwoAdultsOneChild(holders: seq<Holder>)
    requires forall i :: 0 <= i < |holders| ==> HolderComplete(holders[i])
    ensures IsFormValid(holders, 2, 1) <==> |holders| == 3
  {
  }

  /** One entry with a blank field blocks the whole form. */
  lemma OneBlankFieldBlocks(holders: seq<Holder>, adults: int, children: int, i: int, f: HolderField)
    requires 0 <= i < |holders|
    requires forall k :: 0 <= k < |FieldValue(holders[i], f)| ==> IsJsWhitespace(FieldValue(holders[i], f)[k])
    ensures !IsFormValid(holders, adults, children)
  {
    IsFilledIff(FieldValue(holders[i], f));
  }

  /** Pressing the form's submit button: a valid form is stored in the
      session and the wizard is told to move on; otherwise nothing happens. */
  function Submit(holders: seq<Holder>, s: Session): (r: (Session, bool))
    ensures r.1 <==> IsFormValid(holders, s.adults, s.children)
    ensures r.1 ==> r.0.ticketHolders == holders && ChangedFields(s, r.0) <= {HoldersField}
    ensures !r.1 ==> r.0 == s
  {
    if IsFormValid(holders, s.adults, s.children) then
      (Apply(s, SetTicketHolders(holders)), true)
    else (s, false)
  }
}
