/** The lens page: the user picks an insertion date and a wear length and
    presses Both, Left or Right; one insertion per side is stored, each due
    for replacement after the chosen length. */
module LensesPage {
  import opened Seqs
  import opened Sorting
  import opened Calendar
  import opened Lenses
  import opened Users

  /** The wear lengths the page offers. */
  const OneWeek := "1 week"
  const TwoWeeks := "2 weeks"
  const ThirtyDays := "30 days"

  /** Days a wear length adds; a label the page does not offer adds none. */
  function WearDays(length: string): nat
  {
    if length == OneWeek then 7
    else if length == TwoWeeks then 14
    else if length == ThirtyDays then 30
    else 0
  }

  /** The replacement date: the insertion date moved on by the chosen length. */
  function ReplacementDate(inserted: Date, length: string): (r: Date)
    requires Valid(inserted) && DayNumber(inserted) + WearDays(length) <= DayNumber(MaxValue)
  {
    if length == OneWeek then AddDays(inserted, 7)
    else if length == TwoWeeks then AddDays(inserted, 14)
    else if length == ThirtyDays then AddDays(inserted, 30)
    else inserted
  }

  /** The replacement falls exactly the chosen number of days after the
      insertion, counted on the calendar (so across month ends, year ends and
      29 February); any other label leaves it on the insertion day. */
  lemma ReplacementDateSpec(inserted: Date, length: string)
    requires Valid(inserted) && DayNumber(inserted) + WearDays(length) <= DayNumber(MaxValue)
    ensures Valid(ReplacementDate(inserted, length))
    ensures DayNumber(ReplacementDate(inserted, length)) == DayNumber(inserted) + WearDays(length)
    ensures AtMost(inserted, ReplacementDate(inserted, length))
    ensures WearDays(length) == 0 <==> ReplacementDate(inserted, length) == inserted
  {
    var r := ReplacementDate(inserted, length);
    if WearDays(length) == 0 {
      assert r == inserted;
    } else {
      assert Before(inserted, r);
    }
  }

  /** The sides each add button asks for. */
  datatype AddButton = AddBoth | AddLeft | AddRight

  function ButtonSides(b: AddButton): (r: seq<Side>)
  {
    match b
    case AddBoth => [Left, Right]
    case AddLeft => [Left]
    case AddRight => [Right]
  }

  /** The insertions a press creates, one per requested side, in that order. */
  function NewContacts(inserted: Date, length: string, sides: seq<Side>): (r: seq<Contact>)
    requires Valid(inserted) && DayNumber(inserted) + WearDays(length) <= DayNumber(MaxValue)
  {
    var replacement := ReplacementDate(inserted, length);
    seq(|sides|, i requires 0 <= i < |sides| => Contact(inserted, sides[i], replacement))
  }

  /** One insertion per side, all sharing the insertion and replacement dates;
      Both gives Left, then Right. */
  lemma NewContactsSpec(inserted: Date, length: string, b: AddButton)
    requires Valid(inserted) && DayNumber(inserted) + WearDays(length) <= DayNumber(MaxValue)
    ensures var r := NewContacts(inserted, length, ButtonSides(b));
      |r| == |ButtonSides(b)| &&
      (forall i :: 0 <= i < |r| ==>
        r[i].side == ButtonSides(b)[i] && r[i].date == inserted &&
        r[i].replacementDate == ReplacementDate(inserted, length))
    ensures b == AddBoth ==>
      NewContacts(inserted, length, ButtonSides(b)) ==
        [Contact(inserted, Left, ReplacementDate(inserted, length)), Contact(inserted, Right, ReplacementDate(inserted, length))]
  {
    var d := ReplacementDate(inserted, length);
    var r := NewContacts(inserted, length, ButtonSides(b));
    if b == AddBoth {
      assert r[0] == Contact(inserted, Left, d) && r[1] == Contact(inserted, Right, d);
    }
  }

  /** The insertions whose database call succeeded, in order. */
  function Accepted(cs: seq<Contact>, oks: seq<bool>): (r: seq<Contact>)
    requires |oks| == |cs|
    ensures multiset(r) <= multiset(cs)
  {
    if cs == [] then []
    else
      var rest := Accepted(cs[..|cs| - 1], oks[..|oks| - 1]);
      assert cs == cs[..|cs| - 1] + [cs[|cs| - 1]];
      if oks[|oks| - 1] then rest + [cs[|cs| - 1]] else rest
  }

  /** When every call succeeds, every insertion is accepted. */
  lemma {:induction false} AllAccepted(cs: seq<Contact>, oks: seq<bool>)
    requires |oks| == |cs| && forall i :: 0 <= i < |oks| ==> oks[i]
    ensures Accepted(cs, oks) == cs
  {
    if cs != [] {
      AllAccepted(cs[..|cs| - 1], oks[..|oks| - 1]);
      assert cs == cs[..|cs| - 1] + [cs[|cs| - 1]];
    }
  }

  /** The lens list after AddContactLens was called with each of cs in turn. */
  function AddedInTurn(ls: seq<Contact>, cs: seq<Contact>): seq<Contact>
  {
    if cs == [] then ls else SortLenses(AddedInTurn(ls, cs[..|cs| - 1]) + [cs[|cs| - 1]])
  }

  /** Adding in turn gains exactly the added insertions, and once anything
      was added the list is in the lens order. */
  lemma {:induction false} AddedInTurnSpec(ls: seq<Contact>, cs: seq<Contact>)
    ensures multiset(AddedInTurn(ls, cs)) == multiset(ls) + multiset(cs)
    ensures cs != [] ==> NewestFirst(AddedInTurn(ls, cs))
  {
    if cs != [] {
      var front := cs[..|cs| - 1];
      AddedInTurnSpec(ls, front);
      SortLensesSpec(AddedInTurn(ls, front) + [cs[|cs| - 1]], cs[0]);
      assert cs == front + [cs[|cs| - 1]];
    }
  }

  /** AppState.AddContact: stores the insertion in the database and, when
      that succeeds (dbOk), adds it to the current user's lenses. */
  method AddContact(user: User, c: Contact, dbOk: bool) returns (success: bool)
    modifies user
    ensures success == dbOk
    ensures dbOk ==> user.lenses == SortLenses(old(user.lenses) + [c])
    ensures !dbOk ==> user.lenses == old(user.lenses)
    ensures user.vehicles == old(user.vehicles) && user.userID == old(user.userID)
    ensures user.username == old(user.username) && user.password == old(user.password)
  {
    success := false;
    if dbOk {
      user.AddContactLens(c);
      success := true;
    }
  }

  /** A press of an add button: builds one insertion per side and offers each
      to AddContact; oks[i] is the database's answer for the i-th side. */
  method NewContact(user: User, inserted: Date, length: string, sides: seq<Side>, oks: seq<bool>)
    requires Valid(inserted) && DayNumber(inserted) + WearDays(length) <= DayNumber(MaxValue)
    requires |oks| == |sides|
    modifies user
    ensures user.lenses == AddedInTurn(old(user.lenses), Accepted(NewContacts(inserted, length, sides), oks))
    ensures user.vehicles == old(user.vehicles) && user.userID == old(user.userID)
    ensures user.username == old(user.username) && user.password == old(user.password)
  {
    var replacement := ReplacementDate(inserted, length);
    ghost var cs := NewContacts(inserted, length, sides);
    ghost var start := user.lenses;
    ghost var accepted: seq<Contact> := [];
    for i := 0 to |sides|
      invariant accepted == Accepted(cs[..i], oks[..i])
      invariant user.lenses == AddedInTurn(start, accepted)
      invariant user.vehicles == old(user.vehicles) && user.userID == old(user.userID)
      invariant user.username == old(user.username) && user.password == old(user.password)
    {
      var c := Contact(inserted, sides[i], replacement);
      assert c == cs[i];
      AcceptedSnoc(cs, oks, i);
      AddedInTurnSnoc(start, accepted, c);
      var added := AddContact(user, c, oks[i]);
      if oks[i] {
        accepted := accepted + [c];
      }
    }
    assert cs[..|sides|] == cs && oks[..|sides|] == oks;
  }

  /** Offering one more insertion accepts it exactly when its call succeeded. */
  lemma AcceptedSnoc(cs: seq<Contact>, oks: seq<bool>, i: nat)
    requires |oks| == |cs| && i < |cs|
    ensures Accepted(cs[..i + 1], oks[..i + 1]) == Accepted(cs[..i], oks[..i]) + (if oks[i] then [cs[i]] else [])
  {
    assert cs[..i + 1][..i] == cs[..i] && oks[..i + 1][..i] == oks[..i];
  }

  lemma AddedInTurnSnoc(ls: seq<Contact>, cs: seq<Contact>, c: Contact)
    ensures AddedInTurn(ls, cs + [c]) == SortLenses(AddedInTurn(ls, cs) + [c])
  {
    assert (cs + [c])[..|cs|] == cs;
  }

  /** A press whose database calls all succeed adds one insertion per side
      of the button to the lens list, which ends in the lens order. */
  lemma PressAddsEverySide(ls: seq<Contact>, inserted: Date, length: string, b: AddButton, oks: seq<bool>)
    requires Valid(inserted) && DayNumber(inserted) + WearDays(length) <= DayNumber(MaxValue)
    requires |oks| == |ButtonSides(b)| && forall i :: 0 <= i < |oks| ==> oks[i]
    ensures var cs := NewContacts(inserted, length, ButtonSides(b));
      multiset(AddedInTurn(ls, Accepted(cs, oks))) == multiset(ls) + multiset(cs) &&
      NewestFirst(AddedInTurn(ls, Accepted(cs, oks)))
  {
    var cs := NewContacts(inserted, length, ButtonSides(b));
    AllAccepted(cs, oks);
    AddedInTurnSpec(ls, cs);
  }

  /** The add buttons are enabled while a date is entered. */
  predicate AddButtonsEnabled(dateText: string)
  {
    |dateText| > 0
  }
}
