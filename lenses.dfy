/** A contact-lens insertion: the day a lens went in, the eye, and the day it
    is due to be replaced. */
module Lenses {
  import opened Seqs
  import opened Text
  import opened Calendar

  datatype Side = Left | Right

  /** Enum.ToString of a side. */
  function SideName(s: Side): string
  {
    match s
    case Left => "Left"
    case Right => "Right"
  }

  /** The two names differ, and "Left" sorts before "Right". */
  lemma SideNames(s: Side, t: Side)
    ensures SideName(s) == SideName(t) <==> s == t
    ensures StrLe(SideName(s), SideName(t)) <==> s == t || s == Left
  {
    assert SideName(Left)[0] == 'L' && SideName(Right)[0] == 'R';
  }

  datatype Contact = Contact(date: Date, side: Side, replacementDate: Date)

  /** The insertion date as "yyyy/MM/dd". */
  function DateToString(c: Contact): string
    requires Valid(c.date)
  {
    FormatDate(c.date)
  }

  /** The replacement date as "yyyy/MM/dd". */
  function ReplacementDateToString(c: Contact): string
    requires Valid(c.replacementDate)
  {
    FormatDate(c.replacementDate)
  }

  function SideToString(c: Contact): string
  {
    SideName(c.side)
  }

  /** The date texts identify the dates and sort as the dates do. */
  lemma DateTextsReadBack(a: Contact, b: Contact)
    requires Valid(a.date) && Valid(b.date) && Valid(a.replacementDate) && Valid(b.replacementDate)
    ensures DateToString(a) == DateToString(b) <==> a.date == b.date
    ensures ReplacementDateToString(a) == ReplacementDateToString(b) <==> a.replacementDate == b.replacementDate
    ensures StrLe(DateToString(a), DateToString(b)) <==> AtMost(a.date, b.date)
    ensures StrLe(ReplacementDateToString(a), ReplacementDateToString(b)) <==> AtMost(a.replacementDate, b.replacementDate)
  {
    if DateToString(a) == DateToString(b) {
      FormatDateInjective(a.date, b.date);
    }
    if ReplacementDateToString(a) == ReplacementDateToString(b) {
      FormatDateInjective(a.replacementDate, b.replacementDate);
    }
    FormatDateOrder(a.date, b.date);
    FormatDateOrder(a.replacementDate, b.replacementDate);
  }

  /** Equality of two possibly missing contacts: two missing ones are equal,
      a missing one equals no present one, present ones compare both dates
      and the side. */
  predicate ContactEquals(left: Option<Contact>, right: Option<Contact>)
  {
    if left.None? && right.None? then true
    else if left.None? != right.None? then false
    else
      left.value.date == right.value.date && left.value.side == right.value.side &&
      left.value.replacementDate == right.value.replacementDate
  }

  /** Contact equality is exactly value equality, missing included; so the
      list operations that look a contact up by Equals find it by value. */
  lemma ContactEqualsSpec(a: Option<Contact>, b: Option<Contact>)
    ensures ContactEquals(a, b) <==> a == b
  {
  }

  /** The copy constructor: a contact with every field of other. */
  function CopyContact(other: Contact): Contact
  {
    Contact(other.date, other.side, other.replacementDate)
  }

  lemma CopyContactEquals(c: Contact)
    ensures ContactEquals(Some(CopyContact(c)), Some(c))
  {
  }

  /** "<date> - <side>". */
  function ToString(c: Contact): string
    requires Valid(c.date)
  {
    DateToString(c) + " - " + SideName(c.side)
  }

  /** The text is the ten-character date, " - " and the side's name, so it
      identifies the insertion date and side (not the replacement date). */
  lemma ToStringReadsBack(a: Contact, b: Contact)
    requires Valid(a.date) && Valid(b.date)
    ensures |ToString(a)| == 13 + |SideName(a.side)|
    ensures ToString(a)[..10] == FormatDate(a.date) && ToString(a)[13..] == SideName(a.side)
    ensures ToString(a) == ToString(b) <==> a.date == b.date && a.side == b.side
  {
    var ra, rb := ToString(a), ToString(b);
    assert ra[..10] == FormatDate(a.date) && ra[13..] == SideName(a.side);
    assert rb[..10] == FormatDate(b.date) && rb[13..] == SideName(b.side);
    if ra == rb {
      FormatDateInjective(a.date, b.date);
      SideNames(a.side, b.side);
    }
  }
}
