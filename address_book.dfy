/**
 * The address book: an ordered list of contacts that grows by appending,
 * and its console listing.  The lines the source writes to the console are
 * returned as sequences of strings, one element per line.
 */
module AddressBooks {
  import opened Contacts
  import Decimal

  /**
   * What `addContact` is handed: a contact object, or anything else (the
   * source tells the two apart with `instanceof Contact`).
   */
  datatype Input = IsContact(contact: Contact) | NotContact

  const InvalidMessage: string := "Invalid contact data."
  const AddedMessage: string := "Contact added successfully!"
  const EmptyMessage: string := "\U{1F4ED} Address book is empty!"
  const Header: string := "\U{1F4D6} Address Book:"

  /**
   * The listing line `${n}. ${display()}` for the contact numbered n: the
   * digits of n, which read back as n, then ". ", then the contact's display.
   */
  function NumberedLine(n: nat, c: Contact): (line: string)
    ensures var digits := Decimal.NatToDecimal(n);
      && |line| == |digits| + 2 + |Display(c)|
      && line[..|digits|] == digits
      && Decimal.DecimalValue(line[..|digits|]) == n
      && line[|digits|..] == ". " + Display(c)
  {
    Decimal.DecimalRoundTrip(n);
    Decimal.NatToDecimal(n) + ". " + Display(c)
  }

  /** Lines for the contacts cs, numbered consecutively from first. */
  function NumberedFrom(cs: seq<Contact>, first: nat): (lines: seq<string>)
    ensures |lines| == |cs|
    ensures forall i :: 0 <= i < |cs| ==> lines[i] == NumberedLine(first + i, cs[i])
    decreases |cs|
  {
    if cs == [] then [] else [NumberedLine(first, cs[0])] + NumberedFrom(cs[1..], first + 1)
  }

  /**
   * Everything `listContacts` prints for the contacts cs: the empty-book
   * message alone, or the header followed by one line per contact, numbered
   * from 1 in insertion order.
   */
  function Listing(cs: seq<Contact>): (lines: seq<string>)
    ensures cs == [] ==> lines == [EmptyMessage]
    ensures cs != [] ==> |lines| == |cs| + 1 && lines[0] == Header
    ensures cs != [] ==> forall i :: 0 <= i < |cs| ==> lines[i + 1] == NumberedLine(i + 1, cs[i])
  {
    if cs == [] then [EmptyMessage] else [Header] + NumberedFrom(cs, 1)
  }

  /**
   * The contact list after `addContact(input)`: a contact goes at the end,
   * behind every earlier one in its old order; anything else changes nothing.
   */
  function Added(cs: seq<Contact>, input: Input): (r: seq<Contact>)
    ensures input.NotContact? ==> r == cs
    ensures input.IsContact? ==> |r| == |cs| + 1 && r[..|cs|] == cs && r[|cs|] == input.contact
  {
    match input
    case IsContact(c) => cs + [c]
    case NotContact => cs
  }

  /** The console line `addContact(input)` prints. */
  function AddMessage(input: Input): (line: string)
    ensures line == AddedMessage <==> input.IsContact?
    ensures line == InvalidMessage <==> input.NotContact?
  {
    if input.IsContact? then AddedMessage else InvalidMessage
  }

  /** How many contacts in cs carry the name (first, last). */
  function CountNamed(cs: seq<Contact>, first: string, last: string): nat {
    if cs == [] then 0
    else CountNamed(cs[..|cs| - 1], first, last)
         + (if cs[|cs| - 1].firstName == first && cs[|cs| - 1].lastName == last then 1 else 0)
  }

  class AddressBook {
    var contacts: seq<Contact>

    /** A new book holds no contacts. */
    constructor()
      ensures contacts == []
    {
      contacts := [];
    }

    /**
     * Appends a contact and reports success, or reports invalid data and
     * leaves the book as it was.
     */
    method AddContact(input: Input) returns (output: seq<string>)
      modifies this
      ensures contacts == Added(old(contacts), input)
      ensures output == [AddMessage(input)]
    {
      if !input.IsContact? {
        output := [InvalidMessage];
        return;
      }
      contacts := contacts + [input.contact];
      output := [AddedMessage];
    }

    /** Prints the book, walking the contacts in order; changes nothing. */
    method ListContacts() returns (lines: seq<string>)
      ensures lines == Listing(contacts)
    {
      if |contacts| == 0 {
        lines := [EmptyMessage];
        return;
      }
      lines := [Header];
      var index := 0;
      while index < |contacts|
        invariant 0 <= index <= |contacts|
        invariant |lines| == index + 1 && lines[0] == Header
        invariant forall i :: 0 <= i < index ==> lines[i + 1] == NumberedLine(i + 1, contacts[i])
      {
        lines := lines + [NumberedLine(index + 1, contacts[index])];
        index := index + 1;
      }
      ghost var spec := Listing(contacts);
      assert |lines| == |spec|;
      forall k | 0 <= k < |lines| ensures lines[k] == spec[k] {
        if k > 0 {
          assert lines[(k - 1) + 1] == spec[(k - 1) + 1];
        }
      }
    }
  }

  /**
   * The text of a line before its first `.` is exactly the rendering of the
   * line's number (which Decimal.DecimalRoundTrip reads back as the number),
   * and the rest is a space and the contact's display.
   */
  lemma NumberedLineNumber(n: nat, c: Contact)
    ensures SplitAtFirst(NumberedLine(n, c), '.') == Some((Decimal.NatToDecimal(n), " " + Display(c)))
  {
    var digits := Decimal.NatToDecimal(n);
    assert '.' !in digits;
    assert NumberedLine(n, c) == digits + ['.'] + (" " + Display(c));
    SplitAtFirstOfJoin(digits, '.', " " + Display(c));
  }

  /**
   * Adding a contact and then listing shows the old listing (or, for a book
   * that was empty, the header) followed by one new line that carries the
   * next number and the new contact.
   */
  lemma ListingAfterAdd(cs: seq<Contact>, c: Contact)
    ensures Listing(Added(cs, IsContact(c)))
         == (if cs == [] then [Header] else Listing(cs)) + [NumberedLine(|cs| + 1, c)]
  {
  }

  /**
   * Adding never loses a contact and never disturbs the order of the others:
   * the prefix clause of Added, stated one position at a time.
   */
  lemma AddedKeepsOrder(cs: seq<Contact>, input: Input, i: nat)
    requires i < |cs|
    ensures i < |Added(cs, input)| && Added(cs, input)[i] == cs[i]
  {
  }

  /**
   * There is no check for a repeated name: adding a contact whose first and
   * last names are already in the book still appends it, so the book then
   * holds one more contact of that name.
   */
  lemma AddedAllowsDuplicateNames(cs: seq<Contact>, c: Contact)
    ensures CountNamed(Added(cs, IsContact(c)), c.firstName, c.lastName)
         == CountNamed(cs, c.firstName, c.lastName) + 1
  {
  }
}
