/**
 * The contact record of the address book and its one-line rendering.
 *
 * A contact is created once and its fields are never written again, so it
 * is a value here.  The constructor performs no validation whatever: any
 * eight strings make a contact.
 */
module Contacts {

  datatype Option<T> = None | Some(value: T)

  datatype Contact = Contact(
    firstName: string,
    lastName: string,
    address: string,
    city: string,
    state: string,
    zip: string,
    phone: string,
    email: string)

  /**
   * The contact constructor: every argument lands, unchanged, in the field
   * of the same name, and no argument is ever rejected (the result is a
   * contact, not an error).
   */
  function NewContact(firstName: string, lastName: string, address: string, city: string,
                      state: string, zip: string, phone: string, email: string): (c: Contact)
    ensures c.firstName == firstName && c.lastName == lastName
    ensures c.address == address && c.city == city && c.state == state
    ensures c.zip == zip && c.phone == phone && c.email == email
  {
    Contact(firstName, lastName, address, city, state, zip, phone, email)
  }

  /** The rendering `first last - phone, email` of a contact. */
  function Display(c: Contact): (s: string)
    ensures |s| == |c.firstName| + |c.lastName| + |c.phone| + |c.email| + 6
  {
    c.firstName + " " + c.lastName + " - " + c.phone + ", " + c.email
  }

  /** The rendering reads the name, phone and e-mail fields and nothing else. */
  lemma DisplayIgnoresOtherFields(c: Contact, d: Contact)
    requires c.firstName == d.firstName && c.lastName == d.lastName
    requires c.phone == d.phone && c.email == d.email
    ensures Display(c) == Display(d)
  {
  }

  /** A freshly constructed contact renders as `first last - phone, email` of its arguments. */
  lemma DisplayOfConstructed(firstName: string, lastName: string, address: string, city: string,
                             state: string, zip: string, phone: string, email: string)
    ensures Display(NewContact(firstName, lastName, address, city, state, zip, phone, email))
         == firstName + " " + lastName + " - " + phone + ", " + email
  {
  }

  /**
   * Splitting at the first occurrence of a separator: the part before it and
   * the part after it, or None when the separator does not occur.
   */
  function SplitAtFirst(s: string, sep: char): (r: Option<(string, string)>)
    ensures r.None? <==> sep !in s
    ensures r.Some? ==> sep !in r.value.0 && s == r.value.0 + [sep] + r.value.1
  {
    if s == [] then None
    else if s[0] == sep then Some(([], s[1..]))
    else match SplitAtFirst(s[1..], sep)
      case None => None
      case Some((before, after)) => Some(([s[0]] + before, after))
  }

  lemma {:induction false} SplitAtFirstOfJoin(a: string, sep: char, b: string)
    requires sep !in a
    ensures SplitAtFirst(a + [sep] + b, sep) == Some((a, b))
  {
    var s := a + [sep] + b;
    if a == [] {
      assert s[0] == sep && s[1..] == b;
    } else {
      SplitAtFirstOfJoin(a[1..], sep, b);
      assert s[0] == a[0] != sep;
      assert s[1..] == a[1..] + [sep] + b;
      assert [a[0]] + a[1..] == a;
    }
  }

  /**
   * Reads a rendering back into (first name, last name, phone, e-mail); the
   * inverse of Display for contacts whose names hold no space and whose
   * phone holds no comma.  It reads the first name up to the first space,
   * then the rest with ParseAfterFirst.
   */
  function ParseDisplay(s: string): Option<(string, string, string, string)> {
    match SplitAtFirst(s, ' ')
    case None => None
    case Some((first, rest)) => ParseAfterFirst(first, rest)
  }

  /** Reads `last - phone, email`: the last name up to the next space, then "- ". */
  function ParseAfterFirst(first: string, s: string): Option<(string, string, string, string)> {
    match SplitAtFirst(s, ' ')
    case None => None
    case Some((last, rest)) =>
      if |rest| < 2 || rest[..2] != "- " then None else ParsePhoneEmail(first, last, rest[2..])
  }

  /** Reads `phone, email`: the phone up to the first comma, then ", " and the e-mail. */
  function ParsePhoneEmail(first: string, last: string, s: string): Option<(string, string, string, string)> {
    match SplitAtFirst(s, ',')
    case None => None
    case Some((phone, rest)) =>
      if |rest| < 1 || rest[0] != ' ' then None else Some((first, last, phone, rest[1..]))
  }

  lemma ParsePhoneEmailOfJoin(first: string, last: string, phone: string, email: string)
    requires ',' !in phone
    ensures ParsePhoneEmail(first, last, phone + ", " + email) == Some((first, last, phone, email))
  {
    assert phone + ", " + email == phone + [','] + (" " + email);
    SplitAtFirstOfJoin(phone, ',', " " + email);
    assert (" " + email)[1..] == email;
  }

  lemma ParseAfterFirstOfJoin(first: string, last: string, phone: string, email: string)
    requires ' ' !in last && ',' !in phone
    ensures ParseAfterFirst(first, last + " - " + phone + ", " + email) == Some((first, last, phone, email))
  {
    var rest := "- " + phone + ", " + email;
    assert last + " - " + phone + ", " + email == last + [' '] + rest;
    SplitAtFirstOfJoin(last, ' ', rest);
    assert rest[..2] == "- " && rest[2..] == phone + ", " + email;
    ParsePhoneEmailOfJoin(first, last, phone, email);
  }

  /**
   * The rendering loses none of the four fields it shows, as long as the
   * separators it inserts cannot be confused with the field contents.
   */
  lemma DisplayRoundTrip(c: Contact)
    requires ' ' !in c.firstName && ' ' !in c.lastName && ',' !in c.phone
    ensures ParseDisplay(Display(c)) == Some((c.firstName, c.lastName, c.phone, c.email))
  {
    var rest := c.lastName + " - " + c.phone + ", " + c.email;
    assert Display(c) == c.firstName + [' '] + rest;
    SplitAtFirstOfJoin(c.firstName, ' ', rest);
    ParseAfterFirstOfJoin(c.firstName, c.lastName, c.phone, c.email);
  }

  /**
   * Two contacts with space-free names and comma-free phones render alike
   * exactly when they agree on all four rendered fields.
   */
  lemma DisplayInjective(c: Contact, d: Contact)
    requires ' ' !in c.firstName && ' ' !in c.lastName && ',' !in c.phone
    requires ' ' !in d.firstName && ' ' !in d.lastName && ',' !in d.phone
    ensures Display(c) == Display(d) <==>
      (c.firstName, c.lastName, c.phone, c.email) == (d.firstName, d.lastName, d.phone, d.email)
  {
    DisplayRoundTrip(c);
    DisplayRoundTrip(d);
  }
}
