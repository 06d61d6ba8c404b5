# Address book: contacts and their listing

This project models the in-memory contact store of a small JavaScript
address book (`addressBook.js`): the `Contact` record with its one-line
`display()` rendering, and the `AddressBook` class that keeps contacts in
insertion order, appends new ones after checking that the argument is a
contact, and prints a numbered listing.

- `decimal.dfy` (module `Decimal`): how `${index + 1}` renders the line
  number (base ten, no leading zeros), with its inverse.
- `contact.dfy` (module `Contacts`): the `Contact` datatype, the
  constructor `NewContact`, `Display`, and `ParseDisplay`, a reference
  inverse of `Display` on contacts whose first and last names contain no
  space and whose phone contains no comma, used to state that the four
  rendered fields (first name, last name, phone, e-mail) can then be read
  back. Address, city, state and zip are not rendered at all.
- `address_book.dfy` (module `AddressBooks`): the `AddressBook` class with
  its `contacts: seq<Contact>` field, the `addContact` guard as the input
  variant `Input = IsContact(contact) | NotContact`, the specification
  functions `Added` and `Listing`, and the lemmas that relate them.

Every `console.log` line is returned as an element of a `seq<string>`
instead of being printed. The two emoji in the listing messages are written
as the escapes `\U{1F4ED}` and `\U{1F4D6}`.

A contact is written once, by its constructor, and never again, so it is a
datatype value. The book's `contacts` array is pushed onto in place, so the
book is a class whose `AddContact` method modifies it. `ListContacts` walks
the contacts with a loop, as the source's `forEach` does. It has no
`modifies` clause, so the verifier itself guarantees that listing changes
nothing.

The code has no field validation, duplicate-name rejection, update,
delete, search or manager of several books: its constructor stores any
eight values, and `addContact` appends a contact even when its name is
already present.

## Model

| member | source | states |
|---|---|---|
| Contacts.NewContact | addressBook.js:2-11 | each of the eight arguments is stored unchanged in the field of the same name; the result is always a contact, so no argument is ever rejected |
| Contacts.Display | addressBook.js:14-16 | the rendering is exactly six characters longer than the first name, last name, phone and e-mail together |
| Contacts.DisplayOfConstructed | addressBook.js:1-16 | a constructed contact renders as `first + " " + last + " - " + phone + ", " + email` of the constructor's arguments |
| Contacts.DisplayIgnoresOtherFields | addressBook.js:14-16 | two contacts that agree on first name, last name, phone and e-mail render identically, whatever their address, city, state and zip |
| Contacts.DisplayRoundTrip | addressBook.js:14-16 | when the names hold no space and the phone holds no comma, parsing the rendering gives back exactly the four rendered fields |
| Contacts.DisplayInjective | addressBook.js:14-16 | under the same condition, two contacts render alike if and only if they agree on all four rendered fields |
| Decimal.NatToDecimal | addressBook.js:43 | the rendered number is non-empty, all decimal digits, and starts with `0` only for zero |
| Decimal.DecimalRoundTrip | addressBook.js:43 | reading the rendered digits back gives the number |
| Decimal.NatToDecimalInjective | addressBook.js:43 | distinct numbers render as distinct strings |
| AddressBooks.AddressBook.constructor | addressBook.js:21-23 | a new book has an empty contact sequence |
| AddressBooks.Added | addressBook.js:26-33 | a non-contact leaves the sequence unchanged; a contact makes it one longer, keeps every earlier element in place, and is the last element |
| AddressBooks.AddMessage | addressBook.js:27-32 | the success message is printed exactly for a contact, the invalid-data message exactly for anything else |
| AddressBooks.AddressBook.AddContact | addressBook.js:26-33 | the new contact sequence is `Added` of the old one, and the single printed line is `AddMessage` of the input |
| AddressBooks.AddedKeepsOrder | addressBook.js:31 | `Added`'s prefix clause stated pointwise: after any add, every earlier contact is still at its old position |
| AddressBooks.AddedAllowsDuplicateNames | addressBook.js:26-33 | there is no duplicate check: adding a contact raises the number of contacts with its first and last name by exactly one |
| AddressBooks.NumberedLine | addressBook.js:43 | line n is the decimal rendering of n (whose digits read back as n), then `". "`, then the contact's display; `AddressBooks.NumberedLineNumber` reads the number back from the line itself |
| AddressBooks.NumberedFrom | addressBook.js:42-44 | one line per contact, in order, line i numbered first + i and showing the display of contact i |
| AddressBooks.Listing | addressBook.js:36-45 | an empty book prints only the empty-book message; otherwise the header, then exactly n lines, line i+1 being `(i+1) + ". " + display(contacts[i])` |
| AddressBooks.AddressBook.ListContacts | addressBook.js:36-45 | the printed lines are exactly `Listing(contacts)`, and the book is not modified |
| AddressBooks.NumberedLineNumber | addressBook.js:43 | the text before the first `.` of a listing line is exactly the decimal rendering of the line's number, and the rest is a space and the contact's display (with `Decimal.DecimalRoundTrip`, that text reads back as the number) |
| AddressBooks.ListingAfterAdd | addressBook.js:31-44 | listing after adding a contact gives the previous listing (the header alone for an empty book) plus one line carrying the next number and the new contact |

## Left out

- The `readline` prompts and their nested callbacks in `createContact` (addressBook.js:52-88): interactive input with no logic of its own; the eight answers are the parameters of `NewContact`.
- The global `myAddressBook` instance and the call `createContact()` at load time (addressBook.js:49, 90): script effects.
- Console output itself: the lines are returned instead of printed.
- JavaScript's `instanceof` in full (prototype chains, objects shaped like a contact but built otherwise): the guard is modelled only as the two-case `Input`.
- Decimal.NatToDecimal: renders every natural number in plain base ten; JavaScript switches to exponent form from 10^21 and loses exactness above 2^53, which no array index + 1 (at most 2^32 - 1) reaches.
- Field values other than strings: JavaScript would accept any value in the constructor, but the only caller passes the strings `readline` returns, so fields are `string`.
