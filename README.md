# Contact book assistant — a verified model

This project models the core of a small command-line contact book
(`last_task.py`). It covers:

- the field wrappers: a Phone is ten digits, and a Birthday is a string the
  date parser accepts;
- `Record`: one contact, with an ordered phone list changed in place and a
  birthday that can be set once;
- `AddressBook`: records keyed by name, in insertion order;
- the query for birthdays in the week after next;
- the command handlers, with the `input_error` decorator turned into an
  explicit outcome type and one translation function;
- `parse_input`.

Modules, leaf first:

- `Fields` (`fields.dfy`) holds the error kinds (`ValueError`, `KeyError`,
  `IndexError`), the `Outcome` of an undecorated handler, `InputError`, the
  `Phone` subset type, and birthday validation.
- `Text` (`text.dfy`) holds the ASCII string operations the code relies on:
  `str.split()`, `sep.join`, `str.rstrip()` and `str.lower()`. It also holds
  `Split`, a model of `str.split(sep)`. The program never calls
  `split(sep)`; `Split` is there as the inverse of `"; ".join`, so that
  `PhoneListRoundTrip` can state that a rendered phone list determines the
  phones.
- `Contacts` (`record.dfy`) holds the `Contact` value, the record's rendering,
  and the `Record` class. Its `phones` and `birthday` fields are updated in
  place by methods whose loops mirror the source.
- `Book` (`address_book.dfy`) holds the birthday window and the report filter.
  It also holds the `AddressBook` class: a `data` map plus an `order`
  sequence, which keeps Python's dict insertion order.
- `Handlers` (`handlers.dfy`) holds `parse_input`, the seven command handlers,
  and two sessions on a fresh book.

Parts of the program that lie outside the model are given as parameters:

- `datetime.strptime(value, "%d.%m.%Y")` is a `DateParser`: a total function
  from a string to an optional day number. A birthday is valid exactly when
  the parser returns a day.
- `datetime.now()` is a `today: DateTime` argument: a day number and the
  microseconds since midnight.
- The interpreter's text for the failed unpacking `name, = args` is the
  `unpackMessage` argument of `ShowBirthday`.

Behaviour of the code that is easy to miss:

- `change` validates the new phone. `Phone(new_phone)` is evaluated before
  the store into `phones[0]`, so a malformed phone is reported and nothing
  changes. A contact with no phones then raises `IndexError`, which is
  answered "Invalid command format.". If the new phone is malformed, the
  phone message comes first.
- `add` with a malformed phone still answers "Contact added.". It stores a
  record with no phones, because the record constructor ignores what
  `add_phone` returns.
- The birthday window starts 7 to 13 days after today, on a Sunday, and ends
  on the following Saturday (`WindowShape`).
- Birthdays are compared as full dates, birth year included, exactly as
  written. So a birthday whose stored date is today or earlier is never
  reported (`PastDateNeverMatches`).
- `Record.add_birthday` checks "already set" before it validates the date. On
  a record that has a birthday, even a malformed date answers
  "Birthday already set.".
- `strptime` with `%d.%m` also accepts one-digit days and months. The model
  does not fix a two-digit format: it leaves date validity to the parser.

## Model

| member | source | states |
|---|---|---|
| `Fields.InputError` | last_task.py:8-19 | a returned string passes through; a ValueError becomes its message; KeyError becomes "Contact not found."; IndexError becomes "Invalid command format." |
| `Fields.NewPhone` | last_task.py:45-49 | construction succeeds exactly on strings of ten ASCII digits and keeps the string; otherwise ValueError "Invalid phone number format. Must be 10 digits." |
| `Fields.PhoneHasNoSeparator` | last_task.py:47 | a valid phone holds no ';', space or line feed |
| `Fields.NewBirthday` | last_task.py:29-37 | construction succeeds exactly when the date parser accepts the string, and stores the original string; otherwise ValueError "Invalid date format. Please use DD.MM.YYYY." |
| `Text.Words` | last_task.py:4 | every token of `split()` is non-empty and free of whitespace |
| `Text.WordLength` | last_task.py:4 | the measured prefix is the longest whitespace-free prefix |
| `Text.WordsAfterBlank` | last_task.py:4 | `split()` skips leading whitespace |
| `Text.WordsOfSpaced` | last_task.py:4 | words separated by runs of whitespace (the last run, trailing whitespace, possibly empty) split back into exactly those words, in order |
| `Text.WordsOfLine` | last_task.py:4 | with optional whitespace before the first word as well, `split()` gives exactly the typed words: they are the maximal whitespace-free runs of the line |
| `Text.WordsEmpty` | last_task.py:4 | `split()` finds no token exactly when the input is all whitespace |
| `Text.Lower` | last_task.py:5 | lower-casing keeps the length and maps each character to its lower case |
| `Text.SplitOfJoin` | last_task.py:105 | `split(sep)` undoes `sep.join` when no part contains the separator's first character |
| `Text.RStrip` | last_task.py:179 | the result is the prefix that ends at the last non-whitespace character; everything cut was whitespace |
| `Text.Join` | last_task.py:105 | defines `sep.join`; its properties are `SplitOfJoin`, `JoinSnoc`, `JoinStartsWith` and `JoinEndsWith` |
| `Contacts.BirthdayTextInjective` | last_task.py:69-70 | two birthday states get the same `show_birthday` text exactly when they are equal ("Birthday: v" or "No birthday set.") |
| `Contacts.BirthdayText` | last_task.py:69-70 | defines the `show_birthday` text; `BirthdayTextInjective` states that it determines the birthday |
| `Contacts.Render` | last_task.py:104-106 | defines the `__str__` text of a contact; `PhoneListRoundTrip` and `RenderEndsInNonSpace` state its properties |
| `Contacts.PhoneListRoundTrip` | last_task.py:104-106 | a non-empty "; "-joined phone list of a rendering splits back into the record's phones (an empty list renders as "", which `split` gives back as [""]) |
| `Contacts.FirstIndex` | last_task.py:98-102 | the search finds the first phone equal to the argument, or none exactly when no phone is equal |
| `Contacts.RemoveFirst` | last_task.py:81-83 | defines the list after `phones.remove` of the first match; `RemoveFirstCounts`, `RemoveFirstKeepsOrder` and `RemoveUndoesAppend` state its properties |
| `Contacts.RemoveFirstCounts` | last_task.py:80-85 | removal takes away one occurrence of the phone and nothing else (multiset difference) |
| `Contacts.RemoveFirstKeepsOrder` | last_task.py:80-85 | after removal, phones before the match stay in place and later phones shift down by one |
| `Contacts.RemoveUndoesAppend` | last_task.py:72-85 | removing a phone just appended to a list without it gives the list back |
| `Contacts.Record.constructor` | last_task.py:52-61 | a new record has the name, the phone only when it is valid, and no birthday |
| `Contacts.Record.AddPhone` | last_task.py:72-78 | a valid phone is appended and "Phone X added." returned; an invalid one leaves the list and returns the format message |
| `Contacts.Record.RemovePhone` | last_task.py:80-85 | the list loses its first phone equal to the argument; the reply says removed or "Phone X not found." |
| `Contacts.Record.EditPhone` | last_task.py:87-96 | only the first matching index is replaced by a valid new phone; an invalid new phone leaves the list and returns the format message; a missing old phone gives "Phone X not found." |
| `Contacts.Record.FindPhone` | last_task.py:98-102 | returns the phone exactly when the list holds it; the record is not changed |
| `Contacts.Record.AddBirthday` | last_task.py:63-67 | an unset birthday is set to a date the parser accepts; a set one stays and "Birthday already set." is raised; a malformed date is raised and nothing is set |
| `Contacts.Record.ShowBirthday` | last_task.py:69-70 | the record's `show_birthday`: `BirthdayText` of its current birthday |
| `Contacts.Record.ToString` | last_task.py:104-106 | the record's `__str__`: `Render` of its current contents |
| `Book.Weekday` | last_task.py:126 | defines `weekday()` on day numbers (Monday 0, day 1 a Monday); used by `WindowShape` |
| `Book.WindowStart` | last_task.py:126 | defines the window start; `WindowShape` states where it falls |
| `Book.WindowEnd` | last_task.py:127 | defines the window end; `WindowShape` states its distance from the start |
| `Book.InNextWeek` | last_task.py:133 | defines the window test on a parsed midnight date; `InNextWeekBounds` and `PastDateNeverMatches` state which dates pass |
| `Book.WindowShape` | last_task.py:126-127 | the window starts on a Sunday 7 to 13 days after today and spans 7 days |
| `Book.InNextWeekBounds` | last_task.py:125-133 | a date matches when it is after the start day, or is the start day and the time is midnight, and it is not after the end day |
| `Book.PastDateNeverMatches` | last_task.py:132-133 | a stored date on or before today is never reported |
| `Book.IsUpcoming` | last_task.py:131-133 | defines when one record is reported: it has a birthday, the birthday parses, and the date is in the window |
| `Book.Upcoming` | last_task.py:130-134 | defines the report over contacts in order; `UpcomingMembers` and `UpcomingIsSubsequence` state what it holds |
| `Book.UpcomingMembers` | last_task.py:130-134 | a pair is reported exactly when some record has that name and birthday and the parsed date lies in the window |
| `Book.UpcomingIsSubsequence` | last_task.py:128-136 | the report is a subsequence of all (name, birthday) pairs in insertion order |
| `Book.Without` | last_task.py:120 | `del` removes exactly that key from the key order, keeps the other keys distinct, and keeps their relative order (a subsequence of the old order) |
| `Book.WithoutAbsent` | last_task.py:118-122 | removing an absent key leaves the key order unchanged |
| `Book.AddressBook.constructor` | last_task.py:109-110 | a new book is empty |
| `Book.AddressBook.AddRecord` | last_task.py:112-113 | the record is stored under its name and replaces any earlier one; a new name goes to the end of the order, an existing name keeps its place |
| `Book.AddressBook.Find` | last_task.py:115-116 | returns the record stored under the name, or null exactly when the name is absent |
| `Book.AddressBook.Delete` | last_task.py:118-122 | only that key is removed and "Contact n deleted." returned; an absent name gives "Contact n not found." and nothing changes |
| `Book.AddressBook.EmptyOrder` | last_task.py:175 | the book is empty exactly when its key order is empty |
| `Book.AddressBook.ViewsOf` | last_task.py:130 | the records are viewed in the order of the given keys |
| `Book.AddressBook.GetBirthdaysPerWeek` | last_task.py:124-136 | the loop returns the filter of the records in insertion order by the window |
| `Handlers.ParseInput` | last_task.py:3-6 | defines `parse_input`: the first `split()` token lower-cased and the other tokens, or None on blank input; its properties are `ParseInputOfTokens` and `ParseInputBlank` |
| `Handlers.ParseInputOfTokens` | last_task.py:3-6 | a line of words between runs of whitespace, with any leading and trailing whitespace, parses into the lower-cased first word and the remaining words |
| `Handlers.ParseInputBlank` | last_task.py:3-6 | parsing fails exactly on blank input |
| `Handlers.AddContact` | last_task.py:138-146 | with 2 arguments a record is stored and "Contact added." returned, with an empty phone list when the phone is invalid; otherwise the book is unchanged and "Give me name and phone please." returned |
| `Handlers.ChangeContact` | last_task.py:148-159 | success replaces only phones[0] of that contact; an unknown name gives "Contact not found."; a wrong argument count or an empty phone list gives "Invalid command format."; an invalid phone gives the phone message; every failure leaves the book unchanged |
| `Handlers.ShowPhone` | last_task.py:161-171 | returns the first phone; an unknown name or no phones gives "Contact not found."; a wrong argument count gives "Enter the contact name." |
| `Handlers.Renders` | last_task.py:177-178 | each record gets its own line, in order |
| `Handlers.AllText` | last_task.py:175-181 | defines the `show_all` reply; `AllTextSentinel` and `AllTextIsLines` state its properties |
| `Handlers.Terminated` | last_task.py:176-178 | defines the `result` text the `show_all` loop accumulates, every line followed by a line feed; `TerminatedIsJoin` and `TerminatedStartsWithFirst` state its properties |
| `Handlers.TerminatedIsJoin` | last_task.py:176-178 | the accumulated text is the lines joined by line feeds, plus a final line feed |
| `Handlers.TerminatedStartsWithFirst` | last_task.py:176-178 | the accumulated text has the first line as a prefix |
| `Handlers.ShowAll` | last_task.py:173-181 | the loop builds the listing of all records in insertion order, stripped at the end, or "No contacts available." for an empty book |
| `Handlers.AllTextSentinel` | last_task.py:175-181 | "No contacts available." is answered exactly for an empty book |
| `Handlers.RenderEndsInNonSpace` | last_task.py:104-106 | a record line ends in a non-space when its birthday text does |
| `Handlers.AllTextIsLines` | last_task.py:176-179 | unless the last birthday ends in whitespace, the listing is the record lines joined by line feeds |
| `Handlers.AddBirthday` | last_task.py:183-197 | sets the birthday once and returns "Birthday added for n."; an unknown name, a set birthday, a malformed date or a wrong argument count is answered inline and leaves the book unchanged |
| `Handlers.ShowBirthday` | last_task.py:199-206 | returns the contact's birthday text; an unknown name gives "Contact n not found."; a wrong argument count gives the unpacking ValueError's message |
| `Handlers.PairLines` | last_task.py:212 | each reported pair becomes the line "name: date" |
| `Handlers.BirthdaysText` | last_task.py:211-214 | defines the `birthdays` reply; `BirthdaysTextSentinel` states its property |
| `Handlers.Birthdays` | last_task.py:208-214 | replies with the "name: date" lines of the report, or the no-upcoming text |
| `Handlers.BirthdaysTextSentinel` | last_task.py:211-214 | "No upcoming birthdays in the next week." is answered exactly when nothing is reported |
| `Handlers.EmptyBookSession` | last_task.py:148-181 | on a fresh book, `all` answers "No contacts available." and `change` of an unknown name answers "Contact not found." |
| `Handlers.BirthdaySession` | last_task.py:138-206 | add, phone, add_birthday, show_birthday and a second add_birthday answer as expected; the first birthday stays |

## Left out

- The `main` loop, `input`/`print`, the greeting and exit commands and the
  `__main__` block: terminal I/O.
- `datetime.now()` and `datetime.strptime` are parameters (see above). The
  calendar parsing itself is not modelled, so a Birthday's format is whatever
  the parser accepts. The model assumes the same parser is used when a
  birthday is set and when the report reads it.
- `Book.AddressBook.GetBirthdaysPerWeek`: a stored birthday the parser
  rejects is skipped. In the source, `strptime` would raise there. This
  cannot happen, because a birthday is stored only after the parser accepts
  it.
- The `OverflowError` of `today + timedelta(...)` near the year 9999 is not
  modelled: day numbers are unbounded.
- `Contacts.Record.constructor`: the optional `birthday` argument of
  `Record.__init__` is not modelled. No caller passes it; a birthday is set
  only through `AddBirthday`.
- `Handlers.ShowBirthday`: the interpreter's text for the failed unpacking is
  an input (`unpackMessage`), not the actual CPython wording.
- The crash of `parse_input` on blank input is modelled as `None`. It is not
  caught in the source, so it ends the program, and the loop is not modelled.
- `str.isdigit`, `split`, `rstrip` and `lower` are modelled on ASCII only.
  Unicode digits, Unicode whitespace and non-ASCII case mappings are not
  modelled.
- Python object identity is not modelled. Phones are compared by value. This
  matches `list.remove` of the object found first, because each Phone object
  occurs in the list once.
