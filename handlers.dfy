/** The command handlers: each turns the argument tokens of one command into
    operations on the address book and a one-line reply, with `input_error`
    translating what it raises. */
module Handlers {
  import opened Fields
  import opened Text
  import opened Contacts
  import opened Book

  const AddUsageText := "Give me name and phone please."
  const PhoneUsageText := "Enter the contact name."
  const BirthdayUsageText := "Invalid command format. Use 'add_birthday [name] [DD.MM.YYYY]'."
  const NoContactsText := "No contacts available."
  const NoBirthdaysText := "No upcoming birthdays in the next week."

  // ------------------------------------------------------------ parse_input

  /** `parse_input`: the first whitespace-separated token lower-cased, and the
      remaining tokens; None for blank input, where the unpacking fails. */
  function ParseInput(line: string): Option<(string, seq<string>)> {
    var ws := Words(line);
    if ws == [] then None else Some((Lower(ws[0]), ws[1..]))
  }

  /** A command line typed as words between runs of whitespace, with any
      whitespace before and after, parses into its lower-cased first word and
      the remaining words. */
  lemma ParseInputOfTokens(lead: string, cmd: string, args: seq<string>, gaps: seq<string>)
    requires IsBlank(lead) && |gaps| == |args| + 1 && WellSpaced([cmd] + args, gaps)
    ensures ParseInput(lead + Spaced([cmd] + args, gaps)) == Some((Lower(cmd), args))
  {
    WordsOfLine(lead, [cmd] + args, gaps);
    assert ([cmd] + args)[1..] == args;
  }

  /** Parsing fails exactly on input made only of whitespace. */
  lemma ParseInputBlank(line: string)
    ensures ParseInput(line).None? <==> forall i :: 0 <= i < |line| ==> IsSpace(line[i])
  {
    WordsEmpty(line);
  }

  // ------------------------------------------------------------ listings

  /** Each record's line, in order. */
  function Renders(cs: seq<Contact>): (ls: seq<string>)
    ensures |ls| == |cs|
    ensures forall i :: 0 <= i < |cs| ==> ls[i] == Render(cs[i])
  {
    seq(|cs|, i requires 0 <= i < |cs| => Render(cs[i]))
  }

  /** The text `show_all` accumulates: every line followed by "\n". */
  function Terminated(ls: seq<string>): string {
    if ls == [] then "" else Terminated(ls[..|ls| - 1]) + ls[|ls| - 1] + "\n"
  }

  /** The reply of `show_all` for the contacts `cs` in insertion order. */
  function AllText(cs: seq<Contact>): string {
    if cs == [] then NoContactsText else RStrip(Terminated(Renders(cs)))
  }

  /** The `"name: date"` lines of the birthday reply. */
  function PairLines(ps: seq<(string, string)>): (ls: seq<string>)
    ensures |ls| == |ps|
    ensures forall i :: 0 <= i < |ps| ==> ls[i] == ps[i].0 + ": " + ps[i].1
  {
    seq(|ps|, i requires 0 <= i < |ps| => ps[i].0 + ": " + ps[i].1)
  }

  /** The reply of `birthdays` for the reported pairs. */
  function BirthdaysText(ps: seq<(string, string)>): string {
    if ps == [] then NoBirthdaysText else Join(PairLines(ps), "\n")
  }

  predicate EndsInNonSpace(s: string) {
    s != [] && !IsSpace(s[|s| - 1])
  }

  lemma TerminatedSnoc(ls: seq<string>, l: string)
    ensures Terminated(ls + [l]) == Terminated(ls) + l + "\n"
  {
    assert (ls + [l])[..|ls|] == ls;
  }

  /** The accumulated text begins with the first line. */
  lemma {:induction false} TerminatedStartsWithFirst(ls: seq<string>)
    requires ls != []
    ensures |ls[0]| <= |Terminated(ls)| && Terminated(ls)[..|ls[0]|] == ls[0]
  {
    if |ls| > 1 {
      var init := ls[..|ls| - 1];
      TerminatedStartsWithFirst(init);
      assert Terminated(ls) == Terminated(init) + (ls[|ls| - 1] + "\n");
    }
  }

  /** `show_all` answers "No contacts available." exactly for an empty book:
      every listed record starts with "Contact name: ". */
  lemma AllTextSentinel(cs: seq<Contact>)
    ensures AllText(cs) == NoContactsText <==> cs == []
  {
    if cs != [] {
      var ls := Renders(cs);
      assert ls[0][0] == 'C';
      TerminatedStartsWithFirst(ls);
      var s := Terminated(ls);
      assert s[0] == ls[0][0];
      assert !IsSpace(s[0]);
      assert RStrip(s)[0] == 'C';
    }
  }

  lemma {:induction false} TerminatedIsJoin(ls: seq<string>)
    requires ls != []
    ensures Terminated(ls) == Join(ls, "\n") + "\n"
  {
    if |ls| > 1 {
      var init, l := ls[..|ls| - 1], ls[|ls| - 1];
      TerminatedIsJoin(init);
      JoinSnoc(init, "\n", l);
      assert init + [l] == ls;
    }
  }

  lemma RenderEndsInNonSpace(c: Contact)
    requires c.birthday.None? || EndsInNonSpace(c.birthday.value)
    ensures EndsInNonSpace(Render(c))
  {
    var tail := BirthdayText(c.birthday);
    assert EndsInNonSpace(tail);
    var prefix := "Contact name: " + c.name + ", phones: " + Join(c.phones, "; ");
    assert Render(c) == prefix + tail;
    assert Render(c)[|Render(c)| - 1] == tail[|tail| - 1];
  }

  /** Unless the last record's birthday text ends in whitespace (which
      `rstrip` would also remove), `show_all` is the records' lines joined by
      line feeds. */
  lemma AllTextIsLines(cs: seq<Contact>)
    requires cs != []
    requires cs[|cs| - 1].birthday.None? || EndsInNonSpace(cs[|cs| - 1].birthday.value)
    ensures AllText(cs) == Join(Renders(cs), "\n")
  {
    var ls := Renders(cs);
    TerminatedIsJoin(ls);
    var j := Join(ls, "\n");
    JoinEndsWith(ls, "\n");
    RenderEndsInNonSpace(cs[|cs| - 1]);
    var last := ls[|ls| - 1];
    assert j[|j| - 1] == last[|last| - 1];
    RStripNewline(j);
  }

  /** `birthdays` answers "No upcoming birthdays in the next week." exactly
      when nothing is reported: every reported line holds a colon. */
  lemma BirthdaysTextSentinel(ps: seq<(string, string)>)
    ensures BirthdaysText(ps) == NoBirthdaysText <==> ps == []
  {
    if ps != [] {
      var ls := PairLines(ps);
      JoinStartsWith(ls, "\n");
      var k := |ps[0].0|;
      assert ls[0][k] == ':';
      assert Join(ls, "\n")[k] == ':';
      assert forall i :: 0 <= i < |NoBirthdaysText| ==> NoBirthdaysText[i] != ':';
    }
  }

  // ------------------------------------------------------------ handlers

  /** `add_contact`: with a name and a phone, stores a new record under the
      name (replacing any old one) and answers "Contact added.", also when the
      phone is malformed, in which case the record has no phones. */
  method AddContact(args: seq<string>, book: AddressBook) returns (s: string)
    requires book.Valid()
    modifies book
    ensures book.Valid()
    ensures fresh(book.data.Values - old(book.data.Values))
    ensures |args| == 2 ==>
      s == "Contact added." &&
      book.Contents() == old(book.Contents())[args[0] := Contact(args[0], if IsPhoneNumber(args[1]) then [args[1]] else [], None)] &&
      book.order == if args[0] in old(book.data) then old(book.order) else old(book.order) + [args[0]]
    ensures |args| != 2 ==>
      s == AddUsageText && book.data == old(book.data) && book.order == old(book.order)
  {
    var o: Outcome;
    if |args| == 2 {
      var name, phone := args[0], args[1];
      var record := new Record(name, phone);
      book.AddRecord(record);
      o := Returned("Contact added.");
    } else {
      o := Raised(ValueError(AddUsageText));
    }
    s := InputError(o);
  }

  /** `change_contact`: replaces the first phone of the named contact by a
      valid phone. A malformed phone is reported before the list is touched; a
      contact without phones raises IndexError; an unknown name KeyError. */
  method ChangeContact(args: seq<string>, book: AddressBook) returns (s: string)
    requires book.Valid()
    modifies book.data.Values
    ensures book.Valid()
    ensures |args| != 2 ==> s == BadCommandText && book.Contents() == old(book.Contents())
    ensures |args| == 2 && args[0] !in old(book.Contents()) ==>
      s == ContactNotFoundText && book.Contents() == old(book.Contents())
    ensures |args| == 2 && args[0] in old(book.Contents()) && !IsPhoneNumber(args[1]) ==>
      s == PhoneFormatText && book.Contents() == old(book.Contents())
    ensures |args| == 2 && args[0] in old(book.Contents()) && IsPhoneNumber(args[1]) &&
            old(book.Contents())[args[0]].phones == [] ==>
      s == BadCommandText && book.Contents() == old(book.Contents())
    ensures |args| == 2 && args[0] in old(book.Contents()) && IsPhoneNumber(args[1]) &&
            old(book.Contents())[args[0]].phones != [] ==>
      var c := old(book.Contents())[args[0]];
      s == "Contact updated." && book.Contents() == old(book.Contents())[args[0] := c.(phones := c.phones[0 := args[1]])]
  {
    var o: Outcome;
    if |args| == 2 {
      var name, newPhone := args[0], args[1];
      var contact := book.Find(name);
      if contact != null {
        match NewPhone(newPhone)
        case Err(e) =>
          o := Raised(e);
        case Ok(p) =>
          if |contact.phones| > 0 {
            contact.phones := contact.phones[0 := p];
            o := Returned("Contact updated.");
            assert forall k :: k in book.data && k != name ==> book.data[k] != contact;
          } else {
            o := Raised(IndexError);
          }
      } else {
        o := Raised(KeyError);
      }
    } else {
      o := Raised(IndexError);
    }
    s := InputError(o);
  }

  /** `show_phone`: the first phone of the named contact; "Contact not found."
      for an unknown name or a contact without phones. */
  function ShowPhone(args: seq<string>, book: AddressBook): (s: string)
    reads book, book.data.Values
    requires book.Valid()
    ensures |args| != 1 ==> s == PhoneUsageText
    ensures |args| == 1 && args[0] in book.Contents() && book.Contents()[args[0]].phones != [] ==>
      s == book.Contents()[args[0]].phones[0]
    ensures |args| == 1 && (args[0] !in book.Contents() || book.Contents()[args[0]].phones == []) ==>
      s == ContactNotFoundText
  {
    InputError(
      if |args| == 1 then
        var contact := book.Find(args[0]);
        if contact != null && contact.phones != [] then Returned(contact.phones[0]) else Raised(KeyError)
      else
        Raised(ValueError(PhoneUsageText)))
  }

  /** `show_all`: every record's line in insertion order, or "No contacts
      available." for an empty book. */
  method ShowAll(book: AddressBook) returns (s: string)
    requires book.Valid()
    ensures s == AllText(book.Entries())
  {
    book.EmptyOrder();
    if book.data != map[] {
      var result := "";
      var i := 0;
      while i < |book.order|
        invariant 0 <= i <= |book.order|
        invariant result == Terminated(Renders(book.ViewsOf(book.order[..i])))
      {
        book.ViewsOfSnoc(book.order, i);
        var cs, c := book.ViewsOf(book.order[..i]), book.data[book.order[i]].View();
        assert Renders(cs + [c]) == Renders(cs) + [Render(c)];
        TerminatedSnoc(Renders(cs), Render(c));
        result := result + book.data[book.order[i]].ToString() + "\n";
        i := i + 1;
      }
      assert book.order[..i] == book.order;
      s := InputError(Returned(RStrip(result)));
    } else {
      s := InputError(Returned(NoContactsText));
    }
  }

  /** `add_birthday`: sets the birthday of the named contact once. Every
      failure is answered inline: unknown name, birthday already set,
      malformed date, wrong number of arguments. */
  method AddBirthday(args: seq<string>, book: AddressBook, parse: DateParser) returns (s: string)
    requires book.Valid()
    modifies book.data.Values
    ensures book.Valid()
    ensures |args| != 2 ==> s == BirthdayUsageText && book.Contents() == old(book.Contents())
    ensures |args| == 2 && args[0] !in old(book.Contents()) ==>
      s == "Contact " + args[0] + " not found." && book.Contents() == old(book.Contents())
    ensures |args| == 2 && args[0] in old(book.Contents()) && old(book.Contents())[args[0]].birthday.Some? ==>
      s == BirthdayAlreadySetText && book.Contents() == old(book.Contents())
    ensures |args| == 2 && args[0] in old(book.Contents()) && old(book.Contents())[args[0]].birthday.None? &&
            parse(args[1]).None? ==>
      s == DateFormatText && book.Contents() == old(book.Contents())
    ensures |args| == 2 && args[0] in old(book.Contents()) && old(book.Contents())[args[0]].birthday.None? &&
            parse(args[1]).Some? ==>
      s == "Birthday added for " + args[0] + "." &&
      book.Contents() == old(book.Contents())[args[0] := old(book.Contents())[args[0]].(birthday := Some(args[1]))]
  {
    var o: Outcome;
    if |args| == 2 {
      var name, date := args[0], args[1];
      var contact := book.Find(name);
      if contact != null {
        var err := contact.AddBirthday(date, parse);
        assert forall k :: k in book.data && k != name ==> book.data[k] != contact;
        match err
        case None => o := Returned("Birthday added for " + name + ".");
        case Some(e) => o := Returned(e.message);
      } else {
        o := Returned("Contact " + name + " not found.");
      }
    } else {
      o := Returned(BirthdayUsageText);
    }
    s := InputError(o);
  }

  /** `show_birthday`: the birthday description of the named contact. With
      other than one argument the unpacking `name, = args` raises a ValueError
      whose interpreter-supplied text is `unpackMessage`. */
  function ShowBirthday(args: seq<string>, book: AddressBook, unpackMessage: string): (s: string)
    reads book, book.data.Values
    requires book.Valid()
    ensures |args| != 1 ==> s == unpackMessage
    ensures |args| == 1 && args[0] in book.Contents() ==> s == BirthdayText(book.Contents()[args[0]].birthday)
    ensures |args| == 1 && args[0] !in book.Contents() ==> s == "Contact " + args[0] + " not found."
  {
    InputError(
      if |args| != 1 then
        Raised(ValueError(unpackMessage))
      else
        var contact := book.Find(args[0]);
        if contact != null then Returned(contact.ShowBirthday()) else Returned("Contact " + args[0] + " not found."))
  }

  /** `birthdays`: the "name: date" lines of the contacts whose birthday falls
      in the window, or "No upcoming birthdays in the next week.". */
  method Birthdays(book: AddressBook, today: DateTime, parse: DateParser) returns (s: string)
    requires book.Valid()
    ensures s == BirthdaysText(Upcoming(book.Entries(), parse, today))
  {
    var upcoming := book.GetBirthdaysPerWeek(today, parse);
    if upcoming != [] {
      s := InputError(Returned(Join(PairLines(upcoming), "\n")));
    } else {
      s := InputError(Returned(NoBirthdaysText));
    }
  }

  /** On a fresh book, `all` reports no contacts and `change` of an unknown
      name reports it missing, leaving the book empty. */
  method EmptyBookSession() returns (replies: seq<string>)
    ensures replies == ["No contacts available.", "Contact not found."]
  {
    var book := new AddressBook();
    var r0 := ShowAll(book);
    assert r0 == NoContactsText;
    var r1 := ChangeContact(["nobody", "1111111111"], book);
    replies := [r0, r1];
  }

  /** On a fresh book: adding a contact, reading its phone, setting its
      birthday twice and reading the birthday after each attempt; the second
      attempt is refused and the first birthday stays. */
  method BirthdaySession(parse: DateParser) returns (replies: seq<string>)
    requires parse("05.05.1990").Some?
    ensures replies == [
      "Contact added.", "1234567890",
      "Birthday added for jane.", "Birthday: 05.05.1990", "Birthday already set.", "Birthday: 05.05.1990"]
  {
    var book := new AddressBook();
    assert IsPhoneNumber("1234567890");
    var r0 := AddContact(["jane", "1234567890"], book);
    var jane := Contact("jane", ["1234567890"], None);
    assert book.Contents() == map["jane" := jane];
    var r1 := ShowPhone(["jane"], book);
    assert r1 == "1234567890";
    var r2 := AddBirthday(["jane", "05.05.1990"], book, parse);
    assert r2 == "Birthday added for jane.";
    jane := jane.(birthday := Some("05.05.1990"));
    assert book.Contents() == map["jane" := jane];
    var r3 := ShowBirthday(["jane"], book, "");
    assert r3 == "Birthday: 05.05.1990";
    var r4 := AddBirthday(["jane", "01.01.2000"], book, parse);
    assert r4 == BirthdayAlreadySetText;
    assert book.Contents() == map["jane" := jane];
    var r5 := ShowBirthday(["jane"], book, "");
    assert r5 == "Birthday: 05.05.1990";
    replies := [r0, r1, r2, r3, r4, r5];
  }
}
