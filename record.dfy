/** One contact: a name, an ordered list of phones changed in place, and a
    birthday that can be set once. */
module Contacts {
  import opened Fields
  import opened Text

  /** The value a Record holds at one moment. */
  datatype Contact = Contact(name: string, phones: seq<Phone>, birthday: Option<string>)

  /** `Record.show_birthday`. */
  function BirthdayText(b: Option<string>): string {
    match b
    case None => "No birthday set."
    case Some(v) => "Birthday: " + v
  }

  /** The birthday description determines the stored birthday: two birthday
      states are described alike exactly when they are equal. */
  lemma BirthdayTextInjective(a: Option<string>, b: Option<string>)
    ensures BirthdayText(a) == BirthdayText(b) <==> a == b
  {
    var n := |"Birthday: "|;
    if a.None? && b.Some? {
      assert BirthdayText(a)[0] != BirthdayText(b)[0];
    } else if a.Some? && b.None? {
      assert BirthdayText(a)[0] != BirthdayText(b)[0];
    } else if a.Some? && b.Some? {
      assert BirthdayText(a)[n..] == a.value;
      assert BirthdayText(b)[n..] == b.value;
    }
  }

  /** `Record.__str__`: the name, the phones joined by "; ", then the birthday
      description with no separator before it. */
  function Render(c: Contact): string {
    "Contact name: " + c.name + ", phones: " + Join(c.phones, "; ") + BirthdayText(c.birthday)
  }

  /** The phone list of a rendering splits back into the phones it came from. */
  lemma PhoneListRoundTrip(ps: seq<Phone>)
    requires ps != []
    ensures Split(Join(ps, "; "), "; ") == ps
  {
    forall i | 0 <= i < |ps| ensures "; "[0] !in ps[i] {
      PhoneHasNoSeparator(ps[i], ';');
    }
    SplitOfJoin(ps, "; ");
  }

  /** Index of the first phone equal to `p`, as the loops of `remove_phone`,
      `edit_phone` and `find_phone` find it. */
  function FirstIndex(ps: seq<Phone>, p: string): (r: Option<nat>)
    ensures r.None? <==> p !in ps
    ensures r.Some? ==> r.value < |ps| && ps[r.value] == p
    ensures r.Some? ==> forall j :: 0 <= j < r.value ==> ps[j] != p
  {
    if ps == [] then None
    else if ps[0] == p then Some(0)
    else match FirstIndex(ps[1..], p)
      case None => None
      case Some(k) => Some(k + 1)
  }

  /** `list.remove` of the first phone equal to `p`; no change without one. */
  function RemoveFirst(ps: seq<Phone>, p: string): seq<Phone> {
    match FirstIndex(ps, p)
    case None => ps
    case Some(i) => ps[..i] + ps[i + 1..]
  }

  /** Removing takes away exactly one occurrence of `p` and nothing else. */
  lemma RemoveFirstCounts(ps: seq<Phone>, p: Phone)
    ensures multiset(RemoveFirst(ps, p)) == multiset(ps) - multiset{p}
  {
    match FirstIndex(ps, p)
    case None =>
      assert multiset(ps)[p] == 0;
    case Some(i) =>
      assert ps == ps[..i] + [ps[i]] + ps[i + 1..];
      assert multiset(ps) == multiset(ps[..i]) + multiset{p} + multiset(ps[i + 1..]);
  }

  /** Removing a phone just appended to a list that did not hold it gives the
      list back: `remove_phone` undoes `add_phone`. */
  lemma RemoveUndoesAppend(ps: seq<Phone>, p: Phone)
    requires p !in ps
    ensures RemoveFirst(ps + [p], p) == ps
  {
    var i := FirstIndex(ps + [p], p).value;
    assert forall j :: 0 <= j < |ps| ==> (ps + [p])[j] != p;
    assert (ps + [p])[..i] == ps;
  }

  /** The phones left by a removal keep their relative order: every phone
      before the removed one stays in place, every phone after it moves one
      place to the front. */
  lemma RemoveFirstKeepsOrder(ps: seq<Phone>, p: string, i: nat)
    requires FirstIndex(ps, p) == Some(i)
    ensures |RemoveFirst(ps, p)| == |ps| - 1
    ensures forall j :: 0 <= j < i ==> RemoveFirst(ps, p)[j] == ps[j]
    ensures forall j :: i <= j < |ps| - 1 ==> RemoveFirst(ps, p)[j] == ps[j + 1]
  {
  }

  class Record {
    const name: string
    var phones: seq<Phone>
    var birthday: Option<string>

    function View(): Contact
      reads this
    {
      Contact(name, phones, birthday)
    }

    /** `Record(name, phone)`: the phone is added when given, and silently
        dropped when malformed (the constructor ignores add_phone's reply). */
    constructor (name: string, phone: string)
      ensures View() == Contact(name, if IsPhoneNumber(phone) then [phone] else [], None)
    {
      this.name := name;
      phones := [];
      birthday := None;
      new;
      if phone != "" {
        var _ := AddPhone(phone);
      }
    }

    /** `add_phone`: appends a valid phone and confirms it; reports a malformed
        one inline and keeps the list. */
    method AddPhone(phone: string) returns (msg: string)
      modifies this`phones
      ensures IsPhoneNumber(phone) ==> phones == old(phones) + [phone] && msg == "Phone " + phone + " added."
      ensures !IsPhoneNumber(phone) ==> phones == old(phones) && msg == PhoneFormatText
    {
      match NewPhone(phone)
      case Ok(p) =>
        phones := phones + [p];
        msg := "Phone " + p + " added.";
      case Err(e) =>
        msg := e.message;
    }

    /** `remove_phone`: removes the first phone equal to the argument. */
    method RemovePhone(phone: string) returns (msg: string)
      modifies this`phones
      ensures phones == RemoveFirst(old(phones), phone)
      ensures msg == if phone in old(phones) then "Phone " + phone + " removed." else "Phone " + phone + " not found."
    {
      var i := 0;
      while i < |phones|
        invariant 0 <= i <= |phones|
        invariant phones == old(phones)
        invariant forall j :: 0 <= j < i ==> phones[j] != phone
      {
        if phones[i] == phone {
          phones := phones[..i] + phones[i + 1..];
          return "Phone " + phone + " removed.";
        }
        i := i + 1;
      }
      return "Phone " + phone + " not found.";
    }

    /** `edit_phone`: replaces the first phone equal to `oldPhone` by a valid
        `newPhone` in the same place. */
    method EditPhone(oldPhone: string, newPhone: string) returns (msg: string)
      modifies this`phones
      ensures FirstIndex(old(phones), oldPhone).None? ==>
        phones == old(phones) && msg == "Phone " + oldPhone + " not found."
      ensures FirstIndex(old(phones), oldPhone).Some? && !IsPhoneNumber(newPhone) ==>
        phones == old(phones) && msg == PhoneFormatText
      ensures FirstIndex(old(phones), oldPhone).Some? && IsPhoneNumber(newPhone) ==>
        phones == old(phones)[FirstIndex(old(phones), oldPhone).value := newPhone] &&
        msg == "Phone " + oldPhone + " edited to " + newPhone + "."
    {
      var i := 0;
      while i < |phones|
        invariant 0 <= i <= |phones|
        invariant phones == old(phones)
        invariant forall j :: 0 <= j < i ==> phones[j] != oldPhone
      {
        if phones[i] == oldPhone {
          match NewPhone(newPhone)
          case Ok(p) =>
            phones := phones[i := p];
            return "Phone " + oldPhone + " edited to " + newPhone + ".";
          case Err(e) =>
            return e.message;
        }
        i := i + 1;
      }
      return "Phone " + oldPhone + " not found.";
    }

    /** `find_phone`: the first phone equal to the argument, or None. */
    method FindPhone(phone: string) returns (r: Option<Phone>)
      ensures r.Some? <==> phone in phones
      ensures r.Some? ==> r.value == phone
    {
      var i := 0;
      while i < |phones|
        invariant 0 <= i <= |phones|
        invariant forall j :: 0 <= j < i ==> phones[j] != phone
      {
        if phones[i] == phone {
          return Some(phones[i]);
        }
        i := i + 1;
      }
      return None;
    }

    /** `add_birthday`: sets the birthday once; a second attempt raises
        "Birthday already set." and a malformed date raises the date-format
        error, both leaving the birthday as it was. */
    method AddBirthday(date: string, parse: DateParser) returns (err: Option<Error>)
      modifies this`birthday
      ensures old(birthday).Some? ==> birthday == old(birthday) && err == Some(ValueError(BirthdayAlreadySetText))
      ensures old(birthday).None? && parse(date).Some? ==> birthday == Some(date) && err == None
      ensures old(birthday).None? && parse(date).None? ==> birthday == None && err == Some(ValueError(DateFormatText))
    {
      if birthday.None? {
        match NewBirthday(parse, date)
        case Ok(b) =>
          birthday := Some(b);
          err := None;
        case Err(e) =>
          err := Some(e);
      } else {
        err := Some(ValueError(BirthdayAlreadySetText));
      }
    }

    /** `show_birthday`. */
    function ShowBirthday(): string
      reads this
    {
      BirthdayText(birthday)
    }

    /** `__str__`. */
    function ToString(): string
      reads this
    {
      Render(View())
    }
  }
}
