/** The address book: records keyed by name in insertion order, and the
    query for birthdays in the week after next. */
module Book {
  import opened Fields
  import opened Contacts

  // ------------------------------------------------------ dates and window

  /** A `datetime`: the proleptic Gregorian day number (1 is 1 January of
      year 1) and the microseconds since midnight. */
  datatype DateTime = DateTime(ordinal: int, micros: nat)

  /** `date.weekday()`: Monday is 0 and Sunday is 6; day 1 was a Monday. */
  function Weekday(ordinal: int): int {
    (ordinal + 6) % 7
  }

  /** `datetime` comparison `a <= b`. */
  predicate NotAfter(a: DateTime, b: DateTime) {
    a.ordinal < b.ordinal || (a.ordinal == b.ordinal && a.micros <= b.micros)
  }

  /** `today + timedelta(days=(6 - today.weekday()) + 7)`: keeps the time of day. */
  function WindowStart(today: DateTime): DateTime {
    DateTime(today.ordinal + (6 - Weekday(today.ordinal)) + 7, today.micros)
  }

  /** `next_week_start + timedelta(days=6)`. */
  function WindowEnd(today: DateTime): DateTime {
    DateTime(WindowStart(today).ordinal + 6, today.micros)
  }

  /** `next_week_start <= birthday_date <= next_week_end` for a date that
      `strptime` returns at midnight. */
  predicate InNextWeek(date: int, today: DateTime) {
    NotAfter(WindowStart(today), DateTime(date, 0)) && NotAfter(DateTime(date, 0), WindowEnd(today))
  }

  /** The window is seven days long, begins on the Sunday that ends next week
      (7 to 13 days after today) and ends on the Saturday after it. */
  lemma WindowShape(today: DateTime)
    ensures Weekday(WindowStart(today).ordinal) == 6
    ensures 7 <= WindowStart(today).ordinal - today.ordinal <= 13
    ensures WindowEnd(today).ordinal - WindowStart(today).ordinal == 6
  {
    var o := today.ordinal;
    var q := (o + 6) / 7;
    assert o + 6 == 7 * q + Weekday(o);
    assert WindowStart(today).ordinal == 7 * (q + 1);
    assert (7 * (q + 1) + 6) % 7 == 6;
  }

  /** Which dates match: the end day always, the start day only when today's
      time of day is exactly midnight. */
  lemma InNextWeekBounds(date: int, today: DateTime)
    ensures InNextWeek(date, today) <==>
      (WindowStart(today).ordinal < date || (WindowStart(today).ordinal == date && today.micros == 0)) &&
      date <= WindowEnd(today).ordinal
  {
  }

  /** A date on or before today never matches: the query compares full dates,
      birth year included, so a birthday in the past is never reported. */
  lemma PastDateNeverMatches(date: int, today: DateTime)
    requires date <= today.ordinal
    ensures !InNextWeek(date, today)
  {
    WindowShape(today);
  }

  // ------------------------------------------------------- the query

  /** Whether a contact is reported by `get_birthdays_per_week`. */
  predicate IsUpcoming(c: Contact, parse: DateParser, today: DateTime) {
    c.birthday.Some? && parse(c.birthday.value).Some? && InNextWeek(parse(c.birthday.value).value, today)
  }

  /** The (name, birthday) pairs reported for contacts listed in `cs`, in order. */
  function Upcoming(cs: seq<Contact>, parse: DateParser, today: DateTime): seq<(string, string)> {
    if cs == [] then []
    else
      var c := cs[|cs| - 1];
      Upcoming(cs[..|cs| - 1], parse, today) + if IsUpcoming(c, parse, today) then [(c.name, c.birthday.value)] else []
  }

  /** Every (name, birthday) pair of the contacts that have a birthday, in order. */
  function BirthdayPairs(cs: seq<Contact>): seq<(string, string)> {
    if cs == [] then []
    else
      var c := cs[|cs| - 1];
      BirthdayPairs(cs[..|cs| - 1]) + if c.birthday.Some? then [(c.name, c.birthday.value)] else []
  }

  /** `xs` is `ys` with some elements deleted, order kept. */
  predicate IsSubsequence<T(==)>(xs: seq<T>, ys: seq<T>) {
    if ys == [] then xs == []
    else
      IsSubsequence(xs, ys[..|ys| - 1]) ||
      (xs != [] && xs[|xs| - 1] == ys[|ys| - 1] && IsSubsequence(xs[..|xs| - 1], ys[..|ys| - 1]))
  }

  /** Reporting one more contact appends at most its own pair. */
  lemma UpcomingSnoc(cs: seq<Contact>, c: Contact, parse: DateParser, today: DateTime)
    ensures Upcoming(cs + [c], parse, today) ==
      Upcoming(cs, parse, today) + if IsUpcoming(c, parse, today) then [(c.name, c.birthday.value)] else []
  {
    assert (cs + [c])[..|cs|] == cs;
  }

  /** A pair is reported exactly when some listed contact has that name and
      that birthday, and the birthday parses to a date in the window. */
  lemma {:induction false} UpcomingMembers(cs: seq<Contact>, parse: DateParser, today: DateTime, p: (string, string))
    ensures p in Upcoming(cs, parse, today) <==>
      exists j :: 0 <= j < |cs| && cs[j].name == p.0 && cs[j].birthday == Some(p.1) && IsUpcoming(cs[j], parse, today)
  {
    if cs != [] {
      var init := cs[..|cs| - 1];
      UpcomingMembers(init, parse, today, p);
      assert forall j :: 0 <= j < |init| ==> init[j] == cs[j];
      var c := cs[|cs| - 1];
      if IsUpcoming(c, parse, today) && p == (c.name, c.birthday.value) {
        assert cs[|cs| - 1].name == p.0 && cs[|cs| - 1].birthday == Some(p.1);
      }
    }
  }

  /** The report keeps the listing order: it is a subsequence of all the
      (name, birthday) pairs. */
  lemma {:induction false} UpcomingIsSubsequence(cs: seq<Contact>, parse: DateParser, today: DateTime)
    ensures IsSubsequence(Upcoming(cs, parse, today), BirthdayPairs(cs))
  {
    if cs != [] {
      var init := cs[..|cs| - 1];
      UpcomingIsSubsequence(init, parse, today);
      var u, b := Upcoming(init, parse, today), BirthdayPairs(init);
      var c := cs[|cs| - 1];
      if IsUpcoming(c, parse, today) {
        var p := (c.name, c.birthday.value);
        assert (u + [p])[..|u|] == u;
        assert (b + [p])[..|b|] == b;
      } else if c.birthday.Some? {
        var p := (c.name, c.birthday.value);
        assert (b + [p])[..|b|] == b;
        assert u + [] == u;
      } else {
        assert u + [] == u;
        assert b + [] == b;
      }
    }
  }

  // ------------------------------------------------------- the address book

  /** `ks` without `k`, order kept (what `del` does to a dict's key order). */
  function Without(ks: seq<string>, k: string): (r: seq<string>)
    ensures forall x :: x in r <==> x in ks && x != k
    ensures (forall i, j :: 0 <= i < j < |ks| ==> ks[i] != ks[j]) ==> forall i, j :: 0 <= i < j < |r| ==> r[i] != r[j]
    ensures IsSubsequence(r, ks)
  {
    if ks == [] then []
    else
      var init, last := ks[..|ks| - 1], ks[|ks| - 1];
      var rest := Without(init, k);
      assert (forall i, j :: 0 <= i < j < |ks| ==> ks[i] != ks[j]) ==> last !in init;
      if last == k then
        assert rest + [] == rest;
        rest
      else
        assert (rest + [last])[..|rest|] == rest;
        rest + [last]
  }

  class AddressBook {
    var data: map<string, Record>
    /** The keys of `data` in insertion order, as a Python dict keeps them. */
    var order: seq<string>

    ghost predicate Valid()
      reads this
    {
      && (forall k :: k in data <==> k in order)
      && (forall i, j :: 0 <= i < j < |order| ==> order[i] != order[j])
      && (forall k :: k in data ==> data[k].name == k)
    }

    /** What the book holds, by name. */
    ghost function Contents(): map<string, Contact>
      reads this, data.Values
    {
      map k | k in data :: data[k].View()
    }

    /** The contacts of the records named in `ks`, in that order. */
    ghost function ViewsOf(ks: seq<string>): (cs: seq<Contact>)
      reads this, data.Values
      requires forall k :: k in ks ==> k in data
      ensures |cs| == |ks|
      ensures forall i :: 0 <= i < |ks| ==> cs[i] == data[ks[i]].View()
    {
      if ks == [] then [] else ViewsOf(ks[..|ks| - 1]) + [data[ks[|ks| - 1]].View()]
    }

    /** What the book holds, in insertion order (`data.values()`). */
    ghost function Entries(): seq<Contact>
      reads this, data.Values
      requires Valid()
    {
      ViewsOf(order)
    }

    /** Viewing one more key of `ks` appends that record's contact. */
    lemma ViewsOfSnoc(ks: seq<string>, i: nat)
      requires i < |ks| && forall k :: k in ks ==> k in data
      ensures ViewsOf(ks[..i + 1]) == ViewsOf(ks[..i]) + [data[ks[i]].View()]
    {
      assert ks[..i + 1][..i] == ks[..i];
    }

    /** The book is empty exactly when its key order is. */
    lemma EmptyOrder()
      requires Valid()
      ensures data == map[] <==> order == []
    {
      if order != [] {
        assert order[0] in data;
      }
      if data != map[] {
        var k :| k in data;
        assert k in order;
      }
    }

    constructor ()
      ensures Valid() && data == map[] && order == []
    {
      data := map[];
      order := [];
    }

    /** `add_record`: stores the record under its name, replacing any record
        of that name in its old position. */
    method AddRecord(record: Record)
      requires Valid()
      modifies this
      ensures Valid()
      ensures data == old(data)[record.name := record]
      ensures Contents() == old(Contents())[record.name := record.View()]
      ensures order == if record.name in old(data) then old(order) else old(order) + [record.name]
    {
      ghost var before, v := Contents(), record.View();
      if record.name !in data {
        order := order + [record.name];
      }
      data := data[record.name := record];
      assert Contents().Keys == before.Keys + {record.name};
      forall k | k in data
        ensures Contents()[k] == before[record.name := v][k]
      {
        if k != record.name {
          assert data[k] == old(data)[k];
        }
      }
    }

    /** `find`: the record stored under `name`, or null. */
    function Find(name: string): (r: Record?)
      reads this
      requires Valid()
      ensures r != null <==> name in data
      ensures r != null ==> r == data[name] && r.name == name
    {
      if name in data then data[name] else null
    }

    /** `delete`: removes only the entry for `name`. */
    method Delete(name: string) returns (msg: string)
      requires Valid()
      modifies this
      ensures Valid()
      ensures data == old(data) - {name}
      ensures order == Without(old(order), name)
      ensures msg == if name in old(data) then "Contact " + name + " deleted." else "Contact " + name + " not found."
    {
      if name in data {
        data := data - {name};
        order := Without(order, name);
        return "Contact " + name + " deleted.";
      }
      assert Without(order, name) == order by { WithoutAbsent(order, name); }
      return "Contact " + name + " not found.";
    }

    /** `get_birthdays_per_week`, with the clock reading and `strptime` given
        as parameters. */
    method GetBirthdaysPerWeek(today: DateTime, parse: DateParser) returns (r: seq<(string, string)>)
      requires Valid()
      ensures r == Upcoming(Entries(), parse, today)
    {
      r := [];
      var i := 0;
      while i < |order|
        invariant 0 <= i <= |order|
        invariant r == Upcoming(ViewsOf(order[..i]), parse, today)
      {
        var record := data[order[i]];
        ViewsOfSnoc(order, i);
        UpcomingSnoc(ViewsOf(order[..i]), record.View(), parse, today);
        if record.birthday.Some? {
          var date := parse(record.birthday.value);
          if date.Some? && InNextWeek(date.value, today) {
            r := r + [(record.name, record.birthday.value)];
          }
        }
        i := i + 1;
      }
      assert order[..i] == order;
    }
  }

  /** Removing a key that is not there changes nothing. */
  lemma {:induction false} WithoutAbsent(ks: seq<string>, k: string)
    requires k !in ks
    ensures Without(ks, k) == ks
  {
    if ks != [] {
      WithoutAbsent(ks[..|ks| - 1], k);
      assert ks == ks[..|ks| - 1] + [ks[|ks| - 1]];
    }
  }
}
