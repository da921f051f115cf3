/**
 * The birthday reconciler of the couple store: the next occurrence of a
 * partner's birthday, and the replacement of that partner's birthday
 * events in the event collection by one fresh event.
 */
module Birthdays {
  import opened Common
  import opened Dates
  import opened EventList

  const BirthdayKind: string := "birthday"

  const TitleSuffix: string := "'s Birthday"

  /** The title of a partner's birthday event: the name, then `'s Birthday`. */
  function BirthdayTitle(name: string): (t: string)
    ensures |t| == |name| + |TitleSuffix|
    ensures t[..|name|] == name && t[|name|..] == TitleSuffix
  {
    name + TitleSuffix
  }

  /**
   * The description of a partner's birthday event. The source file holds the
   * party emoji's UTF-8 bytes read as Mac Roman, so the text ends with these
   * four characters rather than with U+1F389.
   */
  function BirthdayMessage(name: string): (m: string)
    ensures |m| == 15 + |name| + 6
    ensures m[..15] == "Happy Birthday " && m[15..15 + |name|] == name
    ensures m[15 + |name|..] == "! \U{F8FF}\U{FC}\U{E9}\U{E2}"
  {
    "Happy Birthday " + name + "! \U{F8FF}\U{FC}\U{E9}\U{E2}"
  }

  /** Two partners with different names get different birthday titles. */
  lemma BirthdayTitleInjective(a: string, b: string)
    requires BirthdayTitle(a) == BirthdayTitle(b)
    ensures a == b
  {
    assert |a| == |b|;
  }

  /**
   * The birthday's month and day in the current year at local midnight
   * (a February 29 in a common year is March 1, as JavaScript normalises it).
   */
  function ThisYearsBirthday(birthday: CivilDate, now: Instant): (c: CivilDate)
    requires ValidDate(birthday)
    ensures ValidDate(c) && c.year == now.date.year
    ensures birthday.day <= DaysInMonth(c.year, birthday.month) ==> c.month == birthday.month && c.day == birthday.day
    ensures birthday.day > DaysInMonth(c.year, birthday.month) ==> birthday.month == 2 && birthday.day == 29 && c.month == 3 && c.day == 1
  {
    LocalDate(now.date.year, birthday.month, birthday.day)
  }

  /**
   * The date of the birthday event: this year's occurrence, or, when that
   * midnight is strictly before now, the same month and day one year later
   * (`setFullYear` keeps the normalised month and day). It falls in this
   * year or the next, in the next exactly when this year's midnight has
   * passed, and its midnight is never before the current instant.
   */
  function NextBirthday(birthday: CivilDate, now: Instant): (r: CivilDate)
    requires ValidDate(birthday) && ValidInstant(now)
    ensures ValidDate(r)
    ensures r.year == now.date.year || r.year == now.date.year + 1
    ensures r.year == now.date.year + 1 <==> Midnight(ThisYearsBirthday(birthday, now)) < Millis(now)
    ensures r.year == now.date.year ==> r == ThisYearsBirthday(birthday, now)
    ensures r.year == now.date.year + 1 ==>
      var c := ThisYearsBirthday(birthday, now); r == LocalDate(now.date.year + 1, c.month, c.day)
    ensures Millis(now) <= Midnight(r)
  {
    var c := ThisYearsBirthday(birthday, now);
    if Midnight(c) < Millis(now) then
      var n := LocalDate(now.date.year + 1, c.month, c.day);
      LaterYearLaterDay(now.date, n);
      n
    else c
  }

  /**
   * The next birthday keeps the birthday's month and day; only a February 29
   * birthday may land on March 1 instead. For that birthday the result is
   * exact: a date moved to next year is always March 1 (`setFullYear` moves
   * the already normalised date), and one kept in this year is February 29
   * exactly when this year is a leap year.
   */
  lemma NextBirthdayMonthDay(birthday: CivilDate, now: Instant)
    requires ValidDate(birthday) && ValidInstant(now)
    ensures var r := NextBirthday(birthday, now);
      if birthday.month == 2 && birthday.day == 29
      then (r.month == 2 && r.day == 29 && IsLeap(r.year)) || (r.month == 3 && r.day == 1)
      else r.month == birthday.month && r.day == birthday.day
    ensures var r := NextBirthday(birthday, now);
      birthday.month == 2 && birthday.day == 29 ==>
        (r.year == now.date.year + 1 ==> r.month == 3 && r.day == 1) &&
        (r.year == now.date.year ==> (r.month == 2 && r.day == 29 <==> IsLeap(r.year)))
  {
    var c := ThisYearsBirthday(birthday, now);
    var r := NextBirthday(birthday, now);
    if r.year == now.date.year + 1 {
      assert r == LocalDate(now.date.year + 1, c.month, c.day);
    } else {
      assert r == c;
    }
  }

  /** A birthday that falls today, once today's midnight has passed, moves to next year. */
  lemma BirthdayTodayRollsForward(birthday: CivilDate, now: Instant)
    requires ValidDate(birthday) && ValidInstant(now)
    requires birthday.month == now.date.month && birthday.day == now.date.day
    requires now.msOfDay > 0
    ensures NextBirthday(birthday, now).year == now.date.year + 1
  {
  }

  /** A birthday on 1990-03-15 seen on 2024-06-01 is next celebrated on 2025-03-15. */
  lemma PassedBirthdayExample(msOfDay: int)
    requires 0 <= msOfDay < MsPerDay
    ensures NextBirthday(CivilDate(1990, 3, 15), Instant(CivilDate(2024, 6, 1), msOfDay)) == CivilDate(2025, 3, 15)
  {
  }

  /** A birthday on 1990-03-15 seen on 2024-01-01 is next celebrated on 2024-03-15. */
  lemma UpcomingBirthdayExample(msOfDay: int)
    requires 0 <= msOfDay < MsPerDay
    ensures NextBirthday(CivilDate(1990, 3, 15), Instant(CivilDate(2024, 1, 1), msOfDay)) == CivilDate(2024, 3, 15)
  {
  }

  /**
   * A February 29 birthday seen in a common year after March 1 is placed on
   * March 1 of the following leap year, not on its February 29.
   */
  lemma LeapDayBirthdayExample()
    ensures NextBirthday(CivilDate(2000, 2, 29), Instant(CivilDate(2023, 6, 1), 0)) == CivilDate(2024, 3, 1)
  {
  }

  /** Seen on 2021-06-01, a February 29 birthday is placed on March 1, 2022. */
  lemma LeapDayIntoCommonYearExample()
    ensures NextBirthday(CivilDate(2000, 2, 29), Instant(CivilDate(2021, 6, 1), 0)) == CivilDate(2022, 3, 1)
  {
  }

  /** The events the reconciler deletes for a partner: this couple's birthday events titled with that name. */
  predicate IsBirthdayEventOf(e: Event, coupleId: string, name: string) {
    e.coupleId == coupleId && e.kind == BirthdayKind && e.title == BirthdayTitle(name)
  }

  /** The event the reconciler inserts for a partner. */
  function BirthdayEvent(id: string, coupleId: string, name: string, birthday: CivilDate, now: Instant): (e: Event)
    requires ValidDate(birthday) && ValidInstant(now)
    ensures IsBirthdayEventOf(e, coupleId, name) && e.id == id
    ensures e.date == Midnight(NextBirthday(birthday, now)) && e.date >= Millis(now)
    ensures e.description == BirthdayMessage(name) && e.createdAt == Millis(now)
  {
    Event(id, coupleId, BirthdayTitle(name), Midnight(NextBirthday(birthday, now)), BirthdayKind,
          BirthdayMessage(name), Millis(now))
  }

  /** The event collection after one reconciler pass, and whether the pass completed. */
  datatype Reconciled = Reconciled(docs: seq<Event>, ok: bool)

  /**
   * One pass of the reconciler for a partner called `name`: delete every
   * birthday event of that name for the couple, then insert a fresh one.
   * A birthday that is not a valid date stops the pass after the deletes.
   */
  function ManageBirthdayEvent(docs: seq<Event>, coupleId: string, name: string,
                               birthday: Option<CivilDate>, now: Instant, newId: string): (r: Reconciled)
    requires birthday.Some? ==> ValidDate(birthday.value)
    requires ValidInstant(now)
    ensures r.ok <==> birthday.Some?
  {
    var remaining := Keep(docs, e => !IsBirthdayEventOf(e, coupleId, name));
    match birthday
    case None => Reconciled(remaining, false)
    case Some(b) => Reconciled(remaining + [BirthdayEvent(newId, coupleId, name, b, now)], true)
  }

  /** No element of `s` passes `p`, so filtering by `p` leaves nothing. */
  lemma KeepNone(s: seq<Event>, p: Event -> bool)
    requires forall x :: x in s ==> !p(x)
    ensures Keep(s, p) == []
  {
    if Keep(s, p) != [] {
      assert Keep(s, p)[0] in Keep(s, p);
    }
  }

  /** Filtering by a stronger test after a weaker one is filtering by the stronger one alone. */
  lemma {:induction false} KeepNested(s: seq<Event>, p: Event -> bool, q: Event -> bool)
    requires forall x :: q(x) ==> p(x)
    ensures Keep(Keep(s, p), q) == Keep(s, q)
  {
    if s != [] {
      var init, last := s[..|s| - 1], s[|s| - 1];
      KeepNested(init, p, q);
      if p(last) {
        KeepConcat(Keep(init, p), [last], q);
        assert Keep([last], q) == Keep([], q) + (if q(last) then [last] else []);
      }
    }
  }

  /**
   * After a successful pass exactly one birthday event of that name exists
   * for the couple: the fresh one, dated at the next birthday.
   */
  lemma ReconcileExactlyOne(docs: seq<Event>, coupleId: string, name: string,
                            b: CivilDate, now: Instant, newId: string)
    requires ValidDate(b) && ValidInstant(now)
    ensures var r := ManageBirthdayEvent(docs, coupleId, name, Some(b), now, newId);
      Keep(r.docs, e => IsBirthdayEventOf(e, coupleId, name)) == [BirthdayEvent(newId, coupleId, name, b, now)]
  {
    var notMine := (e: Event) => !IsBirthdayEventOf(e, coupleId, name);
    var mine := (e: Event) => IsBirthdayEventOf(e, coupleId, name);
    var remaining := Keep(docs, notMine);
    var newEvent := BirthdayEvent(newId, coupleId, name, b, now);
    KeepConcat(remaining, [newEvent], mine);
    KeepNone(remaining, mine);
    assert Keep([newEvent], mine) == Keep([], mine) + [newEvent];
  }

  /**
   * A pass for a birthday that is not a date still deletes: no birthday
   * event of that name is left for the couple, and the pass reports failure.
   */
  lemma FailedPassStillDeletes(docs: seq<Event>, coupleId: string, name: string, now: Instant, newId: string)
    requires ValidInstant(now)
    ensures var r := ManageBirthdayEvent(docs, coupleId, name, None, now, newId);
      !r.ok && Keep(r.docs, e => IsBirthdayEventOf(e, coupleId, name)) == []
  {
    var remaining := Keep(docs, e => !IsBirthdayEventOf(e, coupleId, name));
    KeepNone(remaining, e => IsBirthdayEventOf(e, coupleId, name));
  }

  /**
   * A pass, successful or not, leaves every other event where it was: the
   * events that are not this couple's birthday events of that name are the
   * same, in the same order.
   */
  lemma ReconcileLeavesOthers(docs: seq<Event>, coupleId: string, name: string,
                              birthday: Option<CivilDate>, now: Instant, newId: string)
    requires birthday.Some? ==> ValidDate(birthday.value)
    requires ValidInstant(now)
    ensures var r := ManageBirthdayEvent(docs, coupleId, name, birthday, now, newId);
      var notMine := (e: Event) => !IsBirthdayEventOf(e, coupleId, name);
      Keep(r.docs, notMine) == Keep(docs, notMine)
  {
    var notMine := (e: Event) => !IsBirthdayEventOf(e, coupleId, name);
    var remaining := Keep(docs, notMine);
    KeepNested(docs, notMine, notMine);
    if birthday.Some? {
      var newEvent := BirthdayEvent(newId, coupleId, name, birthday.value, now);
      KeepConcat(remaining, [newEvent], notMine);
      assert Keep([newEvent], notMine) == Keep([], notMine);
    }
  }

  /**
   * Running the pass a second time with the same name, birthday and clock
   * gives what one run gives: the other events and one newEvent birthday event.
   */
  lemma ReconcileIdempotent(docs: seq<Event>, coupleId: string, name: string,
                            birthday: Option<CivilDate>, now: Instant, id1: string, id2: string)
    requires birthday.Some? ==> ValidDate(birthday.value)
    requires ValidInstant(now)
    ensures var once := ManageBirthdayEvent(docs, coupleId, name, birthday, now, id1);
      ManageBirthdayEvent(once.docs, coupleId, name, birthday, now, id2)
        == ManageBirthdayEvent(docs, coupleId, name, birthday, now, id2)
  {
    ReconcileLeavesOthers(docs, coupleId, name, birthday, now, id1);
  }

  /**
   * A pass for another name keeps this name's birthday events: the
   * reconciler of partner two does not touch partner one's event unless the
   * two names are the same.
   */
  lemma ReconcileKeepsOtherNames(docs: seq<Event>, coupleId: string, name: string, other: string,
                                 birthday: Option<CivilDate>, now: Instant, newId: string)
    requires birthday.Some? ==> ValidDate(birthday.value)
    requires ValidInstant(now)
    requires name != other
    ensures var r := ManageBirthdayEvent(docs, coupleId, other, birthday, now, newId);
      var mine := (e: Event) => IsBirthdayEventOf(e, coupleId, name);
      Keep(r.docs, mine) == Keep(docs, mine)
  {
    var mine := (e: Event) => IsBirthdayEventOf(e, coupleId, name);
    var notTheirs := (e: Event) => !IsBirthdayEventOf(e, coupleId, other);
    forall x | mine(x) ensures notTheirs(x) {
      if !notTheirs(x) {
        BirthdayTitleInjective(name, other);
      }
    }
    KeepNested(docs, notTheirs, mine);
    if birthday.Some? {
      var newEvent := BirthdayEvent(newId, coupleId, other, birthday.value, now);
      KeepConcat(Keep(docs, notTheirs), [newEvent], mine);
      if mine(newEvent) {
        BirthdayTitleInjective(name, other);
      }
      assert Keep([newEvent], mine) == Keep([], mine);
    }
  }
}
