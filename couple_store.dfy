/**
 * The couple/events store: the cached couple profile, the local event list
 * and the two database collections behind them (`couples` and `events`),
 * with the operations of the store that change them.
 *
 * A document database call becomes an update of a collection field; the
 * clock becomes an `Instant` parameter and a document id the database
 * would generate becomes a parameter.
 */
module CoupleData {
  import opened Common
  import opened Dates
  import opened EventList
  import opened Birthdays

  /** A field value of a profile document: a string, a database timestamp (in milliseconds) or `null`. */
  datatype Value = Text(s: string) | Stamp(ms: int) | Null

  /** A profile document's fields, or an update to them, by field name. */
  type Fields = map<string, Value>

  const IdKey: string := "id"
  const UserId1Key: string := "userId1"
  const UserId2Key: string := "userId2"
  const Partner1NameKey: string := "partner1Name"
  const Partner2NameKey: string := "partner2Name"
  const Partner1PhotoKey: string := "partner1Photo"
  const Partner2PhotoKey: string := "partner2Photo"
  const Partner1BirthdayKey: string := "partner1Birthday"
  const Partner2BirthdayKey: string := "partner2Birthday"
  const FirstDayKey: string := "firstDayTogether"
  const CreatedAtKey: string := "createdAt"

  /** A document of the `couples` collection. */
  datatype CoupleDoc = CoupleDoc(id: string, fields: Fields)

  datatype Failure =
    | NotFound     // the profile to update does not exist
    | InvalidDate  // a date string that is not a date
  datatype Result<T> = Ok(value: T) | Err(error: Failure)

  /** JavaScript truthiness of `data[key]`: present, and neither the empty string nor `null`. */
  predicate Truthy(data: Fields, key: string): (b: bool)
    ensures b ==> key in data
    ensures key in data && data[key].Stamp? ==> b
    ensures key in data && data[key].Text? ==> (b <==> data[key].s != "")
    ensures key in data && data[key].Null? ==> !b
  {
    key in data && data[key] != Text("") && data[key] != Null
  }

  function Lookup(data: Fields, key: string): Option<Value> {
    if key in data then Some(data[key]) else None
  }

  // ----- profile lookup -----

  /** The cached form of a document, `{ id: doc.id, ...doc.data() }`: a stored `id` field wins. */
  function Snapshot(doc: CoupleDoc): (p: Fields)
    ensures p.Keys == doc.fields.Keys + {IdKey}
    ensures forall k :: k in doc.fields ==> p[k] == doc.fields[k]
    ensures IdKey !in doc.fields ==> p[IdKey] == Text(doc.id)
  {
    map[IdKey := Text(doc.id)] + doc.fields
  }

  predicate HasPartner(doc: CoupleDoc, key: string, userId: string) {
    key in doc.fields && doc.fields[key] == Text(userId)
  }

  /** The position of the first document whose `key` field is the user, as a query returns them. */
  function FirstWith(couples: seq<CoupleDoc>, key: string, userId: string): (r: Option<nat>)
    ensures r.Some? ==> r.value < |couples| && HasPartner(couples[r.value], key, userId)
    ensures r.Some? ==> forall j :: 0 <= j < r.value ==> !HasPartner(couples[j], key, userId)
    ensures r.None? <==> forall j :: 0 <= j < |couples| ==> !HasPartner(couples[j], key, userId)
  {
    if couples == [] then None
    else if HasPartner(couples[0], key, userId) then Some(0)
    else match FirstWith(couples[1..], key, userId)
      case None => None
      case Some(i) => Some(i + 1)
  }

  /**
   * `getCoupleData`: the first profile naming the user as partner one, else
   * the first naming the user as partner two, else none.
   */
  function FindProfile(couples: seq<CoupleDoc>, userId: string): (r: Option<Fields>)
    ensures r.None? <==> forall j :: 0 <= j < |couples| ==>
      !HasPartner(couples[j], UserId1Key, userId) && !HasPartner(couples[j], UserId2Key, userId)
    ensures (exists j :: 0 <= j < |couples| && HasPartner(couples[j], UserId1Key, userId)) ==>
      exists j :: 0 <= j < |couples| && HasPartner(couples[j], UserId1Key, userId) && r == Some(Snapshot(couples[j]))
    ensures r.Some? ==> exists j :: (0 <= j < |couples| && r.value == Snapshot(couples[j]) &&
      (HasPartner(couples[j], UserId1Key, userId) || HasPartner(couples[j], UserId2Key, userId)))
  {
    match FirstWith(couples, UserId1Key, userId)
    case Some(i) => Some(Snapshot(couples[i]))
    case None =>
      match FirstWith(couples, UserId2Key, userId)
      case Some(i) => Some(Snapshot(couples[i]))
      case None => None
  }

  // ----- profile creation -----

  /** What the setup form passes to `createCoupleProfile`; optional fields may be missing. */
  datatype ProfileInput = ProfileInput(
    userId2: Option<string>,
    partner1Name: string,
    partner2Name: string,
    partner1Photo: Option<string>,
    partner2Photo: Option<string>,
    firstDayTogether: string)

  /** The fields of a new profile: the creator is partner one; missing ids and photos become `''`. */
  function NewProfileFields(userId: string, input: ProfileInput, firstDay: CivilDate, now: Instant): (f: Fields)
    requires ValidDate(firstDay) && ValidInstant(now)
    ensures f.Keys == {UserId1Key, UserId2Key, Partner1NameKey, Partner2NameKey,
                       Partner1PhotoKey, Partner2PhotoKey, FirstDayKey, CreatedAtKey}
    ensures f[UserId1Key] == Text(userId)
    ensures f[UserId2Key] == Text(OrEmpty(input.userId2))
    ensures f[Partner1PhotoKey] == Text(OrEmpty(input.partner1Photo))
    ensures f[Partner2PhotoKey] == Text(OrEmpty(input.partner2Photo))
    ensures f[Partner1NameKey] == Text(input.partner1Name) && f[Partner2NameKey] == Text(input.partner2Name)
    ensures f[FirstDayKey] == Stamp(Midnight(firstDay)) && f[CreatedAtKey] == Stamp(Millis(now))
  {
    map[UserId1Key := Text(userId),
        UserId2Key := Text(OrEmpty(input.userId2)),
        Partner1NameKey := Text(input.partner1Name),
        Partner2NameKey := Text(input.partner2Name),
        Partner1PhotoKey := Text(OrEmpty(input.partner1Photo)),
        Partner2PhotoKey := Text(OrEmpty(input.partner2Photo)),
        FirstDayKey := Stamp(Midnight(firstDay)),
        CreatedAtKey := Stamp(Millis(now))]
  }

  /** A profile just created by a user is found when that user looks a profile up. */
  lemma CreatedProfileIsFound(couples: seq<CoupleDoc>, userId: string, doc: CoupleDoc)
    requires HasPartner(doc, UserId1Key, userId)
    ensures var r := FindProfile(couples + [doc], userId);
      r.Some? && UserId1Key in r.value && r.value[UserId1Key] == Text(userId)
  {
    var all := couples + [doc];
    assert HasPartner(all[|couples|], UserId1Key, userId);
    var r := FindProfile(all, userId);
    var j :| 0 <= j < |all| && HasPartner(all[j], UserId1Key, userId) && r == Some(Snapshot(all[j]));
    assert UserId1Key in all[j].fields;
  }

  // ----- profile update -----

  /** The cached profile after an update, `{ ...cached, ...data }`. */
  function Merge(cache: Option<Fields>, data: Fields): (r: Fields)
    ensures r.Keys == data.Keys + (if cache.Some? then cache.value.Keys else {})
    ensures forall k :: k in data ==> r[k] == data[k]
    ensures forall k :: k in r && k !in data ==> cache.Some? && r[k] == cache.value[k]
  {
    (if cache.Some? then cache.value else map[]) + data
  }

  /** The decimal digits of `n`. */
  function DecimalText(n: nat): string {
    var digit := ['0' + ((n % 10) as char)];
    if n < 10 then digit else DecimalText(n / 10) + digit
  }

  function IntText(i: int): string {
    if i < 0 then "-" + DecimalText(-i) else DecimalText(i)
  }

  /** A value as a JavaScript template literal shows it (`undefined` when missing). */
  function TemplateText(v: Option<Value>): (r: string)
    ensures v.Some? && v.value.Text? ==> r == v.value.s
    ensures v.None? ==> r == "undefined"
    ensures v == Some(Null) ==> r == "null"
    ensures v.Some? && v.value.Stamp? ==> |r| > 18 && r[..18] == "Timestamp(seconds="
  {
    match v
    case None => "undefined"
    case Some(Text(s)) => s
    case Some(Null) => "null"
    case Some(Stamp(ms)) =>
      "Timestamp(seconds=" + IntText(ms / 1000) + ", nanoseconds=" + IntText(ms % 1000 * 1_000_000) + ")"
  }

  /**
   * The name used for a partner's birthday: `data.name || merged.name`, so
   * the updated name when the update carries a non-empty one, and otherwise
   * the profile's name (`undefined` when it has none).
   */
  function ResolvedName(data: Fields, merged: Fields, key: string): (name: string)
    ensures key in data && data[key].Text? && data[key].s != "" ==> name == data[key].s
    ensures !Truthy(data, key) && key in merged && merged[key].Text? ==> name == merged[key].s
    ensures !Truthy(data, key) && key !in merged ==> name == "undefined"
  {
    if Truthy(data, key) then TemplateText(Some(data[key])) else TemplateText(Lookup(merged, key))
  }

  /** The name the reconciler uses is always the partner's name in the merged profile. */
  lemma ResolvedNameIsMergedName(cache: Option<Fields>, data: Fields, key: string)
    ensures ResolvedName(data, Merge(cache, data), key) == TemplateText(Lookup(Merge(cache, data), key))
  {
  }

  /** A birthday field as JavaScript's `new Date(value)` reads it. */
  function BirthdayDate(v: Value): (r: Option<CivilDate>)
    ensures r.Some? ==> ValidDate(r.value)
    ensures r.Some? ==> (v.Text? && IsoShaped(v.s) &&
      r.value == CivilDate(DecimalValue(v.s[..4]), DecimalValue(v.s[5..7]), DecimalValue(v.s[8..])))
    ensures (v.Text? && IsoShaped(v.s) &&
      ValidDate(CivilDate(DecimalValue(v.s[..4]), DecimalValue(v.s[5..7]), DecimalValue(v.s[8..])))) ==> r.Some?
    ensures !v.Text? ==> r.None?
  {
    match v
    case Text(s) => ParseIsoDate(s)
    case Stamp(_) => None
    case Null => None
  }

  /**
   * A birthday saved as `1990-03-15` on 2024-06-01 becomes an event on
   * March 15, 2025, and on 2024-01-01 one on March 15, 2024.
   */
  lemma BirthdayStringExample(msOfDay: int)
    requires 0 <= msOfDay < MsPerDay
    ensures BirthdayDate(Text("1990-03-15")) == Some(CivilDate(1990, 3, 15))
    ensures NextBirthday(CivilDate(1990, 3, 15), Instant(CivilDate(2024, 6, 1), msOfDay)) == CivilDate(2025, 3, 15)
    ensures NextBirthday(CivilDate(1990, 3, 15), Instant(CivilDate(2024, 1, 1), msOfDay)) == CivilDate(2024, 3, 15)
  {
    ParseIsoDateExample();
    PassedBirthdayExample(msOfDay);
    UpcomingBirthdayExample(msOfDay);
  }

  /**
   * The birthday part of `updateCoupleProfile`: a pass for partner one when
   * the update carries a truthy `partner1Birthday`, then one for partner two
   * when it carries a truthy `partner2Birthday`; a failed pass stops it.
   */
  function ReconcileBirthdays(docs: seq<Event>, coupleId: string, data: Fields, merged: Fields,
                              now: Instant, id1: string, id2: string): (r: Reconciled)
    requires ValidInstant(now)
    ensures !Truthy(data, Partner1BirthdayKey) && !Truthy(data, Partner2BirthdayKey) ==> r == Reconciled(docs, true)
    ensures r.ok <==>
      (Truthy(data, Partner1BirthdayKey) ==> BirthdayDate(data[Partner1BirthdayKey]).Some?) &&
      (Truthy(data, Partner2BirthdayKey) ==> BirthdayDate(data[Partner2BirthdayKey]).Some?)
  {
    if Truthy(data, Partner1BirthdayKey) || Truthy(data, Partner2BirthdayKey) then
      var first :=
        if Truthy(data, Partner1BirthdayKey) then
          ManageBirthdayEvent(docs, coupleId, ResolvedName(data, merged, Partner1NameKey),
                              BirthdayDate(data[Partner1BirthdayKey]), now, id1)
        else Reconciled(docs, true);
      if !first.ok then first
      else if Truthy(data, Partner2BirthdayKey) then
        ManageBirthdayEvent(first.docs, coupleId, ResolvedName(data, merged, Partner2NameKey),
                            BirthdayDate(data[Partner2BirthdayKey]), now, id2)
      else first
    else Reconciled(docs, true)
  }

  /**
   * Partner one's birthday, when given and valid, leaves exactly one event
   * with partner one's title, dated at the next birthday, unless partner
   * two's pass runs under the same name.
   */
  lemma Partner1BirthdayReconciled(docs: seq<Event>, coupleId: string, data: Fields, merged: Fields,
                                   now: Instant, id1: string, id2: string, b: CivilDate)
    requires ValidInstant(now)
    requires Truthy(data, Partner1BirthdayKey) && BirthdayDate(data[Partner1BirthdayKey]) == Some(b)
    requires Truthy(data, Partner2BirthdayKey) ==>
      ResolvedName(data, merged, Partner2NameKey) != ResolvedName(data, merged, Partner1NameKey)
    ensures var name := ResolvedName(data, merged, Partner1NameKey);
      var r := ReconcileBirthdays(docs, coupleId, data, merged, now, id1, id2);
      Keep(r.docs, e => IsBirthdayEventOf(e, coupleId, name)) == [BirthdayEvent(id1, coupleId, name, b, now)]
  {
    var name := ResolvedName(data, merged, Partner1NameKey);
    var first := ManageBirthdayEvent(docs, coupleId, name, Some(b), now, id1);
    ReconcileExactlyOne(docs, coupleId, name, b, now, id1);
    if Truthy(data, Partner2BirthdayKey) {
      ReconcileKeepsOtherNames(first.docs, coupleId, name, ResolvedName(data, merged, Partner2NameKey),
                               BirthdayDate(data[Partner2BirthdayKey]), now, id2);
    }
  }

  /**
   * Partner two's birthday, when given and valid and partner one's pass (if
   * any) succeeded, leaves exactly one event with partner two's title.
   */
  lemma Partner2BirthdayReconciled(docs: seq<Event>, coupleId: string, data: Fields, merged: Fields,
                                   now: Instant, id1: string, id2: string, b: CivilDate)
    requires ValidInstant(now)
    requires Truthy(data, Partner2BirthdayKey) && BirthdayDate(data[Partner2BirthdayKey]) == Some(b)
    requires Truthy(data, Partner1BirthdayKey) ==> BirthdayDate(data[Partner1BirthdayKey]).Some?
    ensures var name := ResolvedName(data, merged, Partner2NameKey);
      var r := ReconcileBirthdays(docs, coupleId, data, merged, now, id1, id2);
      Keep(r.docs, e => IsBirthdayEventOf(e, coupleId, name)) == [BirthdayEvent(id2, coupleId, name, b, now)]
  {
    var r := ReconcileBirthdays(docs, coupleId, data, merged, now, id1, id2);
    var first :=
      if Truthy(data, Partner1BirthdayKey) then
        ManageBirthdayEvent(docs, coupleId, ResolvedName(data, merged, Partner1NameKey),
                            BirthdayDate(data[Partner1BirthdayKey]), now, id1)
      else Reconciled(docs, true);
    ReconcileExactlyOne(first.docs, coupleId, ResolvedName(data, merged, Partner2NameKey), b, now, id2);
  }

  /**
   * When both partners' birthdays are given under the same name, partner
   * two's pass deletes the event partner one's pass just made: one event
   * remains, dated at partner two's birthday.
   */
  lemma SharedNameKeepsPartner2Only(docs: seq<Event>, coupleId: string, data: Fields, merged: Fields,
                                    now: Instant, id1: string, id2: string, b1: CivilDate, b2: CivilDate)
    requires ValidInstant(now)
    requires Truthy(data, Partner1BirthdayKey) && BirthdayDate(data[Partner1BirthdayKey]) == Some(b1)
    requires Truthy(data, Partner2BirthdayKey) && BirthdayDate(data[Partner2BirthdayKey]) == Some(b2)
    requires ResolvedName(data, merged, Partner1NameKey) == ResolvedName(data, merged, Partner2NameKey)
    ensures var name := ResolvedName(data, merged, Partner1NameKey);
      var r := ReconcileBirthdays(docs, coupleId, data, merged, now, id1, id2);
      Keep(r.docs, e => IsBirthdayEventOf(e, coupleId, name)) == [BirthdayEvent(id2, coupleId, name, b2, now)]
  {
    Partner2BirthdayReconciled(docs, coupleId, data, merged, now, id1, id2, b2);
  }

  /**
   * An update without a truthy `partner1Birthday` runs no pass for partner
   * one: partner one's birthday events are as they were, unless partner
   * two's pass runs under the same name.
   */
  lemma Partner1EventsUntouched(docs: seq<Event>, coupleId: string, data: Fields, merged: Fields,
                                now: Instant, id1: string, id2: string)
    requires ValidInstant(now)
    requires !Truthy(data, Partner1BirthdayKey)
    requires Truthy(data, Partner2BirthdayKey) ==>
      ResolvedName(data, merged, Partner2NameKey) != ResolvedName(data, merged, Partner1NameKey)
    ensures var name := ResolvedName(data, merged, Partner1NameKey);
      var r := ReconcileBirthdays(docs, coupleId, data, merged, now, id1, id2);
      Keep(r.docs, e => IsBirthdayEventOf(e, coupleId, name)) == Keep(docs, e => IsBirthdayEventOf(e, coupleId, name))
  {
    if Truthy(data, Partner2BirthdayKey) {
      ReconcileKeepsOtherNames(docs, coupleId, ResolvedName(data, merged, Partner1NameKey),
                               ResolvedName(data, merged, Partner2NameKey),
                               BirthdayDate(data[Partner2BirthdayKey]), now, id2);
    }
  }

  /**
   * An update without a truthy `partner2Birthday` runs no pass for partner
   * two: partner two's birthday events are as they were, unless partner
   * one's pass runs under the same name.
   */
  lemma Partner2EventsUntouched(docs: seq<Event>, coupleId: string, data: Fields, merged: Fields,
                                now: Instant, id1: string, id2: string)
    requires ValidInstant(now)
    requires !Truthy(data, Partner2BirthdayKey)
    requires Truthy(data, Partner1BirthdayKey) ==>
      ResolvedName(data, merged, Partner1NameKey) != ResolvedName(data, merged, Partner2NameKey)
    ensures var name := ResolvedName(data, merged, Partner2NameKey);
      var r := ReconcileBirthdays(docs, coupleId, data, merged, now, id1, id2);
      Keep(r.docs, e => IsBirthdayEventOf(e, coupleId, name)) == Keep(docs, e => IsBirthdayEventOf(e, coupleId, name))
  {
    if Truthy(data, Partner1BirthdayKey) {
      ReconcileKeepsOtherNames(docs, coupleId, ResolvedName(data, merged, Partner2NameKey),
                               ResolvedName(data, merged, Partner1NameKey),
                               BirthdayDate(data[Partner1BirthdayKey]), now, id1);
    }
  }

  /** Events that are not birthday events of either resolved name survive the update in order. */
  lemma ReconcileBirthdaysLeavesOthers(docs: seq<Event>, coupleId: string, data: Fields, merged: Fields,
                                       now: Instant, id1: string, id2: string)
    requires ValidInstant(now)
    ensures var n1 := ResolvedName(data, merged, Partner1NameKey);
      var n2 := ResolvedName(data, merged, Partner2NameKey);
      var others := (e: Event) => !IsBirthdayEventOf(e, coupleId, n1) && !IsBirthdayEventOf(e, coupleId, n2);
      var r := ReconcileBirthdays(docs, coupleId, data, merged, now, id1, id2);
      Keep(r.docs, others) == Keep(docs, others)
  {
    var n1 := ResolvedName(data, merged, Partner1NameKey);
    var n2 := ResolvedName(data, merged, Partner2NameKey);
    var others := (e: Event) => !IsBirthdayEventOf(e, coupleId, n1) && !IsBirthdayEventOf(e, coupleId, n2);
    var not1 := (e: Event) => !IsBirthdayEventOf(e, coupleId, n1);
    var not2 := (e: Event) => !IsBirthdayEventOf(e, coupleId, n2);
    var first :=
      if Truthy(data, Partner1BirthdayKey) then
        ManageBirthdayEvent(docs, coupleId, n1, BirthdayDate(data[Partner1BirthdayKey]), now, id1)
      else Reconciled(docs, true);
    if Truthy(data, Partner1BirthdayKey) {
      ReconcileLeavesOthers(docs, coupleId, n1, BirthdayDate(data[Partner1BirthdayKey]), now, id1);
      KeepNested(first.docs, not1, others);
      KeepNested(docs, not1, others);
    }
    assert Keep(first.docs, others) == Keep(docs, others);
    if first.ok && Truthy(data, Partner2BirthdayKey) {
      var second := ManageBirthdayEvent(first.docs, coupleId, n2, BirthdayDate(data[Partner2BirthdayKey]), now, id2);
      ReconcileLeavesOthers(first.docs, coupleId, n2, BirthdayDate(data[Partner2BirthdayKey]), now, id2);
      KeepNested(second.docs, not2, others);
      KeepNested(first.docs, not2, others);
    }
  }

  // ----- events -----

  /** What the events form passes to `addEvent`; the description may be missing. */
  datatype EventInput = EventInput(title: string, date: string, kind: string, description: Option<string>)

  /** The event `addEvent` stores: the form's fields, the date at midnight, a missing description as `''`. */
  function NewEvent(id: string, coupleId: string, input: EventInput, date: CivilDate, now: Instant): (e: Event)
    requires ValidDate(date) && ValidInstant(now)
    ensures e.id == id && e.coupleId == coupleId && e.title == input.title && e.kind == input.kind
    ensures e.date == Midnight(date) && e.createdAt == Millis(now)
    ensures e.description == OrEmpty(input.description)
  {
    Event(id, coupleId, input.title, Midnight(date), input.kind, OrEmpty(input.description), Millis(now))
  }

  /** Pushing onto a list sorted by date and sorting again inserts after the events dated no later. */
  lemma PushThenSortInserts(events: seq<Event>, e: Event)
    requires SortedByDate(events)
    ensures SortByDate(events + [e]) == InsertByDate(events, e)
  {
    assert (events + [e])[..|events|] == events;
    SortSortedIsIdentity(events);
  }

  /** The whole or started days in `dist` milliseconds, `Math.ceil(dist / day)`: the least `n` with `n` days covering `dist`. */
  function CeilDays(dist: nat): (n: nat)
    ensures n * MsPerDay >= dist
    ensures n > 0 ==> (n - 1) * MsPerDay < dist
  {
    (dist + MsPerDay - 1) / MsPerDay
  }

  /**
   * `daysTogetherCount`: 0 without a profile or a first day; otherwise the
   * started days between the first day and now. `None` when the first day
   * is a string rather than a timestamp (the computed value then throws).
   */
  function DaysTogether(cache: Option<Fields>, now: Instant): (r: Option<nat>)
    requires ValidInstant(now)
    ensures cache.None? || !Truthy(cache.value, FirstDayKey) ==> r == Some(0)
    ensures cache.Some? && FirstDayKey in cache.value && cache.value[FirstDayKey].Stamp? ==>
      var diff := Millis(now) - cache.value[FirstDayKey].ms;
      var dist := if diff < 0 then -diff else diff;
      r.Some? && r.value * MsPerDay >= dist && (dist > 0 ==> (r.value - 1) * MsPerDay < dist) && (dist == 0 ==> r.value == 0)
    ensures cache.Some? && Truthy(cache.value, FirstDayKey) && cache.value[FirstDayKey].Text? ==> r.None?
  {
    if cache.None? || !Truthy(cache.value, FirstDayKey) then Some(0)
    else match cache.value[FirstDayKey]
      case Text(_) => None
      case Null => None
      case Stamp(ms) =>
        var diff := Millis(now) - ms;
        Some(CeilDays(if diff < 0 then -diff else diff))
  }

  /** Together since 2020-01-01, on 2024-01-01 the count is 1461 days. */
  lemma DaysTogetherExample()
    ensures DaysTogether(Some(map[FirstDayKey := Stamp(Midnight(CivilDate(2020, 1, 1)))]),
                         Instant(CivilDate(2024, 1, 1), 0)) == Some(1461)
  {
  }

  // ----- the store -----

  /** The store's state: the two collections, the cached profile and the local event list. */
  class CoupleStore {
    var couples: seq<CoupleDoc>   // the `couples` collection, in the order queries return it
    var eventDocs: seq<Event>     // the `events` collection
    var coupleData: Option<Fields>
    var events: seq<Event>

    /** The local event list is kept sorted ascending by date. */
    ghost predicate Valid()
      reads this
    {
      SortedByDate(events)
    }

    constructor (couples: seq<CoupleDoc>, eventDocs: seq<Event>)
      ensures Valid()
      ensures this.couples == couples && this.eventDocs == eventDocs
      ensures coupleData.None? && events == []
    {
      this.couples := couples;
      this.eventDocs := eventDocs;
      coupleData := None;
      events := [];
    }

    /** Looks the user's profile up and caches it; creates nothing. */
    method GetCoupleData(userId: string) returns (r: Option<Fields>)
      modifies this`coupleData
      ensures r == FindProfile(couples, userId) && coupleData == r
    {
      r := FindProfile(couples, userId);
      coupleData := r;
    }

    /** Stores a new profile with the user as partner one and caches it. */
    method CreateCoupleProfile(userId: string, input: ProfileInput, now: Instant, newId: string)
      returns (r: Result<Fields>)
      requires ValidInstant(now)
      modifies this`couples, this`coupleData
      ensures ParseIsoDate(input.firstDayTogether).None? ==>
        r == Err(InvalidDate) && couples == old(couples) && coupleData == old(coupleData)
      ensures ParseIsoDate(input.firstDayTogether).Some? ==>
        var doc := CoupleDoc(newId, NewProfileFields(userId, input, ParseIsoDate(input.firstDayTogether).value, now));
        && couples == old(couples) + [doc]
        && r == Ok(Snapshot(doc)) && coupleData == Some(Snapshot(doc))
    {
      var firstDay := ParseIsoDate(input.firstDayTogether);
      if firstDay.None? {
        return Err(InvalidDate);
      }
      var doc := CoupleDoc(newId, NewProfileFields(userId, input, firstDay.value, now));
      couples := couples + [doc];
      coupleData := Some(Snapshot(doc));
      r := Ok(coupleData.value);
    }

    /**
     * Merges `data` into the stored profile and into the cache, then runs
     * the birthday reconciler; `id1` and `id2` are the ids the database gives
     * the birthday events it inserts.
     */
    method UpdateCoupleProfile(coupleId: string, data: Fields, now: Instant, id1: string, id2: string)
      returns (r: Result<Fields>)
      requires ValidInstant(now)
      modifies this`couples, this`coupleData, this`eventDocs
      ensures (forall j :: 0 <= j < |old(couples)| ==> old(couples)[j].id != coupleId) ==>
        r == Err(NotFound) && couples == old(couples) && coupleData == old(coupleData) && eventDocs == old(eventDocs)
      ensures (exists j :: 0 <= j < |old(couples)| && old(couples)[j].id == coupleId) ==>
        var merged := Merge(old(coupleData), data);
        var rec := ReconcileBirthdays(old(eventDocs), coupleId, data, merged, now, id1, id2);
        && |couples| == |old(couples)|
        && (forall j :: 0 <= j < |couples| ==>
              couples[j] == if old(couples)[j].id == coupleId
                            then CoupleDoc(coupleId, old(couples)[j].fields + data) else old(couples)[j])
        && coupleData == Some(merged)
        && eventDocs == rec.docs
        && r == (if rec.ok then Ok(merged) else Err(InvalidDate))
    {
      if forall j :: 0 <= j < |couples| ==> couples[j].id != coupleId {
        return Err(NotFound);
      }
      var before := couples;
      couples := seq(|before|, j requires 0 <= j < |before| =>
        if before[j].id == coupleId then CoupleDoc(coupleId, before[j].fields + data) else before[j]);
      var merged := Merge(coupleData, data);
      coupleData := Some(merged);
      var rec := ReconcileBirthdays(eventDocs, coupleId, data, merged, now, id1, id2);
      eventDocs := rec.docs;
      r := if rec.ok then Ok(merged) else Err(InvalidDate);
    }

    /** Loads the couple's events into the local list, ascending by date. */
    method GetEvents(coupleId: string) returns (r: seq<Event>)
      modifies this`events
      ensures Valid()
      ensures r == events
      ensures multiset(events) == multiset(Keep(eventDocs, (e: Event) => e.coupleId == coupleId))
      ensures events == SortByDate(Keep(eventDocs, (e: Event) => e.coupleId == coupleId))
    {
      events := SortByDate(Keep(eventDocs, (e: Event) => e.coupleId == coupleId));
      r := events;
    }

    /** Stores a new event, pushes it onto the local list and sorts the list by date. */
    method AddEvent(coupleId: string, input: EventInput, now: Instant, newId: string) returns (r: Result<Event>)
      requires Valid() && ValidInstant(now)
      modifies this`eventDocs, this`events
      ensures Valid()
      ensures ParseIsoDate(input.date).None? ==>
        r == Err(InvalidDate) && eventDocs == old(eventDocs) && events == old(events)
      ensures ParseIsoDate(input.date).Some? ==>
        var e := NewEvent(newId, coupleId, input, ParseIsoDate(input.date).value, now);
        && r == Ok(e)
        && eventDocs == old(eventDocs) + [e]
        && |events| == |old(events)| + 1
        && multiset(events) == multiset(old(events)) + multiset{e}
        && events == InsertByDate(old(events), e)
    {
      var date := ParseIsoDate(input.date);
      if date.None? {
        return Err(InvalidDate);
      }
      var e := NewEvent(newId, coupleId, input, date.value, now);
      eventDocs := eventDocs + [e];
      PushThenSortInserts(events, e);
      events := events + [e];
      events := SortByDate(events);
      r := Ok(e);
    }

    /** Deletes the event with that id from the collection and from the local list. */
    method DeleteEvent(eventId: string)
      requires Valid()
      modifies this`eventDocs, this`events
      ensures Valid()
      ensures eventDocs == Keep(old(eventDocs), (e: Event) => e.id != eventId)
      ensures events == Keep(old(events), (e: Event) => e.id != eventId)
      ensures forall e :: e in events <==> e in old(events) && e.id != eventId
    {
      eventDocs := Keep(eventDocs, (e: Event) => e.id != eventId);
      KeepSorted(events, (e: Event) => e.id != eventId);
      events := Keep(events, (e: Event) => e.id != eventId);
    }
  }
}
