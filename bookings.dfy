/** The booking synchroniser: one live subscription to the `bookings`
    collection mirrored into a date-to-spot map, the queries over that map,
    and the guarded creation and cancellation of bookings. */
module Bookings {
  import opened Wrappers
  import opened Text
  import opened Store
  import Calendar
  import DateUtils

  /** A document of the `bookings` collection as a snapshot or a read delivers
      it; `name` may be missing. */
  datatype BookingDoc = BookingDoc(id: string, date: string, spot: int, licensePlate: string,
                                   name: Option<string>, userId: string)

  /** What the map keeps for an occupied spot. */
  datatype Occupant = Occupant(id: string, licensePlate: string, name: string, userId: string)

  type DayMap = map<int, Occupant>
  type BookingMap = map<string, DayMap>

  /** One entry of the flat list of bookings. */
  datatype Booking = Booking(id: string, date: string, spot: int, licensePlate: string,
                             name: string, userId: string)

  /** The live queries: one date, an inclusive date range, or one user's
      bookings from a given day on. */
  datatype Query =
    | OnDate(date: string)
    | InRange(start: string, end: string)
    | UserFrom(userId: string, today: string)

  /** The one-off reads made before a booking is written. */
  datatype Check =
    | UserOnDate(date: string, userId: string)
    | SpotOnDate(date: string, spot: int)

  /** The fields of a new booking document (its creation time is set by the store). */
  datatype NewBooking = NewBooking(date: string, spot: int, name: string, licensePlate: string, userId: string)

  /** What one `createBooking` call does: the reads it makes, in order, the
      document it writes, if any, and how it settles. */
  datatype CreateRun = CreateRun(queries: seq<Check>, written: Option<NewBooking>, outcome: Outcome)

  /** What one cancellation does: the document it deletes, if any, and how it settles. */
  datatype CancelRun = CancelRun(deleted: Option<string>, outcome: Outcome)

  const LoadFailedMessage := "Kunde inte ladda bokningar"
  const OnePerDayMessage := "Du har redan en bokning denna dag. Du kan bara boka en plats per dag."
  const SpotTakenMessage := "Platsen är redan bokad. Vänligen välj en annan plats."
  const CreateDeniedMessage := "Du har inte behörighet att skapa bokningen."
  const CreateFailedMessage := "Kunde inte spara bokningen. Försök igen."
  const CancelDeniedMessage := "Du har inte behörighet att avboka."
  const CancelFailedMessage := "Kunde inte avboka. Försök igen."
  const NotFoundMessage := "Bokning hittades inte"

  /** Whether the store delivers document `d` to a listener on `q`; the store
      orders dates as strings. */
  predicate Matches(q: Query, d: BookingDoc) {
    match q
    case OnDate(date) => d.date == date
    case InRange(start, end) => Compare(start, d.date) <= 0 && Compare(d.date, end) <= 0
    case UserFrom(uid, today) => d.userId == uid && Compare(today, d.date) <= 0
  }

  /** Whether document `d` is in the result set of check `c`. */
  predicate Selects(c: Check, d: BookingDoc) {
    match c
    case UserOnDate(date, uid) => d.date == date && d.userId == uid
    case SpotOnDate(date, spot) => d.date == date && d.spot == spot
  }

  /** The reply a read of `c` gets from a store holding `stored`. */
  function ReadOf(stored: seq<BookingDoc>, c: Check): ReadReply {
    Rows(forall i :: 0 <= i < |stored| ==> !Selects(c, stored[i]))
  }

  /** The document a written booking becomes under identifier `id`. */
  function DocOf(id: string, b: NewBooking): BookingDoc {
    BookingDoc(id, b.date, b.spot, b.licensePlate, Some(b.name), b.userId)
  }

  /** The business rules the guarded creation keeps: no user holds two
      bookings on one day and no spot is booked twice on one day. */
  predicate Unique(stored: seq<BookingDoc>) {
    forall i, j :: 0 <= i < j < |stored| ==>
      stored[i].date != stored[j].date
      || (stored[i].userId != stored[j].userId && stored[i].spot != stored[j].spot)
  }

  /** The map entry a document becomes; a missing name becomes "". */
  function OccupantOf(d: BookingDoc): (o: Occupant)
    ensures o.id == d.id && o.licensePlate == d.licensePlate && o.userId == d.userId
    ensures d.name.None? ==> o.name == ""
    ensures d.name.Some? ==> o.name == d.name.value
  {
    Occupant(d.id, d.licensePlate, if d.name.Some? then d.name.value else "", d.userId)
  }

  /** The spot map a snapshot of one date builds, documents applied in order:
      at most one spot per document. */
  function DayMapOf(snap: seq<BookingDoc>): (r: DayMap)
    ensures |r| <= |snap|
  {
    if snap == [] then map[]
    else DayMapOf(snap[..|snap| - 1])[snap[|snap| - 1].spot := OccupantOf(snap[|snap| - 1])]
  }

  /** The date-to-spot map a snapshot of a range or of one user's bookings
      builds, documents applied in order: at most one date per document. */
  function RangeMapOf(snap: seq<BookingDoc>): (r: BookingMap)
    ensures |r| <= |snap|
  {
    if snap == [] then map[]
    else
      var m := RangeMapOf(snap[..|snap| - 1]);
      var d := snap[|snap| - 1];
      var day := if d.date in m then m[d.date] else map[];
      m[d.date := day[d.spot := OccupantOf(d)]]
  }

  /** No date of a range push's map is without an occupied spot. */
  lemma {:induction false} RangeMapNoEmptyDay(snap: seq<BookingDoc>, date: string)
    requires date in RangeMapOf(snap)
    ensures RangeMapOf(snap)[date] != map[]
  {
    var n := |snap| - 1;
    var d := snap[n];
    if d.date != date {
      RangeMapNoEmptyDay(snap[..n], date);
    } else {
      assert d.spot in RangeMapOf(snap)[date];
    }
  }

  /** The documents of `snap` dated `date`, in order. */
  function DocsOn(snap: seq<BookingDoc>, date: string): seq<BookingDoc> {
    if snap == [] then []
    else DocsOn(snap[..|snap| - 1], date) + (if snap[|snap| - 1].date == date then [snap[|snap| - 1]] else [])
  }

  /** The occupant the map records for `spot` on `date`, if any. */
  function Lookup(bm: BookingMap, date: string, spot: int): Option<Occupant> {
    if date in bm && spot in bm[date] then Some(bm[date][spot]) else None
  }

  /** Whether user `uid` occupies some spot on `date`. */
  predicate HasUserOn(bm: BookingMap, uid: string, date: string) {
    date in bm && exists spot :: spot in bm[date] && bm[date][spot].userId == uid
  }

  /** Whether the flat list has an entry for `spot` on `date`. */
  ghost predicate Listed(r: seq<Booking>, date: string, spot: int) {
    exists i :: 0 <= i < |r| && r[i].date == date && r[i].spot == spot
  }

  /** `r` lists every occupied spot of `bm` exactly once, with its occupant. */
  ghost predicate Flattens(bm: BookingMap, r: seq<Booking>) {
    (forall i :: 0 <= i < |r| ==>
       Lookup(bm, r[i].date, r[i].spot) == Some(Occupant(r[i].id, r[i].licensePlate, r[i].name, r[i].userId)))
    && (forall i, j :: 0 <= i < j < |r| ==> r[i].date != r[j].date || r[i].spot != r[j].spot)
    && (forall date, spot :: date in bm && spot in bm[date] ==> Listed(r, date, spot))
  }

  /** The position of the last document of `snap` for `spot`, if any. */
  function LastFor(snap: seq<BookingDoc>, spot: int): (r: Option<nat>)
    ensures r.Some? ==> r.value < |snap| && snap[r.value].spot == spot
                        && forall j :: r.value < j < |snap| ==> snap[j].spot != spot
    ensures r.None? ==> forall j :: 0 <= j < |snap| ==> snap[j].spot != spot
  {
    if snap == [] then None
    else if snap[|snap| - 1].spot == spot then Some(|snap| - 1)
    else
      var r := LastFor(snap[..|snap| - 1], spot);
      assert forall j :: 0 <= j < |snap| - 1 ==> snap[..|snap| - 1][j] == snap[j];
      r
  }

  /** A spot is in the day map exactly when some document names it, and its
      occupant is the one of the last such document. */
  lemma {:induction false} DayMapLatest(snap: seq<BookingDoc>, spot: int)
    ensures spot in DayMapOf(snap) <==> LastFor(snap, spot).Some?
    ensures spot in DayMapOf(snap) ==> DayMapOf(snap)[spot] == OccupantOf(snap[LastFor(snap, spot).value])
  {
    if snap != [] {
      var n := |snap| - 1;
      var p := snap[..n];
      DayMapLatest(p, spot);
      assert DayMapOf(snap) == DayMapOf(p)[snap[n].spot := OccupantOf(snap[n])];
      if snap[n].spot != spot {
        assert LastFor(snap, spot) == LastFor(p, spot);
        if LastFor(p, spot).Some? {
          assert p[LastFor(p, spot).value] == snap[LastFor(p, spot).value];
        }
      }
    }
  }

  /** The document a snapshot delivers last for its spot is the one the day
      map shows. */
  lemma LatestWins(snap: seq<BookingDoc>, i: nat)
    requires i < |snap|
    requires forall j :: i < j < |snap| ==> snap[j].spot != snap[i].spot
    ensures snap[i].spot in DayMapOf(snap)
    ensures DayMapOf(snap)[snap[i].spot] == OccupantOf(snap[i])
  {
    var spot := snap[i].spot;
    var r := LastFor(snap, spot);
    assert r.Some? && r.value == i;
    DayMapLatest(snap, spot);
  }

  /** A range snapshot has a date exactly when some document carries it, and
      that date's spots are what the documents of that date alone would build. */
  lemma {:induction false} RangeMapByDate(snap: seq<BookingDoc>, date: string)
    ensures date in RangeMapOf(snap) <==> DocsOn(snap, date) != []
    ensures date in RangeMapOf(snap) ==> RangeMapOf(snap)[date] == DayMapOf(DocsOn(snap, date))
  {
    if snap != [] {
      RangeMapByDate(snap[..|snap| - 1], date);
      RangeStep(snap, date);
    }
  }

  /** One more document changes the range map at its own date only, as the
      documents of that date alone would. */
  lemma RangeStep(snap: seq<BookingDoc>, date: string)
    requires snap != []
    requires var p := snap[..|snap| - 1];
      && (date in RangeMapOf(p) <==> DocsOn(p, date) != [])
      && (date in RangeMapOf(p) ==> RangeMapOf(p)[date] == DayMapOf(DocsOn(p, date)))
    ensures date in RangeMapOf(snap) <==> DocsOn(snap, date) != []
    ensures date in RangeMapOf(snap) ==> RangeMapOf(snap)[date] == DayMapOf(DocsOn(snap, date))
  {
    var n := |snap| - 1;
    var p, x := snap[..n], snap[n];
    var m0 := RangeMapOf(p);
    var day := if x.date in m0 then m0[x.date] else map[];
    var m := m0[x.date := day[x.spot := OccupantOf(x)]];
    assert RangeMapOf(snap) == m;
    var on := DocsOn(p, date);
    if x.date == date {
      assert DocsOn(snap, date) == on + [x];
      assert (on + [x])[..|on|] == on;
      assert DayMapOf(on + [x]) == DayMapOf(on)[x.spot := OccupantOf(x)];
    } else {
      assert DocsOn(snap, date) == on;
    }
  }

  /** Every document of `DocsOn(snap, date)` is a document of `snap` dated `date`. */
  lemma {:induction false} DocsOnSound(snap: seq<BookingDoc>, date: string)
    ensures forall d :: d in DocsOn(snap, date) ==> d in snap && d.date == date
  {
    if snap != [] {
      var n := |snap| - 1;
      DocsOnSound(snap[..n], date);
      assert forall d :: d in snap[..n] ==> d in snap;
    }
  }

  /** When every document carries `date`, all of them are on `date`. */
  lemma {:induction false} DocsOnAll(snap: seq<BookingDoc>, date: string)
    requires forall k :: 0 <= k < |snap| ==> snap[k].date == date
    ensures DocsOn(snap, date) == snap
  {
    if snap != [] {
      var n := |snap| - 1;
      var p, x := snap[..n], snap[n];
      assert forall k :: 0 <= k < |p| ==> p[k].date == date by {
        forall k | 0 <= k < |p| ensures p[k].date == date {
          assert p[k] == snap[k];
        }
      }
      DocsOnAll(p, date);
      assert x.date == date;
      calc {
        DocsOn(snap, date);
        DocsOn(p, date) + [x];
        p + [x];
        snap;
      }
    }
  }

  /** For a non-empty snapshot of one date, the single-date callback and the
      range callback build the same map; they differ only on an empty
      snapshot, where the date is still present, with no spots. */
  lemma DateQueryAgreesWithRange(snap: seq<BookingDoc>, date: string)
    requires snap != []
    requires forall d :: d in snap ==> d.date == date
    ensures RangeMapOf(snap) == map[date := DayMapOf(snap)]
  {
    var m := RangeMapOf(snap);
    assert forall k :: 0 <= k < |snap| ==> snap[k] in snap;
    DocsOnAll(snap, date);
    RangeMapByDate(snap, date);
    assert date in m && m[date] == DayMapOf(snap);
    RangeMapDates(snap, OnDate(date));
    assert forall k :: k in m ==> k == date;
  }

  /** Every date of a range snapshot's map comes from a document the query
      selected. */
  lemma RangeMapDates(snap: seq<BookingDoc>, q: Query)
    requires forall d :: d in snap ==> Matches(q, d)
    ensures forall date :: date in RangeMapOf(snap) ==>
      exists d :: d in snap && d.date == date && Matches(q, d)
  {
    forall date | date in RangeMapOf(snap)
      ensures exists d :: d in snap && d.date == date && Matches(q, d)
    {
      RangeMapByDate(snap, date);
      DocsOnSound(snap, date);
      var d := DocsOn(snap, date)[0];
      assert d in DocsOn(snap, date);
    }
  }

  /** Both ends of a range are included, and for well-formed date strings the
      string order the range uses is the calendar order. */
  lemma RangeIsChronological(start: string, end: string, d: BookingDoc)
    requires DateUtils.WellFormed(start) && DateUtils.WellFormed(end) && DateUtils.WellFormed(d.date)
    ensures Matches(InRange(start, end), d) <==>
      !Calendar.Before(DateUtils.IsoFields(d.date), DateUtils.IsoFields(start))
      && !Calendar.Before(DateUtils.IsoFields(end), DateUtils.IsoFields(d.date))
    ensures d.date == start || d.date == end ==>
      (Matches(InRange(start, end), d) <==> Compare(start, end) <= 0)
  {
    DateUtils.CompareIsChronological(start, d.date);
    DateUtils.CompareIsChronological(d.date, end);
    CompareAntisymmetric(d.date, start);
    CompareAntisymmetric(end, d.date);
    CompareZeroIffEqual(start, start);
    CompareZeroIffEqual(end, end);
  }

  /** The flat list agrees with the map on who holds a booking on a date. */
  lemma FlatListAgrees(bm: BookingMap, r: seq<Booking>, uid: string, date: string)
    requires Flattens(bm, r)
    ensures HasUserOn(bm, uid, date) <==> exists i :: 0 <= i < |r| && r[i].date == date && r[i].userId == uid
  {
    if HasUserOn(bm, uid, date) {
      var spot :| spot in bm[date] && bm[date][spot].userId == uid;
      assert Listed(r, date, spot);
      var i :| 0 <= i < |r| && r[i].date == date && r[i].spot == spot;
      assert Lookup(bm, date, spot) == Some(bm[date][spot]);
    }
    if exists i :: 0 <= i < |r| && r[i].date == date && r[i].userId == uid {
      var i :| 0 <= i < |r| && r[i].date == date && r[i].userId == uid;
      assert Lookup(bm, r[i].date, r[i].spot).Some?;
      assert r[i].spot in bm[date];
    }
  }

  /** A store that already holds a booking of the user on the date refuses a
      second one before it looks at the spot. */
  lemma OnePerDayGuard(s: BookingSync, stored: seq<BookingDoc>, date: string, spot: int,
                       plate: string, spotCheck: ReadReply, insert: WriteReply)
    requires exists i :: 0 <= i < |stored| && stored[i].date == date && stored[i].userId == s.userId
    ensures s.CreateBooking(date, spot, plate, ReadOf(stored, UserOnDate(date, s.userId)), spotCheck, insert)
            == CreateRun([UserOnDate(date, s.userId)], None, Thrown(OnePerDayMessage))
  {
    var i :| 0 <= i < |stored| && stored[i].date == date && stored[i].userId == s.userId;
    assert Selects(UserOnDate(date, s.userId), stored[i]);
  }

  /** A spot already taken on the date is refused. */
  lemma SpotTakenGuard(s: BookingSync, stored: seq<BookingDoc>, date: string, spot: int,
                       plate: string, insert: WriteReply)
    requires forall i :: 0 <= i < |stored| ==> stored[i].date != date || stored[i].userId != s.userId
    requires exists i :: 0 <= i < |stored| && stored[i].date == date && stored[i].spot == spot
    ensures s.CreateBooking(date, spot, plate, ReadOf(stored, UserOnDate(date, s.userId)),
                            ReadOf(stored, SpotOnDate(date, spot)), insert).written.None?
    ensures s.CreateBooking(date, spot, plate, ReadOf(stored, UserOnDate(date, s.userId)),
                            ReadOf(stored, SpotOnDate(date, spot)), insert).outcome == Thrown(SpotTakenMessage)
  {
    var i :| 0 <= i < |stored| && stored[i].date == date && stored[i].spot == spot;
    assert Selects(SpotOnDate(date, spot), stored[i]);
  }

  /** Writing the booking that the checks let through keeps both business
      rules, as long as nothing else writes between the reads and the write. */
  lemma CreateKeepsUnique(s: BookingSync, stored: seq<BookingDoc>, date: string, spot: int,
                          plate: string, insert: WriteReply, id: string)
    requires Unique(stored)
    ensures var r := s.CreateBooking(date, spot, plate, ReadOf(stored, UserOnDate(date, s.userId)),
                                     ReadOf(stored, SpotOnDate(date, spot)), insert);
            r.written.Some? ==> Unique(stored + [DocOf(id, r.written.value)])
  {
    var r := s.CreateBooking(date, spot, plate, ReadOf(stored, UserOnDate(date, s.userId)),
                             ReadOf(stored, SpotOnDate(date, spot)), insert);
    if r.written.Some? {
      var all := stored + [DocOf(id, r.written.value)];
      forall i, j | 0 <= i < j < |all|
        ensures all[i].date != all[j].date || (all[i].userId != all[j].userId && all[i].spot != all[j].spot)
      {
        if j == |stored| {
          assert !Selects(UserOnDate(date, s.userId), stored[i]);
          assert !Selects(SpotOnDate(date, spot), stored[i]);
        }
      }
    }
  }

  /** Once the snapshot carrying the user's new booking has been applied, the
      user can cancel it and cancelling by spot deletes that document. */
  lemma CreatedBookingCancellable(s: BookingSync, snap: seq<BookingDoc>, i: nat, reply: WriteReply)
    requires i < |snap| && snap[i].userId == s.userId
    requires forall j :: i < j < |snap| ==> snap[j].spot != snap[i].spot
    requires s.bookingMap == map[snap[i].date := DayMapOf(snap)]
    ensures s.CanCancel(snap[i].date, snap[i].spot)
    ensures s.UserHasBookingOnDate(snap[i].date)
    ensures s.CancelBookingBySpot(snap[i].date, snap[i].spot, reply).deleted == Some(snap[i].id)
  {
    var date, spot, day := snap[i].date, snap[i].spot, DayMapOf(snap);
    var occupant := OccupantOf(snap[i]);
    assert date in s.bookingMap && s.bookingMap[date] == day;
    LatestWins(snap, i);
    assert spot in day && day[spot] == occupant;
    assert occupant.id == snap[i].id && occupant.userId == s.userId;
    CanCancelImpliesBooked(s, date, spot);
  }

  /** Whoever may cancel a spot holds a booking that day; a spot nobody holds
      cannot be cancelled, and cancelling it deletes nothing. */
  lemma CanCancelImpliesBooked(s: BookingSync, date: string, spot: int)
    ensures s.CanCancel(date, spot) ==> s.UserHasBookingOnDate(date)
    ensures Lookup(s.bookingMap, date, spot).None? ==>
      !s.CanCancel(date, spot)
      && forall reply :: s.CancelBookingBySpot(date, spot, reply) == CancelRun(None, Thrown(NotFoundMessage))
  {
    if s.CanCancel(date, spot) {
      assert spot in s.bookingMap[date] && s.bookingMap[date][spot].userId == s.userId;
    }
  }

  /** The synchroniser of one signed-in user: the mirrored map, the loading
      and error flags, and the unsubscribe handle of the current listener. */
  class BookingSync {
    const userId: string
    const userName: string
    const store: Registry<Query>
    var bookingMap: BookingMap
    var loading: bool
    var error: Option<string>
    var unSub: Option<Handle>

    /** At most one listener runs, and it is the one `unSub` releases. */
    ghost predicate Valid()
      reads this, store
    {
      store.Valid() && forall h :: h in store.live ==> unSub == Some(h)
    }

    constructor (userId: string, userName: string)
      ensures Valid() && fresh(store)
      ensures this.userId == userId && this.userName == userName
      ensures bookingMap == map[] && !loading && error.None? && unSub.None?
      ensures store.live == map[] && store.next == 0 && store.released == []
    {
      this.userId := userId;
      this.userName := userName;
      store := new Registry();
      bookingMap := map[];
      loading := false;
      error := None;
      unSub := None;
    }

    /** Releases the handle recorded last, whether or not it still runs. */
    method Teardown()
      requires Valid()
      modifies store
      ensures Valid() && store.live == map[] && store.next == old(store.next)
      ensures store.released == old(store.released) + (if unSub.Some? then [unSub.value] else [])
    {
      if unSub.Some? {
        store.Release(unSub.value);
      }
      assert forall h :: h !in store.live;
    }

    /** Listens to one date; an empty date only tears the old listener down,
        leaving its released handle recorded. */
    method SubscribeToDate(date: string)
      requires Valid()
      modifies this, store
      ensures Valid()
      ensures store.released == old(store.released) + (if old(unSub).Some? then [old(unSub).value] else [])
      ensures date == "" ==> store.live == map[] && unSub == old(unSub) && loading == old(loading)
      ensures date != "" ==> store.live == map[old(store.next) := OnDate(date)]
                             && unSub == Some(old(store.next)) && loading
      ensures bookingMap == old(bookingMap) && error == old(error)
    {
      Teardown();
      if date == "" {
        return;
      }
      loading := true;
      var h := store.Listen(OnDate(date));
      unSub := Some(h);
    }

    /** Listens to an inclusive date range; a missing bound clears the map
        instead, leaving the released handle recorded. */
    method SubscribeToDateRange(start: string, end: string)
      requires Valid()
      modifies this, store
      ensures Valid()
      ensures store.released == old(store.released) + (if old(unSub).Some? then [old(unSub).value] else [])
      ensures start == "" || end == "" ==>
        store.live == map[] && unSub == old(unSub) && bookingMap == map[] && loading == old(loading)
      ensures start != "" && end != "" ==>
        store.live == map[old(store.next) := InRange(start, end)] && unSub == Some(old(store.next))
        && loading && bookingMap == old(bookingMap)
      ensures error == old(error)
    {
      Teardown();
      if start == "" || end == "" {
        bookingMap := map[];
        return;
      }
      loading := true;
      var h := store.Listen(InRange(start, end));
      unSub := Some(h);
    }

    /** Listens to the user's bookings dated `today` or later. */
    method SubscribeToUserBookings(today: string)
      requires Valid()
      modifies this, store
      ensures Valid()
      ensures store.released == old(store.released) + (if old(unSub).Some? then [old(unSub).value] else [])
      ensures store.live == map[old(store.next) := UserFrom(userId, today)] && unSub == Some(old(store.next))
      ensures loading && bookingMap == old(bookingMap) && error == old(error)
    {
      Teardown();
      loading := true;
      var h := store.Listen(UserFrom(userId, today));
      unSub := Some(h);
    }

    /** A snapshot delivered to the live listener `h` replaces the whole map. */
    method OnSnapshot(h: Handle, snap: seq<BookingDoc>)
      requires Valid() && h in store.live
      requires forall d :: d in snap ==> Matches(store.live[h], d)
      modifies this
      ensures Valid() && unSub == old(unSub)
      ensures store.live[h].OnDate? ==> bookingMap == map[store.live[h].date := DayMapOf(snap)]
      ensures !store.live[h].OnDate? ==> bookingMap == RangeMapOf(snap)
      ensures forall date :: date in bookingMap ==>
        date in DayOrRangeDates(store.live[h], snap)
      ensures !loading && error.None?
    {
      match store.live[h] {
        case OnDate(date) =>
          var dayMap := BuildDayMap(snap);
          bookingMap := map[date := dayMap];
        case _ =>
          bookingMap := BuildRangeMap(snap);
          RangeMapDates(snap, store.live[h]);
      }
      loading := false;
      error := None;
    }

    /** An error ends listener `h`; the map is kept and the error is shown. */
    method OnSnapshotError(h: Handle)
      requires Valid() && h in store.live
      modifies this, store
      ensures Valid() && store.live == map[] && unSub == old(unSub)
      ensures store.released == old(store.released)
      ensures bookingMap == old(bookingMap)
      ensures error == Some(LoadFailedMessage) && !loading
    {
      store.Drop(h);
      assert forall k :: k !in store.live;
      error := Some(LoadFailedMessage);
      loading := false;
    }

    /** `bookings`: the map as a flat list, one entry per occupied spot. */
    method Bookings() returns (results: seq<Booking>)
      ensures Flattens(bookingMap, results)
    {
      results := [];
      var dates := bookingMap.Keys;
      ghost var doneDates: set<string> := {};
      while dates != {}
        invariant dates + doneDates == bookingMap.Keys && dates !! doneDates
        invariant FlattensOn(bookingMap, doneDates, results)
        decreases |dates|
      {
        ghost var someDate := HasMember(dates);
        var date :| date in dates;
        var part := ListDay(date);
        FlattensOnAppend(bookingMap, doneDates, results, date, part);
        results := results + part;
        dates := dates - {date};
        doneDates := doneDates + {date};
      }
      FlattensOnAll(bookingMap, results);
    }

    /** The entries of one date, one per occupied spot. */
    method ListDay(date: string) returns (part: seq<Booking>)
      requires date in bookingMap
      ensures DayListed(bookingMap, date, bookingMap[date].Keys, part)
    {
      part := [];
      var day := bookingMap[date];
      var spots := day.Keys;
      ghost var doneSpots: set<int> := {};
      while spots != {}
        invariant spots + doneSpots == day.Keys && spots !! doneSpots
        invariant DayListed(bookingMap, date, doneSpots, part)
        decreases |spots|
      {
        ghost var someSpot := HasMember(spots);
        var spot :| spot in spots;
        var b := day[spot];
        DayListedStep(bookingMap, date, doneSpots, part, spot);
        part := part + [Booking(b.id, date, spot, b.licensePlate, b.name, b.userId)];
        spots := spots - {spot};
        doneSpots := doneSpots + {spot};
      }
    }

    /** `userHasBookingOnDate`: some spot of `date` is held by this user. */
    function UserHasBookingOnDate(date: string): (r: bool)
      reads this
      ensures r <==> HasUserOn(bookingMap, userId, date)
    {
      var day := if date in bookingMap then bookingMap[date] else map[];
      ValuesHeldBy(day, userId);
      exists o :: o in day.Values && o.userId == userId
    }

    /** `canCancel`: the spot is occupied on `date`, by this user. */
    function CanCancel(date: string, spot: int): (r: bool)
      reads this
      ensures r <==> date in bookingMap && spot in bookingMap[date] && bookingMap[date][spot].userId == userId
    {
      var b := Lookup(bookingMap, date, spot);
      b.Some? && b.value.userId == userId
    }

    /** `createBooking`: refuses a second booking of the user on the date,
        then a spot that is taken, and only then writes the booking. */
    function CreateBooking(date: string, spot: int, licensePlate: string,
                           userCheck: ReadReply, spotCheck: ReadReply, insert: WriteReply): (r: CreateRun)
      ensures r.queries == if userCheck == Rows(true) then [UserOnDate(date, userId), SpotOnDate(date, spot)]
                           else [UserOnDate(date, userId)]
      ensures r.written.Some? <==> userCheck == Rows(true) && spotCheck == Rows(true)
      ensures r.written.Some? ==>
        r.written.value == NewBooking(date, spot, userName, licensePlate, userId)
        && r.outcome == SettleWrite(insert, CreateDeniedMessage, CreateFailedMessage)
      ensures userCheck == Rows(false) ==> r.outcome == Thrown(OnePerDayMessage)
      ensures userCheck.ReadFailed? ==> r.outcome == Thrown(userCheck.message)
      ensures userCheck == Rows(true) && spotCheck == Rows(false) ==> r.outcome == Thrown(SpotTakenMessage)
      ensures userCheck == Rows(true) && spotCheck.ReadFailed? ==> r.outcome == Thrown(spotCheck.message)
      ensures r.outcome.Done? <==> r.written.Some? && insert.WriteOk?
    {
      var first := [UserOnDate(date, userId)];
      match userCheck
      case ReadFailed(e) => CreateRun(first, None, Thrown(e))
      case Rows(false) => CreateRun(first, None, Thrown(OnePerDayMessage))
      case Rows(true) =>
        var both := first + [SpotOnDate(date, spot)];
        match spotCheck
        case ReadFailed(e) => CreateRun(both, None, Thrown(e))
        case Rows(false) => CreateRun(both, None, Thrown(SpotTakenMessage))
        case Rows(true) =>
          CreateRun(both, Some(NewBooking(date, spot, userName, licensePlate, userId)),
                    SettleWrite(insert, CreateDeniedMessage, CreateFailedMessage))
    }

    /** `cancelBooking`: deletes the document, mapping a failure to a message. */
    function CancelBooking(bookingId: string, reply: WriteReply): (r: CancelRun)
      ensures r.deleted == Some(bookingId)
      ensures r.outcome.Done? <==> reply.WriteOk?
      ensures reply == WriteFailed(Some(PermissionDeniedCode)) ==> r.outcome == Thrown(CancelDeniedMessage)
      ensures reply.WriteFailed? && reply.code != Some(PermissionDeniedCode) ==> r.outcome == Thrown(CancelFailedMessage)
    {
      CancelRun(Some(bookingId), SettleWrite(reply, CancelDeniedMessage, CancelFailedMessage))
    }

    /** `cancelBookingBySpot`: cancels the booking the map shows for the spot,
        or fails without deleting anything when the map shows none. */
    function CancelBookingBySpot(date: string, spot: int, reply: WriteReply): (r: CancelRun)
      reads this
      ensures r.deleted.Some? <==> date in bookingMap && spot in bookingMap[date]
      ensures r.deleted.Some? ==> r == CancelBooking(bookingMap[date][spot].id, reply)
      ensures r.deleted.None? ==> r.outcome == Thrown(NotFoundMessage)
    {
      match Lookup(bookingMap, date, spot)
      case None => CancelRun(None, Thrown(NotFoundMessage))
      case Some(b) => CancelBooking(b.id, reply)
    }

    /** `unsubscribe`: releases the current handle, if any, and forgets it. */
    method Unsubscribe()
      requires Valid()
      modifies this, store
      ensures Valid() && unSub.None? && store.live == map[]
      ensures store.released == old(store.released) + (if old(unSub).Some? then [old(unSub).value] else [])
      ensures bookingMap == old(bookingMap) && loading == old(loading) && error == old(error)
    {
      Teardown();
      unSub := None;
    }
  }

  /** The callback of a single-date listener: one spot map, documents
      applied in snapshot order. */
  method BuildDayMap(snap: seq<BookingDoc>) returns (dayMap: DayMap)
    ensures dayMap == DayMapOf(snap)
  {
    dayMap := map[];
    for i := 0 to |snap|
      invariant dayMap == DayMapOf(snap[..i])
    {
      assert snap[..i + 1][..i] == snap[..i];
      dayMap := dayMap[snap[i].spot := OccupantOf(snap[i])];
    }
    assert snap[..|snap|] == snap;
  }

  /** The callback of a range or user listener: a spot map per date, created
      when the date first appears. */
  method BuildRangeMap(snap: seq<BookingDoc>) returns (m: BookingMap)
    ensures m == RangeMapOf(snap)
  {
    m := map[];
    for i := 0 to |snap|
      invariant m == RangeMapOf(snap[..i])
    {
      assert snap[..i + 1][..i] == snap[..i];
      var d := snap[i];
      if d.date !in m {
        m := m[d.date := map[]];
      }
      m := m[d.date := m[d.date][d.spot := OccupantOf(d)]];
    }
    assert snap[..|snap|] == snap;
  }

  /** The dates a snapshot for `q` may put in the map: the queried date, or
      the dates of the documents delivered. */
  ghost function DayOrRangeDates(q: Query, snap: seq<BookingDoc>): set<string> {
    if q.OnDate? then {q.date}
    else set d | d in snap && Matches(q, d) :: d.date
  }

  /** `part` lists the spots `spots` of `date` once each, with their occupants. */
  ghost predicate DayListed(bm: BookingMap, date: string, spots: set<int>, part: seq<Booking>) {
    (forall i :: 0 <= i < |part| ==>
       part[i].date == date && part[i].spot in spots
       && Lookup(bm, date, part[i].spot) == Some(Occupant(part[i].id, part[i].licensePlate, part[i].name, part[i].userId)))
    && (forall i, j :: 0 <= i < j < |part| ==> part[i].spot != part[j].spot)
    && (forall spot :: spot in spots ==> Listed(part, date, spot))
  }

  /** `r` lists the occupied spots of the dates `dates` once each. */
  ghost predicate FlattensOn(bm: BookingMap, dates: set<string>, r: seq<Booking>) {
    (forall i :: 0 <= i < |r| ==>
       r[i].date in dates
       && Lookup(bm, r[i].date, r[i].spot) == Some(Occupant(r[i].id, r[i].licensePlate, r[i].name, r[i].userId)))
    && (forall i, j :: 0 <= i < j < |r| ==> r[i].date != r[j].date || r[i].spot != r[j].spot)
    && (forall date, spot :: date in dates && date in bm && spot in bm[date] ==> Listed(r, date, spot))
  }

  /** Listing one more spot of the date keeps the day's entries exact. */
  lemma DayListedStep(bm: BookingMap, date: string, done: set<int>, part: seq<Booking>, spot: int)
    requires date in bm && spot in bm[date] && spot !in done
    requires DayListed(bm, date, done, part)
    ensures var b := bm[date][spot];
      DayListed(bm, date, done + {spot}, part + [Booking(b.id, date, spot, b.licensePlate, b.name, b.userId)])
  {
    var b := bm[date][spot];
    var x := Booking(b.id, date, spot, b.licensePlate, b.name, b.userId);
    var all := part + [x];
    ListedGrows(part, x);
    assert all[|part|] == x;
    assert forall i :: 0 <= i < |part| ==> all[i] == part[i];
  }

  lemma FlattensOnAppend(bm: BookingMap, dates: set<string>, r: seq<Booking>, date: string, part: seq<Booking>)
    requires date in bm && date !in dates
    requires FlattensOn(bm, dates, r) && DayListed(bm, date, bm[date].Keys, part)
    ensures FlattensOn(bm, dates + {date}, r + part)
  {
    var all := r + part;
    forall i | 0 <= i < |all|
      ensures all[i].date in dates + {date}
      ensures Lookup(bm, all[i].date, all[i].spot) == Some(Occupant(all[i].id, all[i].licensePlate, all[i].name, all[i].userId))
    {
      if i >= |r| { assert all[i] == part[i - |r|]; }
    }
    forall i, j | 0 <= i < j < |all|
      ensures all[i].date != all[j].date || all[i].spot != all[j].spot
    {
      if j >= |r| {
        assert all[j] == part[j - |r|];
        if i >= |r| { assert all[i] == part[i - |r|]; }
      }
    }
    forall d, spot | d in dates + {date} && d in bm && spot in bm[d]
      ensures Listed(all, d, spot)
    {
      if d == date {
        var k :| 0 <= k < |part| && part[k].date == d && part[k].spot == spot;
        assert all[|r| + k] == part[k];
      } else {
        var k :| 0 <= k < |r| && r[k].date == d && r[k].spot == spot;
        assert all[k] == r[k];
      }
    }
  }

  lemma FlattensOnAll(bm: BookingMap, r: seq<Booking>)
    requires FlattensOn(bm, bm.Keys, r)
    ensures Flattens(bm, r)
  {
  }

  /** Some value of `m` is held by `uid` exactly when some key maps to one. */
  lemma ValuesHeldBy(m: DayMap, uid: string)
    ensures (exists o :: o in m.Values && o.userId == uid) <==> exists k :: k in m && m[k].userId == uid
  {
    if exists k :: k in m && m[k].userId == uid {
      var k :| k in m && m[k].userId == uid;
      assert m[k] in m.Values;
    }
  }

  /** A non-empty set has a member to pick. */
  lemma HasMember<T>(s: set<T>) returns (x: T)
    requires s != {}
    ensures x in s
  {
    if forall y :: y !in s {
      assert false;
    }
    x :| x in s;
  }

  /** An entry already listed stays listed when the list grows. */
  lemma ListedGrows(r: seq<Booking>, x: Booking)
    ensures forall date, spot :: Listed(r, date, spot) ==> Listed(r + [x], date, spot)
    ensures Listed(r + [x], x.date, x.spot)
  {
    forall date, spot | Listed(r, date, spot)
      ensures Listed(r + [x], date, spot)
    {
      var i :| 0 <= i < |r| && r[i].date == date && r[i].spot == spot;
      assert (r + [x])[i] == r[i];
    }
    assert (r + [x])[|r|] == x;
  }

  /** Replacing a subscription: once the second date is subscribed, only its
      listener runs, so the map ends up holding that date alone. */
  method ReplaceSubscription(first: string, second: string, snap: seq<BookingDoc>) returns (dates: set<string>)
    requires first != "" && second != ""
    requires forall d :: d in snap ==> d.date == second
    ensures dates == {second}
  {
    var sync := new BookingSync("uid", "name");
    sync.SubscribeToDate(first);
    var old_handle := sync.unSub.value;
    sync.SubscribeToDate(second);
    assert old_handle !in sync.store.live;
    sync.OnSnapshot(sync.unSub.value, snap);
    dates := sync.bookingMap.Keys;
  }

  /** Subscribing to an empty date releases the old listener but keeps its
      handle, so a later `unsubscribe` releases that handle a second time. */
  method StaleHandleReleasedTwice(date: string) returns (released: seq<Handle>)
    requires date != ""
    ensures released == [0, 0]
  {
    var sync := new BookingSync("uid", "name");
    sync.SubscribeToDate(date);
    sync.SubscribeToDate("");
    sync.Unsubscribe();
    released := sync.store.released;
  }
}
