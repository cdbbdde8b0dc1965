/** The car list of one user: the licence-plate normaliser and its checks,
    the live list rebuilt and sorted on every push, and the error mapping of
    adding and removing a car. */
module Cars {
  import opened Wrappers
  import opened Text
  import opened Store

  /** A car document; `createdAt` is its creation time in whole microseconds,
      the resolution of the store's server timestamps, or missing while the store has not filled it in yet. */
  datatype Car = Car(id: string, licensePlate: string, userId: string, createdAt: Option<int>)

  /** The fields of a new car document (its creation time is set by the store). */
  datatype NewCar = NewCar(userId: string, licensePlate: string)

  /** What one `addCar` call does: the document it writes, if any, and how it settles. */
  datatype AddRun = AddRun(written: Option<NewCar>, outcome: Outcome)

  /** What one `removeCar` call does: the document it deletes and how it settles. */
  datatype RemoveRun = RemoveRun(deleted: string, outcome: Outcome)

  const LoadFailedMessage := "Kunde inte ladda bilar"
  const LengthMessage := "Registreringsnummer måste vara exakt 6 tecken"
  const PatternMessage := "Ogiltigt registreringsnummer. Använd endast A-Z och 0-9"
  const DuplicateMessage := "Denna bil finns redan i listan"
  const AddDeniedMessage := "Du har inte behörighet att lägga till bil"
  const AddFailedMessage := "Kunde inte lägga till bil. Försök igen."
  const RemoveDeniedMessage := "Du har inte behörighet att ta bort bil"
  const RemoveFailedMessage := "Kunde inte ta bort bil. Försök igen."

  const PlateLength := 6

  /** A character of the class `[A-Z0-9]`. */
  predicate IsPlateChar(c: char) {
    'A' <= c <= 'Z' || '0' <= c <= '9'
  }

  /** The white space and line terminators `trim` removes. */
  predicate IsJsSpace(c: char) {
    var n := c as int;
    n == 0x09 || n == 0x0A || n == 0x0B || n == 0x0C || n == 0x0D || n == 0x20 || n == 0xA0
    || n == 0x1680 || (0x2000 <= n <= 0x200A) || n == 0x2028 || n == 0x2029 || n == 0x202F
    || n == 0x205F || n == 0x3000 || n == 0xFEFF
  }

  /** Upper case of an ASCII letter; every other character is kept. */
  function UpperAscii(c: char): char {
    if 'a' <= c <= 'z' then (c as int - 32) as char else c
  }

  /** `toUpperCase` on ASCII: no lower-case letter is left, each one becomes
      its capital, and every other character stays where it was. */
  function ToUpper(s: string): (r: string)
    ensures |r| == |s|
    ensures forall i :: 0 <= i < |r| ==> !('a' <= r[i] <= 'z')
    ensures forall i :: 0 <= i < |s| && 'a' <= s[i] <= 'z' ==> r[i] as int + 32 == s[i] as int
    ensures forall i :: 0 <= i < |s| && !('a' <= s[i] <= 'z') ==> r[i] == s[i]
  {
    seq(|s|, i requires 0 <= i < |s| => UpperAscii(s[i]))
  }

  function TrimStart(s: string): string {
    if s != [] && IsJsSpace(s[0]) then TrimStart(s[1..]) else s
  }

  function TrimEnd(s: string): string {
    if s != [] && IsJsSpace(s[|s| - 1]) then TrimEnd(s[..|s| - 1]) else s
  }

  function Trim(s: string): string {
    TrimEnd(TrimStart(s))
  }

  /** `replace(/[^A-Z0-9]/g, '')`: the plate characters of `s`, in order. */
  function Keep(s: string): (r: string)
    ensures |r| <= |s|
    ensures forall i :: 0 <= i < |r| ==> IsPlateChar(r[i])
  {
    if s == [] then [] else (if IsPlateChar(s[0]) then [s[0]] else []) + Keep(s[1..])
  }

  /** `slice(0, 6)`. */
  function Take6(s: string): string {
    if |s| <= PlateLength then s else s[..PlateLength]
  }

  /** The plate `addCar` works with: upper-cased, trimmed, reduced to
      `[A-Z0-9]` and cut to six characters. */
  function NormalizePlate(input: string): (p: string)
    ensures |p| <= PlateLength
    ensures forall i :: 0 <= i < |p| ==> IsPlateChar(p[i])
  {
    Take6(Keep(Trim(ToUpper(input))))
  }

  /** `/^[A-Z0-9]{6}$/.test(plate)`. */
  predicate MatchesPlatePattern(p: string) {
    |p| == PlateLength && forall i :: 0 <= i < |p| ==> IsPlateChar(p[i])
  }

  /** Every plate character of `s` is kept, as often as it occurs. */
  lemma {:induction false} KeepKeepsPlateChars(s: string, x: char)
    requires IsPlateChar(x)
    ensures multiset(Keep(s))[x] == multiset(s)[x]
  {
    if s != [] {
      assert s == [s[0]] + s[1..];
      KeepKeepsPlateChars(s[1..], x);
    }
  }

  lemma {:induction false} KeepAppend(a: string, b: string)
    ensures Keep(a + b) == Keep(a) + Keep(b)
  {
    if a != [] {
      assert (a + b)[1..] == a[1..] + b;
      KeepAppend(a[1..], b);
    } else {
      assert a + b == b;
    }
  }

  lemma {:induction false} KeepIgnoresTrimStart(s: string)
    ensures Keep(TrimStart(s)) == Keep(s)
  {
    if s != [] && IsJsSpace(s[0]) {
      KeepIgnoresTrimStart(s[1..]);
    }
  }

  lemma {:induction false} KeepIgnoresTrimEnd(s: string)
    ensures Keep(TrimEnd(s)) == Keep(s)
  {
    if s != [] && IsJsSpace(s[|s| - 1]) {
      var p := s[..|s| - 1];
      KeepIgnoresTrimEnd(p);
      assert s == p + [s[|s| - 1]];
      KeepAppend(p, [s[|s| - 1]]);
    }
  }

  /** Trimming is subsumed by the character filter: the plate is the first six
      plate characters of the upper-cased input. */
  lemma NormalizeIgnoresTrim(input: string)
    ensures NormalizePlate(input) == Take6(Keep(ToUpper(input)))
    ensures |NormalizePlate(input)| < PlateLength <==> |Keep(ToUpper(input))| < PlateLength
  {
    KeepIgnoresTrimStart(ToUpper(input));
    KeepIgnoresTrimEnd(TrimStart(ToUpper(input)));
  }

  /** The pattern check after the length check never fails: a normalised plate
      of six characters always matches `^[A-Z0-9]{6}$`. */
  lemma PatternCheckNeverFails(input: string)
    ensures |NormalizePlate(input)| == PlateLength ==> MatchesPlatePattern(NormalizePlate(input))
  {
  }

  lemma {:induction false} KeepOfPlate(p: string)
    requires forall i :: 0 <= i < |p| ==> IsPlateChar(p[i])
    ensures Keep(p) == p
  {
    if p != [] {
      KeepOfPlate(p[1..]);
      assert p == [p[0]] + p[1..];
    }
  }

  /** Normalising a normalised plate changes nothing. */
  lemma NormalizeIdempotent(input: string)
    ensures NormalizePlate(NormalizePlate(input)) == NormalizePlate(input)
  {
    var p := NormalizePlate(input);
    assert ToUpper(p) == p;
    assert TrimStart(p) == p;
    assert TrimEnd(p) == p;
    KeepOfPlate(p);
  }

  /** The comparator of the push callback: newest first when both cars carry
      a creation time, by plate otherwise. */
  function CompareCars(a: Car, b: Car): (r: int)
    ensures a.createdAt.Some? && b.createdAt.Some? ==>
      && (r < 0 <==> a.createdAt.value > b.createdAt.value)
      && (r == 0 <==> a.createdAt.value == b.createdAt.value)
    ensures !(a.createdAt.Some? && b.createdAt.Some?) ==>
      && -1 <= r <= 1
      && (r == 0 <==> a.licensePlate == b.licensePlate)
      && r == Compare(a.licensePlate, b.licensePlate)
  {
    if a.createdAt.Some? && b.createdAt.Some? then b.createdAt.value - a.createdAt.value
    else
      CompareZeroIffEqual(a.licensePlate, b.licensePlate);
      Compare(a.licensePlate, b.licensePlate)
  }

  predicate Le(a: Car, b: Car) {
    CompareCars(a, b) <= 0
  }

  /** Swapping the arguments negates the comparator, so any two cars are ordered. */
  lemma CompareCarsAntisymmetric(a: Car, b: Car)
    ensures CompareCars(b, a) == -CompareCars(a, b)
    ensures Le(a, b) || Le(b, a)
  {
    CompareAntisymmetric(a.licensePlate, b.licensePlate);
  }

  /** The comparator is transitive on the cars `cs`. */
  ghost predicate TransitiveOn(cs: set<Car>) {
    forall a, b, c :: a in cs && b in cs && c in cs && Le(a, b) && Le(b, c) ==> Le(a, c)
  }

  /** When all cars have a creation time, or none has, the comparator is transitive. */
  lemma UniformCarsTransitive(cs: set<Car>)
    requires (forall c :: c in cs ==> c.createdAt.Some?) || (forall c :: c in cs ==> c.createdAt.None?)
    ensures TransitiveOn(cs)
  {
    forall a, b, c | a in cs && b in cs && c in cs && Le(a, b) && Le(b, c)
      ensures Le(a, c)
    {
      if a.createdAt.None? {
        CompareTransitive(a.licensePlate, b.licensePlate, c.licensePlate);
      }
    }
  }

  /** With creation times on some cars only, the comparator is not transitive:
      A (time 1) precedes B (no time) precedes C (time 2), yet C precedes A. */
  lemma MixedCarsIntransitive()
    ensures !TransitiveOn({Car("a", "A", "u", Some(1)), Car("b", "B", "u", None), Car("c", "C", "u", Some(2))})
  {
    var a, b, c := Car("a", "A", "u", Some(1)), Car("b", "B", "u", None), Car("c", "C", "u", Some(2));
    assert Le(a, b) && Le(b, c) && !Le(a, c);
  }

  predicate Sorted(s: seq<Car>) {
    forall i, j :: 0 <= i < j < |s| ==> Le(s[i], s[j])
  }

  /** Inserts `x` after every car it does not precede. */
  function Insert(x: Car, s: seq<Car>): (r: seq<Car>)
    ensures multiset(r) == multiset(s) + multiset{x}
  {
    if s == [] then [x]
    else if CompareCars(x, s[0]) < 0 then [x] + s
    else
      assert s == [s[0]] + s[1..];
      [s[0]] + Insert(x, s[1..])
  }

  /** `carList.sort(...)`: a stable sort under the comparator. */
  function SortCars(s: seq<Car>): (r: seq<Car>)
    ensures multiset(r) == multiset(s)
  {
    if s == [] then []
    else
      assert s == s[..|s| - 1] + [s[|s| - 1]];
      Insert(s[|s| - 1], SortCars(s[..|s| - 1]))
  }

  /** A car ordered before every car of a sorted list can go in front. */
  lemma ConsSorted(y: Car, r: seq<Car>)
    requires Sorted(r) && forall k :: 0 <= k < |r| ==> Le(y, r[k])
    ensures Sorted([y] + r)
  {
    forall i, j | 0 <= i < j < |[y] + r|
      ensures Le(([y] + r)[i], ([y] + r)[j])
    {
      if i > 0 {
        assert ([y] + r)[i] == r[i - 1];
      }
    }
  }

  /** Transitivity on a set holds on any part of it. */
  lemma TransitiveSubset(cs: set<Car>, ds: set<Car>)
    requires ds <= cs && TransitiveOn(cs)
    ensures TransitiveOn(ds)
  {
  }

  /** `x` goes in front of a sorted list whose head it precedes. */
  lemma InsertFront(x: Car, s: seq<Car>)
    requires s != [] && Sorted(s) && Le(x, s[0])
    requires TransitiveOn(set c | c in s + [x])
    ensures Sorted([x] + s)
  {
    var cs := set c | c in s + [x];
    assert s[0] in cs && x in cs;
    forall j | 0 <= j < |s|
      ensures Le(x, s[j])
    {
      assert s[j] in cs;
    }
    ConsSorted(x, s);
  }

  /** The head `y` of a sorted list stays in front when `x`, which it
      precedes, is inserted behind it. */
  lemma InsertBehind(y: Car, x: Car, t: seq<Car>)
    requires Sorted([y] + t) && Le(y, x) && Sorted(Insert(x, t))
    ensures Sorted([y] + Insert(x, t))
  {
    var r := Insert(x, t);
    forall k | 0 <= k < |r|
      ensures Le(y, r[k])
    {
      assert r[k] in multiset(r);
      if r[k] != x {
        assert r[k] in t;
        var j :| 0 <= j < |t| && t[j] == r[k];
        assert ([y] + t)[0] == y && ([y] + t)[j + 1] == t[j];
      }
    }
    ConsSorted(y, r);
  }

  lemma {:induction false} InsertSorted(x: Car, s: seq<Car>)
    requires Sorted(s)
    requires TransitiveOn(set c | c in s + [x])
    ensures Sorted(Insert(x, s))
  {
    if s != [] {
      if CompareCars(x, s[0]) < 0 {
        InsertFront(x, s);
      } else {
        var t := s[1..];
        assert s == [s[0]] + t;
        TransitiveSubset(set c | c in s + [x], set c | c in t + [x]);
        assert Sorted(t) by {
          forall i, j | 0 <= i < j < |t|
            ensures Le(t[i], t[j])
          {
            assert t[i] == s[i + 1] && t[j] == s[j + 1];
          }
        }
        InsertSorted(x, t);
        CompareCarsAntisymmetric(x, s[0]);
        InsertBehind(s[0], x, t);
      }
    }
  }

  /** Sorting rearranges the list, and orders it whenever the comparator is
      transitive on its cars. */
  lemma {:induction false} SortCarsSorted(s: seq<Car>)
    requires TransitiveOn(set c | c in s)
    ensures Sorted(SortCars(s))
    ensures multiset(SortCars(s)) == multiset(s)
  {
    if s != [] {
      var p := s[..|s| - 1];
      assert forall c :: c in p ==> c in s;
      SortCarsSorted(p);
      var r := SortCars(p);
      forall c | c in r + [s[|s| - 1]]
        ensures c in s
      {
        if c in r {
          assert c in multiset(r);
          assert c in p;
        }
      }
      InsertSorted(s[|s| - 1], r);
    }
  }

  /** The live car list of user `userId`. */
  class CarList {
    const userId: string
    const store: Registry<string>
    var cars: seq<Car>
    var loading: bool
    var error: Option<string>
    var unSub: Option<Handle>

    /** At most one listener runs, and it is the one `unSub` releases. */
    ghost predicate Valid()
      reads this, store
    {
      store.Valid() && forall h :: h in store.live ==> unSub == Some(h)
    }

    constructor (userId: string)
      ensures Valid() && fresh(store) && this.userId == userId
      ensures cars == [] && !loading && error.None? && unSub.None?
      ensures store.live == map[] && store.next == 0 && store.released == []
    {
      this.userId := userId;
      store := new Registry();
      cars := [];
      loading := false;
      error := None;
      unSub := None;
    }

    /** `if (unSub) unSub()`: releases the handle recorded last, stale or not,
        and keeps it recorded. */
    method Detach()
      requires Valid()
      modifies store
      ensures Valid() && store.live == map[] && store.next == old(store.next)
      ensures store.released == old(store.released) + (if unSub.Some? then [unSub.value] else [])
    {
      if unSub.Some? {
        store.Release(unSub.value);
      }
      assert forall h :: h !in store.live;
    }

    /** `bindRealtime`: replaces the listener by one on the user's cars; an
        empty user id only tears the old one down. */
    method BindRealtime()
      requires Valid()
      modifies this, store
      ensures Valid()
      ensures store.released == old(store.released) + (if old(unSub).Some? then [old(unSub).value] else [])
      ensures userId == "" ==> store.live == map[] && unSub == old(unSub) && loading == old(loading)
      ensures userId != "" ==> store.live == map[old(store.next) := userId] && unSub == Some(old(store.next)) && loading
      ensures cars == old(cars) && error == old(error)
    {
      Detach();
      if userId == "" {
        return;
      }
      loading := true;
      var h := store.Listen(userId);
      unSub := Some(h);
    }

    /** A push to the live listener `h` replaces the list by the sorted copy
        of the snapshot and clears the error. */
    method OnSnapshot(h: Handle, snap: seq<Car>)
      requires Valid() && h in store.live
      modifies this
      ensures Valid() && unSub == old(unSub)
      ensures cars == SortCars(snap)
      ensures multiset(cars) == multiset(snap)
      ensures TransitiveOn(set c | c in snap) ==> Sorted(cars)
      ensures !loading && error.None?
    {
      var carList: seq<Car> := [];
      for i := 0 to |snap|
        invariant carList == snap[..i]
      {
        var d := snap[i];
        carList := carList + [Car(d.id, d.licensePlate, d.userId, d.createdAt)];
      }
      assert carList == snap;
      if TransitiveOn(set c | c in snap) {
        SortCarsSorted(snap);
      }
      cars := SortCars(carList);
      loading := false;
      error := None;
    }

    /** An error ends listener `h`; the list is kept and the error is shown. */
    method OnSnapshotError(h: Handle)
      requires Valid() && h in store.live
      modifies this, store
      ensures Valid() && store.live == map[] && unSub == old(unSub)
      ensures store.released == old(store.released)
      ensures cars == old(cars)
      ensures error == Some(LoadFailedMessage) && !loading
    {
      store.Drop(h);
      assert forall k :: k !in store.live;
      error := Some(LoadFailedMessage);
      loading := false;
    }

    /** `addCar`: normalises the plate, refuses a plate that is too short or
        already listed, and otherwise writes the car. */
    function AddCar(input: string, insert: WriteReply): (r: AddRun)
      reads this
      ensures var p := NormalizePlate(input);
        && (|p| != PlateLength ==> r == AddRun(None, Thrown(LengthMessage)))
        && (|p| == PlateLength && (exists i :: 0 <= i < |cars| && cars[i].licensePlate == p) ==>
              r == AddRun(None, Thrown(DuplicateMessage)))
        && (r.written.Some? <==>
              |p| == PlateLength && forall i :: 0 <= i < |cars| ==> cars[i].licensePlate != p)
        && (r.written.Some? ==>
              r.written.value == NewCar(userId, p)
              && r.outcome == SettleWrite(insert, AddDeniedMessage, AddFailedMessage))
    {
      var plate := NormalizePlate(input);
      if |plate| != PlateLength then AddRun(None, Thrown(LengthMessage))
      else if !MatchesPlatePattern(plate) then AddRun(None, Thrown(PatternMessage))
      else if exists i :: 0 <= i < |cars| && cars[i].licensePlate == plate then AddRun(None, Thrown(DuplicateMessage))
      else AddRun(Some(NewCar(userId, plate)), SettleWrite(insert, AddDeniedMessage, AddFailedMessage))
    }

    /** `removeCar`: deletes the document, mapping a failure to a message. */
    function RemoveCar(carId: string, reply: WriteReply): (r: RemoveRun)
      ensures r.deleted == carId
      ensures r.outcome.Done? <==> reply.WriteOk?
      ensures reply == WriteFailed(Some(PermissionDeniedCode)) ==> r.outcome == Thrown(RemoveDeniedMessage)
      ensures reply.WriteFailed? && reply.code != Some(PermissionDeniedCode) ==> r.outcome == Thrown(RemoveFailedMessage)
    {
      RemoveRun(carId, SettleWrite(reply, RemoveDeniedMessage, RemoveFailedMessage))
    }
  }

  /** Adding the plate of a listed car again, in any spelling, is refused. */
  lemma AddListedPlateRefused(list: CarList, input: string, insert: WriteReply, i: nat)
    requires i < |list.cars| && list.cars[i].licensePlate == NormalizePlate(input)
    ensures list.AddCar(input, insert).written.None?
  {
  }
}
