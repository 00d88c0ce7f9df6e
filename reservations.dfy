/** The booking and cancellation handlers: a fixed chain of checks on a parsed
    request, then one append to (or one removal from) the store. */
module ReservationRoutes {
  import opened Types
  import opened Seqs
  import opened Recommendation
  import opened MemoryStore

  /** A POST body after schema parsing, with start and end as instants. */
  datatype CreateRequest = CreateRequest(
    roomId: string,
    title: string,
    start: int,
    end: int,
    attendees: int,
    purpose: Option<string>,
    createdBy: Option<string>)

  /** Every way the POST handler can answer. */
  datatype CreateOutcome =
    | InvalidBody
    | RoomNotFound
    | NotAligned
    | EndNotAfterStart
    | DurationOutOfRange
    | SlotTaken
    | Created(reservation: Reservation)

  function CreateStatus(o: CreateOutcome): (code: int)
    ensures code == 201 <==> o.Created?
    ensures code == 404 <==> o.RoomNotFound?
    ensures code == 409 <==> o.SlotTaken?
    ensures code == 400 <==> o.InvalidBody? || o.NotAligned? || o.EndNotAfterStart? || o.DurationOutOfRange?
  {
    match o
    case Created(_) => 201
    case RoomNotFound => 404
    case SlotTaken => 409
    case _ => 400
  }

  // The UTC time fields of an instant, as ECMAScript defines them (floor division, non-negative remainder).
  function UtcMilliseconds(t: int): int { t % 1000 }
  function UtcSeconds(t: int): int { (t / 1000) % 60 }
  function UtcMinutes(t: int): int { (t / 60000) % 60 }

  /** The 15-minute grid test of the POST handler, on the instant's UTC fields. */
  function Is15(t: int): (onGrid: bool)
    ensures onGrid <==> t % QuarterHourMs == 0
  {
    Is15OnGrid(t);
    UtcMinutes(t) % 15 == 0 && UtcSeconds(t) == 0 && UtcMilliseconds(t) == 0
  }

  const QuarterHourMs: int := 15 * 60000

  /** On the grid exactly when the instant is a whole number of quarter hours. */
  lemma Is15OnGrid(t: int)
    ensures UtcMinutes(t) % 15 == 0 && UtcSeconds(t) == 0 && UtcMilliseconds(t) == 0 <==> t % QuarterHourMs == 0
  {
    if t % QuarterHourMs == 0 {
      var q := t / QuarterHourMs;
      assert t == 1000 * (900 * q);
      assert t / 1000 == 900 * q;
      assert 900 * q == 60 * (15 * q);
      assert t == 60000 * (15 * q);
      assert t / 60000 == 15 * q;
      assert 15 * q == 60 * (q / 4) + 15 * (q % 4);
      assert (15 * q) % 60 == 15 * (q % 4);
    }
    if UtcMinutes(t) % 15 == 0 && UtcSeconds(t) == 0 && UtcMilliseconds(t) == 0 {
      var a := t / 1000;
      assert t == 1000 * a;
      var b := a / 60;
      assert a == 60 * b;
      assert t == 60000 * b;
      assert t / 60000 == b;
      var c, m := b / 60, b % 60;
      assert m == 15 * (m / 15);
      assert t == QuarterHourMs * (4 * c + m / 15);
    }
  }

  /** The schema's checks that concern the handler: a non-empty title and at least one attendee. */
  predicate BodyValid(req: CreateRequest)
  {
    |req.title| >= 1 && req.attendees >= 1
  }

  /** The length of [start, end) in minutes, computed by real division as the handler does. */
  function DurationMinutes(start: int, end: int): real
  {
    (end - start) as real / 60000.0
  }

  function CreatorOf(req: CreateRequest): string
  {
    match req.createdBy
    case Some(who) => who
    case None => "anonymous"
  }

  /** The guard chain of the POST handler, decided on the store's current contents. */
  function Decide(rooms: seq<Room>, reservations: seq<Reservation>, req: CreateRequest, id: string): (o: CreateOutcome)
    ensures o.InvalidBody? <==> !BodyValid(req)
    ensures o.RoomNotFound? <==> BodyValid(req) && forall room :: room in rooms ==> room.id != req.roomId
    ensures o.NotAligned? <==>
              BodyValid(req) && (exists room :: room in rooms && room.id == req.roomId) &&
              (req.start % QuarterHourMs != 0 || req.end % QuarterHourMs != 0)
    ensures o.EndNotAfterStart? <==>
              BodyValid(req) && (exists room :: room in rooms && room.id == req.roomId) &&
              req.start % QuarterHourMs == 0 && req.end % QuarterHourMs == 0 && req.end <= req.start
    ensures o.DurationOutOfRange? <==>
              BodyValid(req) && (exists room :: room in rooms && room.id == req.roomId) &&
              req.start % QuarterHourMs == 0 && req.end % QuarterHourMs == 0 && req.start < req.end &&
              (req.end - req.start < 15 * 60000 || req.end - req.start > 120 * 60000)
    ensures o.SlotTaken? <==>
              BodyValid(req) && (exists room :: room in rooms && room.id == req.roomId) &&
              req.start % QuarterHourMs == 0 && req.end % QuarterHourMs == 0 &&
              15 * 60000 <= req.end - req.start <= 120 * 60000 &&
              exists r :: r in reservations && r.roomId == req.roomId && Overlaps(r.start, r.end, req.start, req.end)
    ensures o.Created? ==>
              o.reservation.id == id && o.reservation.roomId == req.roomId && o.reservation.title == req.title &&
              o.reservation.start == req.start && o.reservation.end == req.end &&
              o.reservation.attendees == req.attendees && o.reservation.purpose == req.purpose &&
              o.reservation.createdBy == (if req.createdBy.Some? then req.createdBy.value else "anonymous")
  {
    if !BodyValid(req) then InvalidBody
    else if Find(rooms, RoomWithId(req.roomId)).None? then RoomNotFound
    else if !Is15(req.start) || !Is15(req.end) then NotAligned
    else if req.end <= req.start then EndNotAfterStart
    else
      var duration := DurationMinutes(req.start, req.end);
      if duration < 15.0 || duration > 120.0 then DurationOutOfRange
      else if !IsRoomAvailable(req.roomId, req.start, req.end, reservations) then SlotTaken
      else
        Created(Reservation(id, req.roomId, req.title, req.start, req.end, req.attendees, req.purpose, CreatorOf(req)))
  }

  /** No two reservations of one room overlap as half-open intervals, in the sense of `Overlaps`. */
  predicate NonOverlapping(reservations: seq<Reservation>)
  {
    forall i, j :: 0 <= i < j < |reservations| && reservations[i].roomId == reservations[j].roomId ==>
      !Overlaps(reservations[i].start, reservations[i].end, reservations[j].start, reservations[j].end)
  }

  /** What every booking the handler accepts satisfies. */
  predicate WellFormed(r: Reservation)
  {
    r.start % QuarterHourMs == 0 && r.end % QuarterHourMs == 0 &&
    15 * 60000 <= r.end - r.start <= 120 * 60000
  }

  /** An accepted booking lies on the grid and lasts 15, 30, ..., or 120 minutes. */
  lemma BookingIsWellFormed(rooms: seq<Room>, reservations: seq<Reservation>, req: CreateRequest, id: string)
    requires Decide(rooms, reservations, req, id).Created?
    ensures WellFormed(Decide(rooms, reservations, req, id).reservation)
    ensures (req.end - req.start) % QuarterHourMs == 0
    ensures (req.end - req.start) / 60000 in {15, 30, 45, 60, 75, 90, 105, 120}
  {
    assert req.start % QuarterHourMs == 0 && req.end % QuarterHourMs == 0;
    assert 15 * 60000 <= req.end - req.start <= 120 * 60000;
    var a, b := req.start / QuarterHourMs, req.end / QuarterHourMs;
    assert req.start == QuarterHourMs * a && req.end == QuarterHourMs * b;
    var d := b - a;
    assert req.end - req.start == QuarterHourMs * d;
    assert 1 <= d <= 8;
    assert (req.end - req.start) % QuarterHourMs == 0;
    assert req.end - req.start == 60000 * (15 * d);
    assert (req.end - req.start) / 60000 == 15 * d;
  }

  lemma NonOverlappingAppend(reservations: seq<Reservation>, r: Reservation)
    requires NonOverlapping(reservations)
    requires forall x :: x in reservations && x.roomId == r.roomId ==> !Overlaps(x.start, x.end, r.start, r.end)
    ensures NonOverlapping(reservations + [r])
  {
    var all := reservations + [r];
    forall i, j | 0 <= i < j < |all| && all[i].roomId == all[j].roomId
      ensures !Overlaps(all[i].start, all[i].end, all[j].start, all[j].end)
    {
      if j == |reservations| {
        assert all[i] in reservations;
      }
    }
  }

  /** The headline invariant: a successful booking keeps every room's reservations pairwise apart. */
  lemma BookingKeepsNonOverlap(rooms: seq<Room>, reservations: seq<Reservation>, req: CreateRequest, id: string)
    requires NonOverlapping(reservations)
    requires Decide(rooms, reservations, req, id).Created?
    ensures NonOverlapping(reservations + [Decide(rooms, reservations, req, id).reservation])
  {
    var r := Decide(rooms, reservations, req, id).reservation;
    assert IsRoomAvailable(req.roomId, req.start, req.end, reservations);
    NonOverlappingAppend(reservations, r);
  }

  /** The POST handler: decide on the current store, and append on success only. */
  method CreateReservation(db: InMemoryStore, req: CreateRequest, id: string) returns (o: CreateOutcome)
    modifies db
    ensures o == Decide(old(db.rooms), old(db.reservations), req, id)
    ensures db.rooms == old(db.rooms)
    ensures db.reservations == if o.Created? then old(db.reservations) + [o.reservation] else old(db.reservations)
    ensures NonOverlapping(old(db.reservations)) ==> NonOverlapping(db.reservations)
  {
    o := Decide(db.GetRooms(), db.GetReservations(), req, id);
    if o.Created? {
      if NonOverlapping(db.reservations) {
        BookingKeepsNonOverlap(db.rooms, db.reservations, req, id);
      }
      db.AddReservation(o.reservation);
    }
  }

  datatype CancelOutcome = Deleted | ReservationNotFound

  function CancelStatus(o: CancelOutcome): (code: int)
    ensures code == 204 <==> o.Deleted?
    ensures code == 404 <==> o.ReservationNotFound?
  {
    match o
    case Deleted => 204
    case ReservationNotFound => 404
  }

  lemma {:induction false} NonOverlappingFilter(reservations: seq<Reservation>, p: Reservation -> bool)
    requires NonOverlapping(reservations)
    ensures NonOverlapping(Filter(reservations, p))
  {
    if |reservations| > 0 {
      var x, rest := reservations[0], reservations[1..];
      assert reservations == [x] + rest;
      assert NonOverlapping(rest) by {
        forall i, j | 0 <= i < j < |rest| && rest[i].roomId == rest[j].roomId
          ensures !Overlaps(rest[i].start, rest[i].end, rest[j].start, rest[j].end)
        {
          assert rest[i] == reservations[i + 1] && rest[j] == reservations[j + 1];
        }
      }
      NonOverlappingFilter(rest, p);
      FilterCons(x, rest, p);
      if p(x) {
        var kept := Filter(rest, p);
        forall i, j | 0 <= i < j < |[x] + kept| && ([x] + kept)[i].roomId == ([x] + kept)[j].roomId
          ensures !Overlaps(([x] + kept)[i].start, ([x] + kept)[i].end, ([x] + kept)[j].start, ([x] + kept)[j].end)
        {
          if i == 0 {
            var y := ([x] + kept)[j];
            assert y == kept[j - 1] && y in kept;
            assert y in rest;
            var k :| 0 <= k < |rest| && rest[k] == y;
            assert reservations[k + 1] == y;
          } else {
            assert ([x] + kept)[i] == kept[i - 1] && ([x] + kept)[j] == kept[j - 1];
          }
        }
      }
    }
  }

  /** Cancelling keeps the invariant. */
  lemma CancelKeepsNonOverlap(reservations: seq<Reservation>, id: string)
    requires NonOverlapping(reservations)
    ensures NonOverlapping(WithoutId(reservations, id))
  {
    NonOverlappingFilter(reservations, ReservationWithOtherId(id));
  }

  /** After cancelling `r`, its former slot is free for its room again. */
  lemma CancelFreesSlot(reservations: seq<Reservation>, r: Reservation)
    requires NonOverlapping(reservations)
    requires r in reservations
    ensures IsRoomAvailable(r.roomId, r.start, r.end, WithoutId(reservations, r.id))
  {
    var rest := WithoutId(reservations, r.id);
    forall y | y in rest && y.roomId == r.roomId ensures LeavesFree(y, r.start, r.end) {
      assert multiset(rest)[y] > 0;
      assert y in reservations;
      var i :| 0 <= i < |reservations| && reservations[i] == r;
      var j :| 0 <= j < |reservations| && reservations[j] == y;
      assert i != j;
      if i < j {
        assert !Overlaps(reservations[i].start, reservations[i].end, reservations[j].start, reservations[j].end);
      } else {
        assert !Overlaps(reservations[j].start, reservations[j].end, reservations[i].start, reservations[i].end);
      }
    }
  }

  /** The DELETE handler: 404 when no reservation has the id, otherwise remove them all. */
  method CancelReservation(db: InMemoryStore, id: string) returns (o: CancelOutcome)
    modifies db
    ensures o.ReservationNotFound? <==> forall r :: r in old(db.reservations) ==> r.id != id
    ensures o.ReservationNotFound? ==> db.reservations == old(db.reservations)
    ensures o.Deleted? ==> db.reservations == WithoutId(old(db.reservations), id)
    ensures forall r :: r in db.reservations ==> r.id != id
    ensures db.rooms == old(db.rooms)
    ensures NonOverlapping(old(db.reservations)) ==> NonOverlapping(db.reservations)
  {
    var existing := Find(db.GetReservations(), ReservationWithId(id));
    if existing.None? {
      return ReservationNotFound;
    }
    if NonOverlapping(db.reservations) {
      CancelKeepsNonOverlap(db.reservations, id);
    }
    db.RemoveReservation(id);
    return Deleted;
  }
}
