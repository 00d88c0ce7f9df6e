/** Availability of one room over a half-open interval, and the ranking of the
    rooms that fit a recommendation request. */
module Recommendation {
  import opened Types
  import opened Seqs

  /** What the recommend route hands to the engine; tags are already a set of known tags. */
  datatype RecommendInput = RecommendInput(
    durationMinutes: int,
    attendees: int,
    requiredEquipment: set<Equipment>,
    startFrom: int)

  /** A room paired with its score; lower is better. */
  datatype RoomCandidate = RoomCandidate(room: Room, score: int)

  const MsPerMinute: int := 60 * 1000

  /** The intervals [aStart, aEnd) and [bStart, bEnd) share an instant. */
  predicate Overlaps(aStart: int, aEnd: int, bStart: int, bEnd: int)
  {
    aStart < bEnd && bStart < aEnd
  }

  /** The per-reservation test: `r` ends by `s` or starts at or after `e`. */
  predicate LeavesFree(r: Reservation, s: int, e: int)
  {
    r.end <= s || r.start >= e
  }

  /** The room's own reservations, each of which must leave [s, e) free. */
  function IsRoomAvailable(roomId: string, s: int, e: int, reservations: seq<Reservation>): (available: bool)
    ensures available <==> forall r :: r in reservations && r.roomId == roomId ==> LeavesFree(r, s, e)
  {
    var own := Filter(reservations, ReservationOfRoom(roomId));
    assert forall r :: r in own <==> r in reservations && r.roomId == roomId;
    forall r | r in own :: LeavesFree(r, s, e)
  }

  /** Unavailability is exactly a half-open overlap with one of the room's reservations. */
  lemma UnavailableIffOverlap(roomId: string, s: int, e: int, reservations: seq<Reservation>)
    ensures !IsRoomAvailable(roomId, s, e, reservations) <==>
            exists r :: r in reservations && r.roomId == roomId && Overlaps(r.start, r.end, s, e)
  {
  }

  /** A reservation that ends exactly at `s` or starts exactly at `e` is no conflict. */
  lemma BackToBackIsFree(roomId: string, s: int, e: int, reservations: seq<Reservation>, r: Reservation)
    requires r.end == s || r.start == e
    ensures IsRoomAvailable(roomId, s, e, reservations + [r]) == IsRoomAvailable(roomId, s, e, reservations)
  {
  }

  /** Only the room's own reservations matter. */
  lemma OtherRoomsIrrelevant(roomId: string, s: int, e: int, reservations: seq<Reservation>)
    ensures IsRoomAvailable(roomId, s, e, reservations) ==
            IsRoomAvailable(roomId, s, e, Filter(reservations, ReservationOfRoom(roomId)))
  {
  }

  lemma NoReservationsMeansAvailable(roomId: string, s: int, e: int, reservations: seq<Reservation>)
    requires forall r :: r in reservations ==> r.roomId != roomId
    ensures IsRoomAvailable(roomId, s, e, reservations)
  {
  }

  /** Every required tag is among the room's tags; extra equipment is allowed. */
  predicate HasAll(room: Room, required: set<Equipment>)
  {
    forall eq | eq in required :: eq in room.equipment
  }

  lemma NothingRequiredAdmitsAll(room: Room)
    ensures HasAll(room, {})
  {
  }

  /** The end of the requested interval. */
  function End(input: RecommendInput): int
  {
    input.startFrom + input.durationMinutes * MsPerMinute
  }

  /** The room passes both filters of the recommendation. */
  predicate Eligible(input: RecommendInput, reservations: seq<Reservation>, room: Room)
  {
    HasAll(room, input.requiredEquipment) &&
    IsRoomAvailable(room.id, input.startFrom, End(input), reservations)
  }

  function EligibleFor(input: RecommendInput, reservations: seq<Reservation>): Room -> bool
  {
    (room: Room) => Eligible(input, reservations, room)
  }

  function Abs(x: int): int
  {
    if x < 0 then -x else x
  }

  /** Capacity closeness: how far the room's capacity is from the head count. */
  function Score(room: Room, attendees: int): int
  {
    Abs(room.capacity - attendees)
  }

  /** The `.map` step: every room, in order, paired with its score. */
  function Candidates(rooms: seq<Room>, attendees: int): (cs: seq<RoomCandidate>)
    ensures |cs| == |rooms|
    ensures forall i :: 0 <= i < |rooms| ==> cs[i].room == rooms[i] && cs[i].score == Score(rooms[i], attendees)
  {
    if |rooms| == 0 then []
    else [RoomCandidate(rooms[0], Score(rooms[0], attendees))] + Candidates(rooms[1..], attendees)
  }

  /** Each room contributes exactly one candidate, the one carrying its own score. */
  lemma {:induction false} CandidatesMultiset(rooms: seq<Room>, attendees: int, c: RoomCandidate)
    ensures multiset(Candidates(rooms, attendees))[c] ==
            if c.score == Score(c.room, attendees) then multiset(rooms)[c.room] else 0
  {
    if |rooms| > 0 {
      var c0 := RoomCandidate(rooms[0], Score(rooms[0], attendees));
      var rest := Candidates(rooms[1..], attendees);
      assert rooms == [rooms[0]] + rooms[1..];
      assert multiset(rooms)[c.room] == multiset([rooms[0]])[c.room] + multiset(rooms[1..])[c.room];
      assert Candidates(rooms, attendees) == [c0] + rest;
      assert multiset([c0] + rest)[c] == multiset([c0])[c] + multiset(rest)[c];
      CandidatesMultiset(rooms[1..], attendees, c);
    }
  }

  predicate SortedByScore(cs: seq<RoomCandidate>)
  {
    forall i, j :: 0 <= i < j < |cs| ==> cs[i].score <= cs[j].score
  }

  function ScoreIs(k: int): RoomCandidate -> bool
  {
    (c: RoomCandidate) => c.score == k
  }

  /** The candidates that carry score `k`, in their order. */
  function WithScore(cs: seq<RoomCandidate>, k: int): seq<RoomCandidate>
  {
    Filter(cs, ScoreIs(k))
  }

  /** Places `c` in front of the first candidate whose score is not below its own. */
  function InsertByScore(c: RoomCandidate, s: seq<RoomCandidate>): (r: seq<RoomCandidate>)
    requires SortedByScore(s)
    ensures SortedByScore(r)
    ensures multiset(r) == multiset(s) + multiset{c}
  {
    if |s| == 0 || c.score <= s[0].score then
      forall y | y in s ensures c.score <= y.score {
        var k :| 0 <= k < |s| && s[k] == y;
        assert s[0].score <= s[k].score || k == 0;
      }
      SortedCons(c, s);
      [c] + s
    else
      assert s == [s[0]] + s[1..];
      var rest := InsertByScore(c, s[1..]);
      assert SortedByScore(s[1..]) by {
        forall i, j | 0 <= i < j < |s[1..]| ensures s[1..][i].score <= s[1..][j].score {
          assert s[1..][i] == s[i + 1] && s[1..][j] == s[j + 1];
        }
      }
      forall x | x in rest ensures s[0].score <= x.score {
        assert x in multiset(rest);
        if x != c {
          assert x in multiset(s[1..]);
          var k :| 0 <= k < |s[1..]| && s[1..][k] == x;
          assert s[k + 1] == x;
        }
      }
      SortedCons(s[0], rest);
      assert multiset([s[0]] + rest) == multiset{s[0]} + multiset(rest);
      [s[0]] + rest
  }

  lemma SortedCons(x: RoomCandidate, s: seq<RoomCandidate>)
    requires SortedByScore(s)
    requires forall y :: y in s ==> x.score <= y.score
    ensures SortedByScore([x] + s)
  {
    forall i, j | 0 <= i < j < |[x] + s| ensures ([x] + s)[i].score <= ([x] + s)[j].score {
      if i == 0 {
        assert ([x] + s)[j] == s[j - 1];
      } else {
        assert ([x] + s)[i] == s[i - 1] && ([x] + s)[j] == s[j - 1];
      }
    }
  }

  /** A stable sort by ascending score (insertion sort). */
  function SortByScore(cs: seq<RoomCandidate>): (r: seq<RoomCandidate>)
    ensures SortedByScore(r)
    ensures multiset(r) == multiset(cs)
  {
    if |cs| == 0 then []
    else
      assert cs == [cs[0]] + cs[1..];
      InsertByScore(cs[0], SortByScore(cs[1..]))
  }

  lemma {:induction false} InsertByScoreStable(c: RoomCandidate, s: seq<RoomCandidate>, k: int)
    requires SortedByScore(s)
    ensures WithScore(InsertByScore(c, s), k) == (if c.score == k then [c] else []) + WithScore(s, k)
  {
    if |s| == 0 || c.score <= s[0].score {
      FilterCons(c, s, ScoreIs(k));
    } else {
      assert s == [s[0]] + s[1..];
      InsertByScoreStable(c, s[1..], k);
      FilterCons(s[0], InsertByScore(c, s[1..]), ScoreIs(k));
      FilterCons(s[0], s[1..], ScoreIs(k));
    }
  }

  /** Stability: for every score, the candidates with that score keep their relative order. */
  lemma {:induction false} SortByScoreStable(cs: seq<RoomCandidate>, k: int)
    ensures WithScore(SortByScore(cs), k) == WithScore(cs, k)
  {
    if |cs| > 0 {
      assert cs == [cs[0]] + cs[1..];
      SortByScoreStable(cs[1..], k);
      InsertByScoreStable(cs[0], SortByScore(cs[1..]), k);
      FilterCons(cs[0], cs[1..], ScoreIs(k));
    }
  }

  lemma HeadHasItsScore(cs: seq<RoomCandidate>)
    ensures |cs| > 0 ==> cs[0] in WithScore(cs, cs[0].score)
  {
  }

  /** Two sequences sorted by score with the same candidates per score are equal:
      every stable sort by score gives the same result as SortByScore. */
  lemma {:induction false} StableSortUnique(a: seq<RoomCandidate>, b: seq<RoomCandidate>)
    requires SortedByScore(a) && SortedByScore(b)
    requires forall k :: WithScore(a, k) == WithScore(b, k)
    ensures a == b
  {
    if |a| == 0 || |b| == 0 {
      HeadHasItsScore(a);
      HeadHasItsScore(b);
      if |a| != |b| { assert false; }
    } else {
      assert a == [a[0]] + a[1..];
      assert b == [b[0]] + b[1..];
      var ka, kb := a[0].score, b[0].score;
      assert a[0] in WithScore(b, ka);
      assert b[0] in WithScore(a, kb);
      assert ka == kb;
      FilterCons(a[0], a[1..], ScoreIs(ka));
      FilterCons(b[0], b[1..], ScoreIs(ka));
      assert WithScore(a, ka) == [a[0]] + WithScore(a[1..], ka);
      assert WithScore(b, ka) == [b[0]] + WithScore(b[1..], ka);
      assert WithScore(a, ka)[0] == a[0];
      assert a[0] == b[0];
      forall k ensures WithScore(a[1..], k) == WithScore(b[1..], k) {
        FilterCons(a[0], a[1..], ScoreIs(k));
        FilterCons(b[0], b[1..], ScoreIs(k));
        var h := if a[0].score == k then [a[0]] else [];
        assert WithScore(a, k) == h + WithScore(a[1..], k);
        assert WithScore(b, k) == h + WithScore(b[1..], k);
        assert h + WithScore(a[1..], k) == h + WithScore(b[1..], k);
        assert WithScore(a[1..], k) == (h + WithScore(a[1..], k))[|h|..];
      }
      StableSortUnique(a[1..], b[1..]);
    }
  }

  /** Sorting what is already sorted by score changes nothing. */
  lemma SortSortedIsIdentity(cs: seq<RoomCandidate>)
    requires SortedByScore(cs)
    ensures SortByScore(cs) == cs
  {
    SortByScoreStableAll(cs);
    StableSortUnique(SortByScore(cs), cs);
  }

  lemma SortByScoreStableAll(cs: seq<RoomCandidate>)
    ensures forall k :: WithScore(SortByScore(cs), k) == WithScore(cs, k)
  {
    forall k ensures WithScore(SortByScore(cs), k) == WithScore(cs, k) {
      SortByScoreStable(cs, k);
    }
  }

  /** Rooms offering every required tag and free over [startFrom, startFrom + duration),
      scored by capacity closeness and stably sorted by score. */
  function RecommendRooms(input: RecommendInput, rooms: seq<Room>, reservations: seq<Reservation>): (out: seq<RoomCandidate>)
    ensures forall c :: c in out ==>
              HasAll(c.room, input.requiredEquipment) &&
              IsRoomAvailable(c.room.id, input.startFrom, End(input), reservations) &&
              c.score == Score(c.room, input.attendees)
    ensures forall c {:trigger multiset(out)[c]} ::
              multiset(out)[c] ==
                if c.score == Score(c.room, input.attendees) && Eligible(input, reservations, c.room)
                then multiset(rooms)[c.room] else 0
    ensures SortedByScore(out)
    ensures forall k :: WithScore(out, k) ==
              WithScore(Candidates(Filter(rooms, EligibleFor(input, reservations)), input.attendees), k)
  {
    var eligible := Filter(rooms, EligibleFor(input, reservations));
    var cs := Candidates(eligible, input.attendees);
    SortByScoreStableAll(cs);
    var out := SortByScore(cs);
    RecommendMultiset(input, rooms, reservations, eligible, cs, out);
    out
  }

  /** The ranking is pinned down by its score classes: a score-sorted sequence whose every
      score class is that of the eligible rooms' candidates is the recommendation. */
  lemma RecommendRoomsIs(input: RecommendInput, rooms: seq<Room>, reservations: seq<Reservation>,
                         expected: seq<RoomCandidate>)
    requires SortedByScore(expected)
    requires forall k :: WithScore(Candidates(Filter(rooms, EligibleFor(input, reservations)), input.attendees), k) ==
                         WithScore(expected, k)
    ensures RecommendRooms(input, rooms, reservations) == expected
  {
    StableSortUnique(RecommendRooms(input, rooms, reservations), expected);
  }

  lemma RecommendMultiset(input: RecommendInput, rooms: seq<Room>, reservations: seq<Reservation>,
                          eligible: seq<Room>, cs: seq<RoomCandidate>, out: seq<RoomCandidate>)
    requires eligible == Filter(rooms, EligibleFor(input, reservations))
    requires cs == Candidates(eligible, input.attendees)
    requires multiset(out) == multiset(cs)
    ensures forall c {:trigger multiset(out)[c]} ::
              multiset(out)[c] ==
                if c.score == Score(c.room, input.attendees) && Eligible(input, reservations, c.room)
                then multiset(rooms)[c.room] else 0
    ensures forall c :: c in out ==>
              HasAll(c.room, input.requiredEquipment) &&
              IsRoomAvailable(c.room.id, input.startFrom, End(input), reservations) &&
              c.score == Score(c.room, input.attendees)
  {
    forall c ensures multiset(out)[c] ==
                       if c.score == Score(c.room, input.attendees) && Eligible(input, reservations, c.room)
                       then multiset(rooms)[c.room] else 0 {
      CandidatesMultiset(eligible, input.attendees, c);
      assert multiset(eligible)[c.room] == if Eligible(input, reservations, c.room) then multiset(rooms)[c.room] else 0;
    }
    forall c | c in out ensures HasAll(c.room, input.requiredEquipment) &&
                                IsRoomAvailable(c.room.id, input.startFrom, End(input), reservations) &&
                                c.score == Score(c.room, input.attendees) {
      assert multiset(out)[c] > 0;
      CandidatesMultiset(eligible, input.attendees, c);
      assert multiset(eligible)[c.room] == if Eligible(input, reservations, c.room) then multiset(rooms)[c.room] else 0;
    }
  }
}
