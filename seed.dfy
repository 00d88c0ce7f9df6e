/** The startup inventory, and worked scenarios over it. */
module Seed {
  import opened Types
  import opened Seqs
  import opened Recommendation
  import opened MemoryStore
  import opened ReservationRoutes

  const R1 := Room("R1", "Alpha", 4, [Whiteboard])
  const R2 := Room("R2", "Beta", 6, [Projector])
  const R3 := Room("R3", "Gamma", 6, [TvConf])
  const R4 := Room("R4", "Delta", 8, [Projector, Whiteboard])
  const R5 := Room("R5", "Epsilon", 10, [TvConf, Whiteboard])
  const R6 := Room("R6", "Zeta", 12, [Projector, TvConf])
  const R7 := Room("R7", "Eta", 12, [Projector, TvConf, Whiteboard])
  const R8 := Room("R8", "Theta", 16, [Projector])
  const R9 := Room("R9", "Iota", 20, [TvConf])
  const R10 := Room("R10", "Kappa", 20, [Projector, TvConf, Whiteboard])

  const SeedRooms: seq<Room> := [R1, R2, R3, R4, R5, R6, R7, R8, R9, R10]

  /** 2025-01-01T10:00:00Z in milliseconds. */
  const TenAm: int := 1735725600000

  const WhiteboardHour := RecommendInput(60, 6, {Whiteboard}, TenAm)

  lemma WhiteboardEligibility()
    ensures !EligibleFor(WhiteboardHour, [])(R2) && !EligibleFor(WhiteboardHour, [])(R3)
    ensures !EligibleFor(WhiteboardHour, [])(R6) && !EligibleFor(WhiteboardHour, [])(R8)
    ensures !EligibleFor(WhiteboardHour, [])(R9)
    ensures EligibleFor(WhiteboardHour, [])(R1) && EligibleFor(WhiteboardHour, [])(R4)
    ensures EligibleFor(WhiteboardHour, [])(R5) && EligibleFor(WhiteboardHour, [])(R7)
    ensures EligibleFor(WhiteboardHour, [])(R10)
  {
    assert Whiteboard !in R2.equipment && Whiteboard !in R3.equipment && Whiteboard !in R6.equipment &&
           Whiteboard !in R8.equipment && Whiteboard !in R9.equipment;
  }

  lemma WhiteboardRoomsFromZeta()
    ensures Filter([R6, R7, R8, R9, R10], EligibleFor(WhiteboardHour, [])) == [R7, R10]
  {
    var p := EligibleFor(WhiteboardHour, []);
    WhiteboardEligibility();
    FilterCons(R10, [], p);
    FilterCons(R9, [R10], p);
    FilterCons(R8, [R9, R10], p);
    FilterCons(R7, [R8, R9, R10], p);
    FilterCons(R6, [R7, R8, R9, R10], p);
  }

  lemma WhiteboardRoomsFromDelta()
    ensures Filter([R4, R5, R6, R7, R8, R9, R10], EligibleFor(WhiteboardHour, [])) == [R4, R5, R7, R10]
  {
    var p := EligibleFor(WhiteboardHour, []);
    WhiteboardEligibility();
    WhiteboardRoomsFromZeta();
    FilterCons(R5, [R6, R7, R8, R9, R10], p);
    FilterCons(R4, [R5, R6, R7, R8, R9, R10], p);
  }

  lemma WhiteboardRooms()
    ensures Filter(SeedRooms, EligibleFor(WhiteboardHour, [])) == [R1, R4, R5, R7, R10]
  {
    var p := EligibleFor(WhiteboardHour, []);
    WhiteboardEligibility();
    WhiteboardRoomsFromDelta();
    FilterCons(R3, [R4, R5, R6, R7, R8, R9, R10], p);
    FilterCons(R2, [R3, R4, R5, R6, R7, R8, R9, R10], p);
    FilterCons(R1, [R2, R3, R4, R5, R6, R7, R8, R9, R10], p);
  }

  const WhiteboardRanking := [RoomCandidate(R1, 2), RoomCandidate(R4, 2), RoomCandidate(R5, 4),
                              RoomCandidate(R7, 6), RoomCandidate(R10, 14)]

  lemma WhiteboardScores()
    ensures Candidates([R1, R4, R5, R7, R10], 6) == WhiteboardRanking
  {
  }

  lemma WhiteboardRankingSorted()
    ensures SortByScore(WhiteboardRanking) == WhiteboardRanking
  {
    SortSortedIsIdentity(WhiteboardRanking);
  }

  /** Six people, one hour, a whiteboard, an empty ledger: every whiteboard room, closest capacity
      first, and the tie between Alpha and Delta kept in inventory order. */
  lemma WhiteboardForSix()
    ensures RecommendRooms(WhiteboardHour, SeedRooms, []) == WhiteboardRanking
  {
    WhiteboardRooms();
    WhiteboardScores();
    WhiteboardRankingSorted();
  }

  const VideoHour := RecommendInput(60, 20, {TvConf}, TenAm)

  lemma VideoEligibility()
    ensures !EligibleFor(VideoHour, [])(R1) && !EligibleFor(VideoHour, [])(R2)
    ensures !EligibleFor(VideoHour, [])(R4) && !EligibleFor(VideoHour, [])(R8)
    ensures EligibleFor(VideoHour, [])(R3) && EligibleFor(VideoHour, [])(R5)
    ensures EligibleFor(VideoHour, [])(R6) && EligibleFor(VideoHour, [])(R7)
    ensures EligibleFor(VideoHour, [])(R9) && EligibleFor(VideoHour, [])(R10)
  {
    assert TvConf !in R1.equipment && TvConf !in R2.equipment && TvConf !in R4.equipment &&
           TvConf !in R8.equipment;
  }

  lemma VideoRoomsFromZeta()
    ensures Filter([R6, R7, R8, R9, R10], EligibleFor(VideoHour, [])) == [R6, R7, R9, R10]
  {
    var p := EligibleFor(VideoHour, []);
    VideoEligibility();
    FilterCons(R10, [], p);
    FilterCons(R9, [R10], p);
    FilterCons(R8, [R9, R10], p);
    FilterCons(R7, [R8, R9, R10], p);
    FilterCons(R6, [R7, R8, R9, R10], p);
  }

  lemma VideoRooms()
    ensures Filter(SeedRooms, EligibleFor(VideoHour, [])) == [R3, R5, R6, R7, R9, R10]
  {
    var p := EligibleFor(VideoHour, []);
    VideoEligibility();
    VideoRoomsFromZeta();
    FilterCons(R5, [R6, R7, R8, R9, R10], p);
    FilterCons(R4, [R5, R6, R7, R8, R9, R10], p);
    FilterCons(R3, [R4, R5, R6, R7, R8, R9, R10], p);
    FilterCons(R2, [R3, R4, R5, R6, R7, R8, R9, R10], p);
    FilterCons(R1, [R2, R3, R4, R5, R6, R7, R8, R9, R10], p);
  }

  const C3 := RoomCandidate(R3, 14)
  const C5 := RoomCandidate(R5, 10)
  const C6 := RoomCandidate(R6, 8)
  const C7 := RoomCandidate(R7, 8)
  const C9 := RoomCandidate(R9, 0)
  const C10 := RoomCandidate(R10, 0)

  const VideoCandidates := [C3, C5, C6, C7, C9, C10]
  const VideoRanking := [C9, C10, C6, C7, C5, C3]

  lemma VideoScores()
    ensures Candidates([R3, R5, R6, R7, R9, R10], 20) == VideoCandidates
  {
  }

  /** The candidate alone when it has score `k`, nothing otherwise. */
  function Only(c: RoomCandidate, k: int): seq<RoomCandidate>
  {
    if c.score == k then [c] else []
  }

  lemma VideoCandidateClass(k: int)
    ensures WithScore(VideoCandidates, k) == Only(C3, k) + Only(C5, k) + Only(C6, k) + Only(C7, k) + Only(C9, k) + Only(C10, k)
  {
    var p := ScoreIs(k);
    FilterCons(C10, [], p);
    FilterCons(C9, [C10], p);
    FilterCons(C7, [C9, C10], p);
    FilterCons(C6, [C7, C9, C10], p);
    FilterCons(C5, [C6, C7, C9, C10], p);
    FilterCons(C3, [C5, C6, C7, C9, C10], p);
  }

  lemma VideoRankingClass(k: int)
    ensures WithScore(VideoRanking, k) == Only(C9, k) + Only(C10, k) + Only(C6, k) + Only(C7, k) + Only(C5, k) + Only(C3, k)
  {
    var p := ScoreIs(k);
    FilterCons(C3, [], p);
    FilterCons(C5, [C3], p);
    FilterCons(C7, [C5, C3], p);
    FilterCons(C6, [C7, C5, C3], p);
    FilterCons(C10, [C6, C7, C5, C3], p);
    FilterCons(C9, [C10, C6, C7, C5, C3], p);
  }

  /** Reordering by score keeps every score class of the inventory order. */
  lemma VideoScoreClasses(k: int)
    ensures WithScore(VideoCandidates, k) == WithScore(VideoRanking, k)
  {
    VideoCandidateClass(k);
    VideoRankingClass(k);
    if k == 0 {
      assert WithScore(VideoCandidates, k) == [C9, C10] == WithScore(VideoRanking, k);
    } else if k == 8 {
      assert WithScore(VideoCandidates, k) == [C6, C7] == WithScore(VideoRanking, k);
    } else if k == 10 {
      assert WithScore(VideoCandidates, k) == [C5] == WithScore(VideoRanking, k);
    } else if k == 14 {
      assert WithScore(VideoCandidates, k) == [C3] == WithScore(VideoRanking, k);
    } else {
      assert WithScore(VideoCandidates, k) == [] == WithScore(VideoRanking, k);
    }
  }

  /** Twenty people, one hour, video conferencing, an empty ledger: Iota and Kappa fit exactly and
      Iota comes first because it comes first in the inventory. An ordering of ties by id string
      would put "R10" (Kappa) before "R9" (Iota), so this ranking tells the two apart. */
  lemma VideoForTwenty()
    ensures RecommendRooms(VideoHour, SeedRooms, []) == VideoRanking
  {
    VideoRooms();
    VideoScores();
    forall k ensures WithScore(Candidates(Filter(SeedRooms, EligibleFor(VideoHour, [])), 20), k) ==
                     WithScore(VideoRanking, k) {
      VideoScoreClasses(k);
    }
    RecommendRoomsIs(VideoHour, SeedRooms, [], VideoRanking);
  }

  const Standup := Reservation("x1", "R2", "Standup", TenAm, TenAm + 60 * 60000, 4, None, "anonymous")

  /** Beta is booked 10:00–11:00: 10:30–11:00 clashes, 9:00–10:00 is back to back and free. */
  lemma BetaBackToBack()
    ensures !IsRoomAvailable("R2", TenAm + 30 * 60000, TenAm + 60 * 60000, [Standup])
    ensures IsRoomAvailable("R2", TenAm - 60 * 60000, TenAm, [Standup])
  {
    assert Standup in [Standup];
  }

  const StandupRequest := CreateRequest("R2", "Standup", TenAm, TenAm + 60 * 60000, 4, None, None)
  const ReviewRequest := CreateRequest("R2", "Review", TenAm + 30 * 60000, TenAm + 60 * 60000, 4, None, None)
  const RetroRequest := CreateRequest("R2", "Retro", TenAm + 60 * 60000, TenAm + 90 * 60000, 4, None, None)

  lemma TenAmOnGrid()
    ensures TenAm % QuarterHourMs == 0
    ensures (TenAm + 30 * 60000) % QuarterHourMs == 0
    ensures (TenAm + 60 * 60000) % QuarterHourMs == 0
    ensures (TenAm + 90 * 60000) % QuarterHourMs == 0
    ensures (TenAm + 20 * 60000) % QuarterHourMs != 0
  {
  }

  lemma StandupAccepted()
    ensures Decide([R2, R4], [], StandupRequest, "x1") == Created(Standup)
  {
    TenAmOnGrid();
    assert R2 in [R2, R4];
  }

  lemma CancelStandup()
    ensures WithoutId([Standup], "x1") == []
  {
    FilterCons(Standup, [], ReservationWithOtherId("x1"));
  }

  /** Against a ledger holding the 10:00-11:00 standup on Beta, 10:30-11:00 is refused with a conflict. */
  lemma OverlapRefused()
    ensures Decide([R2, R4], [Standup], ReviewRequest, "x2") == SlotTaken
  {
    TenAmOnGrid();
    assert R2 in [R2, R4];
    assert Standup in [Standup];
  }

  /** The back-to-back 11:00-11:30 retro on Beta is accepted against the same ledger. */
  lemma BackToBackAccepted()
    ensures Decide([R2, R4], [Standup], RetroRequest, "x3").Created?
  {
    TenAmOnGrid();
    assert R2 in [R2, R4];
  }

  /** A store holding Beta and Delta: the standup is booked, the overlapping review is refused,
      and cancelling the standup empties the ledger again. */
  method BookingScenario()
  {
    var db := new InMemoryStore();
    db.SetRooms([R2, R4]);
    StandupAccepted();
    var first := CreateReservation(db, StandupRequest, "x1");
    assert db.reservations == [Standup];
    OverlapRefused();
    var clash := CreateReservation(db, ReviewRequest, "x2");
    assert clash == SlotTaken && db.reservations == [Standup];
    CancelStandup();
    var gone := CancelReservation(db, "x1");
    assert gone == Deleted && db.reservations == [];
  }
}
