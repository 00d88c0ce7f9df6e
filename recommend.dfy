/** The recommend handler: the request schema's constraints, the conversion into
    a RecommendInput, and the call to the engine. */
module RecommendRoute {
  import opened Types
  import opened Recommendation

  /** A POST body after its JSON shape is read; the tags are still strings. */
  datatype RecommendRequest = RecommendRequest(
    durationMinutes: int,
    attendees: int,
    requiredEquipment: Option<seq<string>>,
    startFrom: int)

  datatype RecommendResponse = BadRequest | Listed(candidates: seq<RoomCandidate>)

  /** The enum check on every tag of the list. */
  function ParseTags(tags: seq<string>): (r: Option<seq<Equipment>>)
    ensures r.Some? <==> forall t :: t in tags ==> ParseTag(t).Some?
    ensures r.Some? ==> |r.value| == |tags| && forall i :: 0 <= i < |tags| ==> TagName(r.value[i]) == tags[i]
  {
    if |tags| == 0 then Some([])
    else
      var head, rest := ParseTag(tags[0]), ParseTags(tags[1..]);
      if head.Some? && rest.Some? then Some([head.value] + rest.value)
      else
        assert head.Some? ==> exists t :: t in tags[1..] && ParseTag(t).None?;
        None
  }

  /** A missing tag list means no tags. */
  function TagsOf(req: RecommendRequest): seq<string>
  {
    match req.requiredEquipment
    case Some(tags) => tags
    case None => []
  }

  /** The schema, then the conversion: tags collapse into a set, the start is passed on unchecked. */
  function ToInput(req: RecommendRequest): (r: Option<RecommendInput>)
    ensures r.Some? <==>
              15 <= req.durationMinutes <= 120 && req.durationMinutes % 15 == 0 &&
              req.attendees >= 1 &&
              forall t :: t in TagsOf(req) ==> ParseTag(t).Some?
    ensures r.Some? ==>
              r.value.durationMinutes == req.durationMinutes &&
              r.value.attendees == req.attendees &&
              r.value.startFrom == req.startFrom &&
              forall e :: e in r.value.requiredEquipment <==> TagName(e) in TagsOf(req)
  {
    if !(15 <= req.durationMinutes <= 120 && req.durationMinutes % 15 == 0) then None
    else if req.attendees < 1 then None
    else
      match ParseTags(TagsOf(req))
      case None => None
      case Some(es) =>
        var required := set e | e in es;
        assert forall e :: e in required <==> TagName(e) in TagsOf(req) by {
          forall e ensures e in required <==> TagName(e) in TagsOf(req) {
            if TagName(e) in TagsOf(req) {
              var i :| 0 <= i < |TagsOf(req)| && TagsOf(req)[i] == TagName(e);
              assert TagName(es[i]) == TagName(e);
              assert es[i] == e;
            }
            if e in required {
              var i :| 0 <= i < |es| && es[i] == e;
              assert TagsOf(req)[i] == TagName(e);
            }
          }
        }
        Some(RecommendInput(req.durationMinutes, req.attendees, required, req.startFrom))
  }

  /** The handler: 400 when the schema fails, otherwise the engine's candidates as they come. */
  function HandleRecommend(req: RecommendRequest, rooms: seq<Room>, reservations: seq<Reservation>): (resp: RecommendResponse)
    ensures resp.BadRequest? <==> ToInput(req).None?
    ensures resp.Listed? ==> resp.candidates == RecommendRooms(ToInput(req).value, rooms, reservations)
  {
    match ToInput(req)
    case None => BadRequest
    case Some(input) => Listed(RecommendRooms(input, rooms, reservations))
  }

  /** An accepted duration is one of 15, 30, ..., 120 minutes. */
  lemma AcceptedDurationOnGrid(req: RecommendRequest)
    requires ToInput(req).Some?
    ensures ToInput(req).value.durationMinutes in {15, 30, 45, 60, 75, 90, 105, 120}
  {
    var d := req.durationMinutes;
    assert d == 15 * (d / 15);
  }

  /** Fewer than one attendee is refused before the engine runs. */
  lemma NoAttendeesRejected(req: RecommendRequest, rooms: seq<Room>, reservations: seq<Reservation>)
    requires req.attendees < 1
    ensures HandleRecommend(req, rooms, reservations) == BadRequest
  {
  }

  /** Omitting the tag list filters no room by equipment. */
  lemma OmittedEquipmentFiltersNothing(req: RecommendRequest, room: Room)
    requires req.requiredEquipment.None?
    requires ToInput(req).Some?
    ensures ToInput(req).value.requiredEquipment == {}
    ensures HasAll(room, ToInput(req).value.requiredEquipment)
  {
  }

  /** The start instant takes no part in acceptance; in particular it need not be on the quarter-hour grid. */
  lemma StartFromUnchecked(req: RecommendRequest, t: int)
    ensures ToInput(req.(startFrom := t)).Some? == ToInput(req).Some?
    ensures ToInput(req.(startFrom := t)).Some? ==> ToInput(req.(startFrom := t)).value.startFrom == t
  {
    assert TagsOf(req.(startFrom := t)) == TagsOf(req);
  }

  /** Only which tags are listed matters, not their order or repetition. */
  lemma DuplicateTagsIrrelevant(req: RecommendRequest, tags: seq<string>, rooms: seq<Room>, reservations: seq<Reservation>)
    requires forall t :: t in tags <==> t in TagsOf(req)
    ensures HandleRecommend(req.(requiredEquipment := Some(tags)), rooms, reservations) ==
            HandleRecommend(req, rooms, reservations)
  {
    var other := req.(requiredEquipment := Some(tags));
    assert TagsOf(other) == tags;
    if ToInput(req).Some? {
      var a, b := ToInput(other).value, ToInput(req).value;
      assert a.requiredEquipment == b.requiredEquipment by {
        forall e ensures e in a.requiredEquipment <==> e in b.requiredEquipment {
        }
      }
    }
  }
}
