/** The entities of the booking backend: equipment tags, rooms and reservations.
    Instants are integer milliseconds since the Unix epoch (UTC); the ISO strings
    the backend exchanges are only their transport form. */
module Types {

  datatype Option<T> = None | Some(value: T)

  /** The closed set of equipment tags a room can offer. */
  datatype Equipment = Projector | TvConf | Whiteboard

  /** The wire name of a tag, as the request schema and the seed data spell it. */
  function TagName(e: Equipment): string
  {
    match e
    case Projector => "projector"
    case TvConf => "tvconf"
    case Whiteboard => "whiteboard"
  }

  /** The enum check of the request schema: a string is a tag only if it is one of the three names. */
  function ParseTag(s: string): (r: Option<Equipment>)
    ensures r.Some? ==> TagName(r.value) == s
    ensures r.None? <==> forall e: Equipment :: TagName(e) != s
  {
    if s == "projector" then Some(Projector)
    else if s == "tvconf" then Some(TvConf)
    else if s == "whiteboard" then Some(Whiteboard)
    else None
  }

  lemma ParseTagName(e: Equipment)
    ensures ParseTag(TagName(e)) == Some(e)
  {
  }

  datatype Room = Room(id: string, name: string, capacity: int, equipment: seq<Equipment>)

  datatype Reservation = Reservation(
    id: string,
    roomId: string,
    title: string,
    start: int,
    end: int,
    attendees: int,
    purpose: Option<string>,
    createdBy: string)

  /** The selectors the store and the handlers pass to find and filter. */
  function RoomWithId(id: string): Room -> bool
  {
    (room: Room) => room.id == id
  }

  function ReservationWithId(id: string): Reservation -> bool
  {
    (r: Reservation) => r.id == id
  }

  function ReservationWithOtherId(id: string): Reservation -> bool
  {
    (r: Reservation) => r.id != id
  }

  function ReservationOfRoom(roomId: string): Reservation -> bool
  {
    (r: Reservation) => r.roomId == roomId
  }
}
