/** The in-memory store: the room inventory and the reservation ledger, held in
    two fields that its methods replace or extend. */
module MemoryStore {
  import opened Types
  import opened Seqs

  /** The removal filter: the reservations whose id is not `id`, in their order. */
  function WithoutId(reservations: seq<Reservation>, id: string): (rest: seq<Reservation>)
    ensures forall r :: r in rest ==> r.id != id
    ensures forall r {:trigger multiset(rest)[r]} ::
              multiset(rest)[r] == if r.id == id then 0 else multiset(reservations)[r]
  {
    Filter(reservations, ReservationWithOtherId(id))
  }

  /** Removal keeps relative order: it distributes over concatenation. */
  lemma WithoutIdConcat(a: seq<Reservation>, b: seq<Reservation>, id: string)
    ensures WithoutId(a + b, id) == WithoutId(a, id) + WithoutId(b, id)
  {
    FilterConcat(a, b, ReservationWithOtherId(id));
  }

  /** Removing an id that no reservation carries changes nothing. */
  lemma WithoutAbsentId(reservations: seq<Reservation>, id: string)
    requires forall r :: r in reservations ==> r.id != id
    ensures WithoutId(reservations, id) == reservations
  {
    FilterAll(reservations, ReservationWithOtherId(id));
  }

  class InMemoryStore {
    var rooms: seq<Room>
    var reservations: seq<Reservation>

    constructor ()
      ensures rooms == [] && reservations == []
    {
      rooms := [];
      reservations := [];
    }

    /** The inventory as it stands, as a value. */
    function GetRooms(): (current: seq<Room>)
      reads this
      ensures current == rooms
    {
      rooms
    }

    method SetRooms(newRooms: seq<Room>)
      modifies this
      ensures rooms == newRooms
      ensures reservations == old(reservations)
    {
      rooms := newRooms;
    }

    /** The ledger as it stands, as a value. */
    function GetReservations(): (current: seq<Reservation>)
      reads this
      ensures current == reservations
    {
      reservations
    }

    /** Appends without any check of overlap or validity. */
    method AddReservation(r: Reservation)
      modifies this
      ensures reservations == old(reservations) + [r]
      ensures rooms == old(rooms)
    {
      reservations := reservations + [r];
    }

    /** Drops every reservation carrying `id`. */
    method RemoveReservation(id: string)
      modifies this
      ensures reservations == WithoutId(old(reservations), id)
      ensures rooms == old(rooms)
    {
      reservations := WithoutId(reservations, id);
    }

    /** The first room of the inventory with this id, if any. */
    function FindRoomById(id: string): (found: Option<Room>)
      reads this
      ensures found.None? <==> forall room :: room in rooms ==> room.id != id
      ensures found.Some? ==> exists i :: 0 <= i < |rooms| && rooms[i] == found.value && rooms[i].id == id &&
                                          forall j :: 0 <= j < i ==> rooms[j].id != id
    {
      Find(rooms, RoomWithId(id))
    }
  }
}
