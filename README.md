# Room-booking engine: a Dafny model

This project models the booking core of a meeting-room reservation backend (an Express
service written in TypeScript) and proves properties of it. The core has four parts:

- **Availability and recommendation** (`recommendation.dfy`, module `Recommendation`).
  A room is available over `[s, e)` when each of its reservations ends by `s` or starts at
  or after `e`. A recommendation keeps the rooms that offer every required tag and are free
  over `[startFrom, startFrom + duration)`. It scores each kept room by
  `|capacity - attendees|` and sorts the rooms stably by score.
- **Reservation ledger** (`memory_store.dfy`, module `MemoryStore`). The class
  `InMemoryStore` has two `seq` fields, `rooms` and `reservations`. Its methods replace or
  extend them: `SetRooms`, `AddReservation` (a plain append with no checks) and
  `RemoveReservation` (drops every reservation with the id). `GetRooms`,
  `GetReservations` and `FindRoomById` are reads.
- **Booking and cancellation** (`reservations.dfy`, module `ReservationRoutes`). The POST
  handler's checks run in a fixed order, as the pure function `Decide`:
  1. body (title non-empty, at least one attendee) → 400;
  2. room exists → 404;
  3. 15-minute UTC grid → 400;
  4. end after start → 400;
  5. duration in [15, 120] minutes → 400;
  6. availability → 409.

  `CreateReservation` applies `Decide` to a store and appends only on success (201).
  `CancelReservation` returns 404 when no reservation has the id. Otherwise it removes
  them and returns 204.
- **Recommend request validation** (`recommend.dfy`, module `RecommendRoute`). The schema's
  constraints come first: duration in {15, 30, …, 120}, at least one attendee, tags from the
  three known names, tags optional. Then the tags are collapsed into a set and the engine
  is called.

`types.dfy` holds the entities. `seqs.dfy` holds `filter` and `find` as functions on
sequences. `seed.dfy` has the startup inventory and worked scenarios.

Instants are integer milliseconds since the epoch. The ISO strings are only their wire
form. The handler's grid test reads the instant's UTC minute, second and millisecond
fields as ECMAScript defines them (floor division, non-negative remainder). `Is15OnGrid`
proves that test equals `t % 900000 == 0`. The duration test divides by 60000 in real
arithmetic, as the handler does.

The headline invariant is `NonOverlapping`: no two reservations of one room overlap as
half-open intervals (`Overlaps`). A successful booking keeps it (`BookingKeepsNonOverlap`,
`CreateReservation`), and so does a cancellation (`CancelKeepsNonOverlap`,
`CancelReservation`).

Three choices the code does not make, so neither does the model:
- Ties in the ranking are not broken by room id. `Array.prototype.sort` is stable, so
  rooms with equal scores keep inventory order. `SortByScoreStable` and
  `StableSortUnique` state exactly that. The seed scenario `VideoForTwenty` ranks Iota
  (R9) before Kappa (R10), both with score 0, because Iota comes first in the inventory.
  Ordering by id string would put "R10" first.
- `removeReservation` does not report whether it removed anything. It returns nothing and
  removes every entry with the id. The DELETE handler decides 404 or 204 by looking the
  id up first.
- Alignment and duration are not checked by the caller before the core runs. The POST
  handler does them itself, so the model has them in `Decide`.

## Model

| member | source | states |
|---|---|---|
| `Types.ParseTag` | src/models/types.ts:1 | a string is accepted as a tag exactly when it is one of the three names, and then it names that tag |
| `Seqs.Filter` | src/store/memoryStore.ts:13 | `filter` keeps exactly the elements satisfying the predicate, each as often as in the input |
| `Seqs.FilterConcat` | src/store/memoryStore.ts:13 | filtering distributes over concatenation, so it keeps the relative order of what it keeps |
| `Seqs.Find` | src/store/memoryStore.ts:17 | `find` gives none exactly when nothing matches, and otherwise the element at the first matching index |
| `Recommendation.IsRoomAvailable` | src/services/recommendation.ts:15-25 | true iff every reservation of that room ends by `s` or starts at or after `e` |
| `Recommendation.UnavailableIffOverlap` | src/services/recommendation.ts:23 | unavailable iff some reservation of the room overlaps `[s, e)` as half-open intervals |
| `Recommendation.BackToBackIsFree` | src/services/recommendation.ts:23 | a reservation ending exactly at `s` or starting exactly at `e` does not change availability |
| `Recommendation.OtherRoomsIrrelevant` | src/services/recommendation.ts:18-19 | the answer depends only on the room's own reservations |
| `Recommendation.NoReservationsMeansAvailable` | src/services/recommendation.ts:18-20 | a room with no reservations is available for any interval |
| `Recommendation.NothingRequiredAdmitsAll` | src/services/recommendation.ts:33 | an empty set of required tags admits every room |
| `Recommendation.Candidates` | src/services/recommendation.ts:38-42 | the scoring step keeps length and order, and the candidate at `i` is room `i` with score `|capacity - attendees|` |
| `Recommendation.CandidatesMultiset` | src/services/recommendation.ts:38-42 | each room yields exactly one candidate, which carries that room's own score |
| `Recommendation.InsertByScore` | src/services/recommendation.ts:43 | inserting into a score-sorted sequence keeps it sorted and adds exactly that candidate |
| `Recommendation.SortByScore` | src/services/recommendation.ts:43 | the sort result is non-decreasing by score and a permutation of its input |
| `Recommendation.InsertByScoreStable` | src/services/recommendation.ts:43 | the inserted candidate comes before every candidate already present with the same score |
| `Recommendation.SortByScoreStable` | src/services/recommendation.ts:43 | for every score, the candidates with that score keep their input order (stability) |
| `Recommendation.StableSortUnique` | src/services/recommendation.ts:43 | two score-sorted sequences that agree on every score class are equal, so any stable sort gives this result |
| `Recommendation.RecommendRooms` | src/services/recommendation.ts:27-46 | each result room has every required tag and is free over `[startFrom, startFrom + duration*60000)`; each score is `|capacity - attendees|`; a candidate occurs exactly as often as its room occurs in the inventory when that room passes both filters, and never otherwise; scores are non-decreasing; equal scores keep inventory order |
| `Recommendation.RecommendRoomsIs` | src/services/recommendation.ts:43-46 | any score-sorted sequence with the same score classes as the eligible rooms' candidates is the recommendation: the result is unique |
| `MemoryStore.WithoutId` | src/store/memoryStore.ts:12-14 | after removal no reservation has the id, and every other reservation stays exactly as often as before |
| `MemoryStore.WithoutIdConcat` | src/store/memoryStore.ts:13 | removal distributes over concatenation, so it keeps the relative order of the rest |
| `MemoryStore.WithoutAbsentId` | src/store/memoryStore.ts:13 | removing an id no reservation has leaves the sequence unchanged |
| `MemoryStore.InMemoryStore.constructor` | src/store/memoryStore.ts:3-5 | a new store has no rooms and no reservations |
| `MemoryStore.InMemoryStore.GetRooms` | src/store/memoryStore.ts:7 | returns the current inventory field as a value (aliasing is under Left out) |
| `MemoryStore.InMemoryStore.SetRooms` | src/store/memoryStore.ts:8 | replaces the rooms and leaves the reservations untouched |
| `MemoryStore.InMemoryStore.GetReservations` | src/store/memoryStore.ts:10 | returns the current ledger field as a value (aliasing is under Left out) |
| `MemoryStore.InMemoryStore.AddReservation` | src/store/memoryStore.ts:11 | appends the reservation with no check, keeps the earlier entries in order, and leaves the rooms untouched |
| `MemoryStore.InMemoryStore.RemoveReservation` | src/store/memoryStore.ts:12-14 | the reservations become the old ones without that id, and the rooms are untouched |
| `MemoryStore.InMemoryStore.FindRoomById` | src/store/memoryStore.ts:16-18 | none exactly when no room has the id, otherwise the first room with it |
| `ReservationRoutes.CreateStatus` | src/routes/reservations.ts:24-66 | 201 only for a created booking, 404 only for an unknown room, 409 only for a conflict, 400 for every validation failure |
| `ReservationRoutes.Is15` | src/routes/reservations.ts:35 | the handler's test on the UTC minute, second and millisecond fields, read the ECMAScript way, holds exactly when the instant is a whole number of quarter hours (`t % 900000 == 0`) |
| `ReservationRoutes.Is15OnGrid` | src/routes/reservations.ts:35 | UTC minute a multiple of 15 with zero seconds and milliseconds is exactly `t % 900000 == 0`, negative instants included |
| `ReservationRoutes.Decide` | src/routes/reservations.ts:24-56 | the outcome of each check holds exactly when every earlier check passed and that one failed. An unknown room gives 404 whatever the times are. A created reservation carries the given id, roomId, title, start, end, attendees and purpose, and the creator or "anonymous" |
| `ReservationRoutes.BookingIsWellFormed` | src/routes/reservations.ts:35-40 | an accepted booking starts and ends on the grid and lasts 15, 30, …, or 120 minutes |
| `ReservationRoutes.BookingKeepsNonOverlap` | src/routes/reservations.ts:42-56 | if the room's reservations were pairwise apart before a successful booking, they still are with it appended |
| `ReservationRoutes.CreateReservation` | src/routes/reservations.ts:24-66 | the outcome is that of the guard chain on the old store; exactly one reservation is appended on success and nothing changes otherwise; the rooms never change; non-overlap is preserved |
| `ReservationRoutes.CancelStatus` | src/routes/reservations.ts:71-73 | 204 for a deletion, 404 for a missing id |
| `ReservationRoutes.CancelKeepsNonOverlap` | src/routes/reservations.ts:72 | removing reservations keeps the ledger pairwise non-overlapping |
| `ReservationRoutes.CancelFreesSlot` | src/routes/reservations.ts:68-73 | under the invariant, after cancelling a reservation its slot is available for its room |
| `ReservationRoutes.CancelReservation` | src/routes/reservations.ts:68-74 | 404 with the ledger unchanged iff no reservation has the id; otherwise every reservation with the id is removed; the rooms never change; non-overlap is preserved |
| `RecommendRoute.ParseTags` | src/routes/recommend.ts:11 | a tag list is accepted iff every entry is a known name, and the result names the same tags in order |
| `RecommendRoute.ToInput` | src/routes/recommend.ts:8-26 | accepted iff the duration is a multiple of 15 in [15, 120], there is at least one attendee and every tag is known; duration, attendees and start pass through unchanged; the required set holds exactly the listed tags |
| `RecommendRoute.HandleRecommend` | src/routes/recommend.ts:15-32 | 400 iff the schema fails; otherwise the engine's candidates in its order with its scores |
| `RecommendRoute.AcceptedDurationOnGrid` | src/routes/recommend.ts:9 | an accepted duration is one of 15, 30, …, 120 |
| `RecommendRoute.NoAttendeesRejected` | src/routes/recommend.ts:10-17 | fewer than one attendee is refused before the engine runs |
| `RecommendRoute.OmittedEquipmentFiltersNothing` | src/routes/recommend.ts:11 | omitting the tags gives an empty required set, which every room satisfies |
| `RecommendRoute.StartFromUnchecked` | src/routes/recommend.ts:12 | the start instant plays no part in acceptance (no grid check) and is passed on as given |
| `RecommendRoute.DuplicateTagsIrrelevant` | src/routes/recommend.ts:24 | two tag lists with the same members, whatever their order or repetition, give the same response |
| `Seed.WhiteboardForSix` | src/store/seed.ts:3-14 | six people, one hour, whiteboard, empty ledger: Alpha 2, Delta 2, Epsilon 4, Eta 6, Kappa 14, with Alpha and Delta tied at 2 |
| `Seed.VideoForTwenty` | src/store/seed.ts:3-14 | twenty people, one hour, video conferencing, empty ledger: Iota 0, Kappa 0, Zeta 8, Eta 8, Epsilon 10, Gamma 14, the ties in inventory order where id order would differ |
| `Seed.BetaBackToBack` | src/services/recommendation.ts:23 | with Beta booked 10:00–11:00, 10:30–11:00 is unavailable and 9:00–10:00 is available |
| `Seed.OverlapRefused` | src/routes/reservations.ts:42-44 | a request overlapping the booked standup is refused with a conflict |
| `Seed.BackToBackAccepted` | src/routes/reservations.ts:42-56 | a request starting when the standup ends is accepted |

## Left out

- I/O and transport: Express routing, CORS, `listen`, JSON response shapes and HTTP status plumbing. Outcomes are datatypes, and `CreateStatus` and `CancelStatus` map them to codes.
- The GET handler (src/routes/reservations.ts:20-22): it lists the ledger and decides nothing.
- Schema parsing of JSON shapes and ISO datetime strings. Requests arrive already parsed, with instants as integers. A body that fails a shape check other than the title or attendee checks is not modelled.
- Reservation id generation from `Date.now` and `Math.random`: the id is a parameter of `Decide` and `CreateReservation`.
- The calendar notification after a booking (src/routes/reservations.ts:57-64): a no-op external client whose errors are swallowed, so it cannot affect the ledger.
- Concurrency: Node runs the handler without suspension between the availability check and the append, so the model is sequential.
- JS `number` semantics: capacities, attendees and scores are unbounded integers. A fractional attendee count such as 1.5, which the schema accepts, is not modelled. Instants outside the range of JS dates are not excluded.
- Aliasing: `getRooms` and `getReservations` return the store's own arrays, and a caller could mutate them. The model returns sequence values.
- `RecommendInput.requiredEquipment` is a set of tags here, not a set of strings: its only caller passes tags that passed the enum check.
- The web front end and its local-time helpers, and the server's one-time seeding step.
