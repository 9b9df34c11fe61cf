# Railway reservation engine — Dafny model

This project models the reservation engine of a small railway reservation
system (`com.railway.service.ReservationService`). The engine owns two tables:

- the **train table**: each train has a route, times, a fare, a total seat
  count and a mutable count of available seats;
- the **ticket table**: each ticket has an identifier, a train, passenger
  name, email and phone, a seat number, a fare, a booking time and a status
  (BOOKED or CANCELLED).

It offers three state-changing operations and one read:

- **booking** checks the train, checks its availability, takes the lowest free
  seat, inserts a BOOKED ticket, then lowers the train's availability by one;
- **cancellation** turns a BOOKED ticket CANCELLED, then gives the seat back;
- **amending passenger details** changes name, email and phone, but only on a
  BOOKED ticket;
- **route search** reads the train table.

The service keeps its tables in stores whose code is not part of this model.
Here they are the fields `trains`, `tickets` and `nextTicketId` of the class
`Reservation.ReservationService`. Each store call the service makes is a member
of that class, and its contract states what the service assumes of the store:

- train and ticket lookups are map lookups (`GetTrainById`, `GetTicketById`);
- the seat allocator returns the lowest positive seat not held by a BOOKED
  ticket on the train (`NextAvailableSeat`);
- an insert stores the ticket as BOOKED under a fresh, strictly increasing
  identifier (`InsertTicket`);
- the seat update lowers availability by the count (`UpdateAvailableSeats`),
  and the seat increase raises it (`IncreaseAvailableSeats`);
- cancellation sets status CANCELLED (`MarkCancelled`);
- the contact update replaces name, email and phone (`StorePassengerDetails`).

Whether a store write succeeds is a boolean parameter of the operation
(`insertOk`, `seatUpdateOk`, `statusOk`, `increaseOk`, `storeOk`). The clock
reading is the parameter `now`.

"The tables agree" is `Invariants.TablesConsistent`:

- every train has between 0 and all of its seats available;
- available seats plus BOOKED tickets on a train equal its total;
- no two BOOKED tickets on a train share a seat;
- every ticket is on a known train, and a BOOKED ticket's seat lies in
  1 .. total.

Each operation keeps this on the path where every store write succeeds. The
two store failures that the service tolerates break it, and the model proves
that they do:

- a failed seat update after a successful insert returns -1 but keeps the
  ticket;
- a failed seat increase after a successful cancellation still returns true.

`Invariants.HistoryKept` states how ticket records may evolve. Records are
never removed. Their train, seat, fare, identifier and booking time never
change. A CANCELLED record never changes again, so BOOKED → CANCELLED is the
only status move.

Three choices follow the code of `ReservationService` rather than a stricter
reading of what a reservation engine should do:

- **Booking rollback.** When the seat update fails after the ticket was
  inserted, the code returns -1 and keeps the ticket; it does not roll the
  insert back.
- **Bounds checks.** The code only checks `availableSeats <= 0` before
  booking. The model assumes the train store's seat update and seat increase
  are unconditional; `TrainDAO` is not part of this model.
- **Result values.** Failures are reported as -1 or false (plus a printed
  message), not as typed errors.

Files: `records.dfy` (records), `sets.dfy` (one set fact),
`train_table.dfy` (route search), `ticket_table.dfy` (seat allocation),
`invariants.dfy` (agreement of the tables and its preservation),
`reservation_service.dfy` (the service class), `scenarios.dfy` (client code
for the one-seat, double-cancel, amend and unknown-route scenarios, whose
assertions follow from the operations' contracts alone).

## Model

| member | source | states |
|---|---|---|
| `TrainTable.Search` | src/main/java/com/railway/service/ReservationService.java:20-22 | the result holds exactly the trains of the table on the route (each one once, as stored), in strictly ascending train id; an unknown route gives the empty sequence |
| `TicketTable.NextFreeSeat` | src/main/java/com/railway/service/ReservationService.java:36-37 | the allocated seat is positive, held by no BOOKED ticket, every lower positive seat is held, and it is at most one past the number of held seats |
| `Invariants.NextSeatFits` | src/main/java/com/railway/service/ReservationService.java:31-37 | when the tables agree and the train has an available seat, the allocated seat is free and lies in 1 .. total |
| `Invariants.BookKeepsConsistent` | src/main/java/com/railway/service/ReservationService.java:24-52 | inserting a fresh BOOKED ticket on the allocated seat and lowering availability by one keeps the tables agreeing |
| `Invariants.BookKeepsConservation` | src/main/java/com/railway/service/ReservationService.java:43-47 | insert plus decrement keeps available + BOOKED == total on every train |
| `Invariants.BookKeepsDistinctSeats` | src/main/java/com/railway/service/ReservationService.java:37-43 | a new BOOKED ticket on a seat no BOOKED ticket of its train holds keeps seats distinct |
| `Invariants.BookWithoutSeatUpdateBreaksConservation` | src/main/java/com/railway/service/ReservationService.java:43-56 | the tolerated branch "ticket inserted, seat update failed" breaks seat conservation |
| `Invariants.CancelKeepsConsistent` | src/main/java/com/railway/service/ReservationService.java:63-80 | cancelling a BOOKED ticket and giving its seat back keeps the tables agreeing |
| `Invariants.CancelWithoutSeatIncreaseBreaksConservation` | src/main/java/com/railway/service/ReservationService.java:76-84 | the tolerated branch "ticket cancelled, seat increase failed" breaks seat conservation |
| `Invariants.AmendKeepsConsistent` | src/main/java/com/railway/service/ReservationService.java:257-264 | replacing name, email and phone of a ticket keeps the tables agreeing |
| `Reservation.ReservationService.SearchTrains` | src/main/java/com/railway/service/ReservationService.java:20-22 | delegates to `TrainTable.Search` and reads only the train table: exactly the stored trains on the route, each once, in ascending train id |
| `Reservation.ReservationService.GetTrainById` | src/main/java/com/railway/service/ReservationService.java:25-26 | the train store's lookup: None exactly when no train has that id, otherwise the stored train |
| `Reservation.ReservationService.GetTicketById` | src/main/java/com/railway/service/ReservationService.java:64-65 | the ticket store's lookup: None exactly when no ticket has that id, otherwise the stored ticket |
| `Reservation.ReservationService.constructor` | src/main/java/com/railway/service/ReservationService.java:15-18 | the service starts over the catalog with no tickets; the tables agree exactly when every train starts with all seats free |
| `Reservation.ReservationService.NextAvailableSeat` | src/main/java/com/railway/service/ReservationService.java:37 | the seat allocator returns the lowest positive seat not held by a BOOKED ticket on the train |
| `Reservation.ReservationService.InsertTicket` | src/main/java/com/railway/service/ReservationService.java:43-45 | on success the ticket is stored BOOKED under the next identifier, which is returned and then advanced; on failure -1 and nothing changes |
| `Reservation.ReservationService.UpdateAvailableSeats` | src/main/java/com/railway/service/ReservationService.java:47 | on success the train's availability drops by the count; nothing else changes |
| `Reservation.ReservationService.IncreaseAvailableSeats` | src/main/java/com/railway/service/ReservationService.java:78 | on success the train's availability rises by the count; nothing else changes |
| `Reservation.ReservationService.MarkCancelled` | src/main/java/com/railway/service/ReservationService.java:76 | on success the ticket's status becomes CANCELLED; nothing else changes |
| `Reservation.ReservationService.StorePassengerDetails` | src/main/java/com/railway/service/ReservationService.java:258 | on success the ticket's name, email and phone are replaced; nothing else changes |
| `Reservation.ReservationService.BookTicket` | src/main/java/com/railway/service/ReservationService.java:24-61 | unknown train, no seat, or failed insert: -1 and no change. Otherwise a fresh BOOKED ticket on the lowest free seat at the train's fare. If the seat update succeeds, the id is returned (positive, above every earlier id) and availability drops by one; if it fails, -1 with the ticket kept. Records evolve only as `HistoryKept` allows, and the tables keep agreeing unless the seat update fails |
| `Reservation.ReservationService.CancelTicket` | src/main/java/com/railway/service/ReservationService.java:63-89 | unknown or non-BOOKED ticket, or failed status write: false and no change. Otherwise the ticket becomes CANCELLED and the result is true, and the seat goes back if the increase succeeds. Records evolve only as `HistoryKept` allows, and the tables keep agreeing unless the seat increase fails |
| `Reservation.ReservationService.UpdatePassengerDetails` | src/main/java/com/railway/service/ReservationService.java:245-269 | succeeds exactly when the ticket exists, is BOOKED and the write succeeds. Then only that ticket's name, email and phone change; otherwise nothing changes. The tables keep agreeing |

## Left out

- Console output. Every `System.out.println` is dropped; operations return their result instead.
- Ticket display and rendering: `viewTicket`, `printTicket`, `printTicketToPDF`, `viewPassengerTickets` and the PDF and JPEG generators. These are presentation only. When the ticket's train is missing, `viewTicket` shows "Unknown" for its name and route and `viewPassengerTickets` shows "Unknown" for its name; `printTicket` and `printTicketToPDF` print "Train information not found!" and stop.
- The interactive menu (`RailwayReservationSystem`). It is I/O only.
- The stores' persistence. Both tables are in-memory maps, and the service starts with an empty ticket table. Rows already in a database at start-up are not modelled.
- `TrainTable.Search`: the store's matching rule is not part of this model. Route matching is exact equality of both end points, without trimming or case folding. The order is ascending train id.
- `Reservation.ReservationService.NextAvailableSeat`: if every seat in 1 .. total is held, the model returns a seat above total. That can only happen when the tables already disagree, and the store's behaviour there is not part of this model.
- `Reservation.ReservationService.InsertTicket`: a failed insert returns -1. The service only checks that the result is positive.
- Fares are `real` values that are only copied. Java `double` rounding is not modelled. Booking time is the parameter `now`.
- Java `int` wrap-around of ticket identifiers and seat counts is not modelled. Integers are unbounded.
- Concurrency. There is no per-train locking in the code, and two concurrent bookings of the last seat are not modelled.
