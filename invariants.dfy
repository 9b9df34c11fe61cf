/** What "the train table and the ticket table agree" means, and that each
    step of booking, cancellation and amendment keeps that agreement when
    every store call succeeds, while the two store failures the service
    tolerates break it. */
module Invariants {
  import opened Records
  import opened TicketTable

  /** Every train has between zero and all of its seats available. */
  ghost predicate AvailabilityInBounds(trains: map<int, Train>) {
    forall t :: t in trains ==> 0 <= trains[t].availableSeats <= trains[t].totalSeats
  }

  /** Seat conservation: available seats plus BOOKED tickets make up the
      train's total. */
  ghost predicate SeatConservation(trains: map<int, Train>, tickets: map<int, Ticket>) {
    forall t :: t in trains ==>
      trains[t].availableSeats + |BookedOn(tickets, t)| == trains[t].totalSeats
  }

  /** Two BOOKED tickets on the same train never share a seat. */
  ghost predicate DistinctSeats(tickets: map<int, Ticket>) {
    forall i, j ::
      i in tickets && j in tickets && i != j &&
      tickets[i].status == Booked && tickets[j].status == Booked &&
      tickets[i].trainId == tickets[j].trainId
      ==> tickets[i].seatNumber != tickets[j].seatNumber
  }

  /** Every ticket is on a train of the catalog, and a BOOKED ticket's seat
      lies in 1 .. the train's total. */
  ghost predicate SeatsInRange(trains: map<int, Train>, tickets: map<int, Ticket>) {
    forall id :: id in tickets ==>
      tickets[id].trainId in trains &&
      (tickets[id].status == Booked ==>
         1 <= tickets[id].seatNumber <= trains[tickets[id].trainId].totalSeats)
  }

  ghost predicate TablesConsistent(trains: map<int, Train>, tickets: map<int, Ticket>) {
    && AvailabilityInBounds(trains)
    && SeatConservation(trains, tickets)
    && DistinctSeats(tickets)
    && SeatsInRange(trains, tickets)
  }

  /** How a ticket record may evolve: it is never removed, its train, seat,
      fare, identifier and booking time never change, and once CANCELLED it
      never changes at all (BOOKED -> CANCELLED is the only status move). */
  ghost predicate HistoryKept(before: map<int, Ticket>, after: map<int, Ticket>) {
    forall id :: id in before ==>
      id in after &&
      after[id].ticketId == before[id].ticketId &&
      after[id].trainId == before[id].trainId &&
      after[id].seatNumber == before[id].seatNumber &&
      after[id].fare == before[id].fare &&
      after[id].bookingTime == before[id].bookingTime &&
      (before[id].status == Cancelled ==> after[id] == before[id])
  }

  /** Storing record `t` under `id` changes the BOOKED set of a train only
      by `id`. */
  lemma BookedOnAfterStore(tickets: map<int, Ticket>, id: int, t: Ticket, train: int)
    ensures BookedOn(tickets[id := t], train) ==
            (BookedOn(tickets, train) - {id}) +
            (if t.trainId == train && t.status == Booked then {id} else {})
  {
  }

  /** When the tables agree and the train has a seat available, the seat the
      ledger hands out is free and lies within the train's seats. */
  lemma NextSeatFits(trains: map<int, Train>, tickets: map<int, Ticket>, train: int)
    requires TablesConsistent(trains, tickets)
    requires train in trains && trains[train].availableSeats > 0
    ensures 1 <= NextFreeSeat(HeldSeats(tickets, train)) <= trains[train].totalSeats
    ensures NextFreeSeat(HeldSeats(tickets, train)) !in HeldSeats(tickets, train)
  {
    SeatsNoMoreThanTickets(tickets, BookedOn(tickets, train));
  }

  /** Booking on the all-succeed path: a fresh BOOKED ticket on the next free
      seat plus one seat fewer available keeps the tables consistent. */
  lemma BookKeepsConsistent(trains: map<int, Train>, tickets: map<int, Ticket>, id: int, t: Ticket)
    requires TablesConsistent(trains, tickets)
    requires id !in tickets
    requires t.trainId in trains && trains[t.trainId].availableSeats > 0
    requires t.status == Booked && t.seatNumber == NextFreeSeat(HeldSeats(tickets, t.trainId))
    ensures TablesConsistent(
              trains[t.trainId := trains[t.trainId].(availableSeats := trains[t.trainId].availableSeats - 1)],
              tickets[id := t])
  {
    var train := t.trainId;
    var trains' := trains[train := trains[train].(availableSeats := trains[train].availableSeats - 1)];
    NextSeatFits(trains, tickets, train);
    BookKeepsConservation(trains, tickets, id, t);
    BookKeepsDistinctSeats(tickets, id, t);
    assert SeatsInRange(trains', tickets[id := t]);
  }

  lemma BookKeepsConservation(trains: map<int, Train>, tickets: map<int, Ticket>, id: int, t: Ticket)
    requires SeatConservation(trains, tickets)
    requires id !in tickets && t.trainId in trains && t.status == Booked
    ensures SeatConservation(
              trains[t.trainId := trains[t.trainId].(availableSeats := trains[t.trainId].availableSeats - 1)],
              tickets[id := t])
  {
    var train := t.trainId;
    var trains' := trains[train := trains[train].(availableSeats := trains[train].availableSeats - 1)];
    var tickets' := tickets[id := t];
    forall u | u in trains'
      ensures trains'[u].availableSeats + |BookedOn(tickets', u)| == trains'[u].totalSeats
    {
      BookedCountAfterInsert(tickets, id, t, u);
    }
  }

  /** Inserting a fresh ticket adds one to the BOOKED count of its own train
      and nothing to any other train's. */
  lemma BookedCountAfterInsert(tickets: map<int, Ticket>, id: int, t: Ticket, train: int)
    requires id !in tickets && t.status == Booked
    ensures |BookedOn(tickets[id := t], train)| ==
            |BookedOn(tickets, train)| + (if t.trainId == train then 1 else 0)
  {
    BookedOnAfterStore(tickets, id, t, train);
    assert id !in BookedOn(tickets, train);
    assert BookedOn(tickets, train) - {id} == BookedOn(tickets, train);
  }

  lemma BookKeepsDistinctSeats(tickets: map<int, Ticket>, id: int, t: Ticket)
    requires DistinctSeats(tickets)
    requires id !in tickets && t.status == Booked && t.seatNumber !in HeldSeats(tickets, t.trainId)
    ensures DistinctSeats(tickets[id := t])
  {
  }

  /** The booking branch that inserts the ticket but fails to lower the
      train's availability leaves seat conservation broken. */
  lemma BookWithoutSeatUpdateBreaksConservation(trains: map<int, Train>, tickets: map<int, Ticket>, id: int, t: Ticket)
    requires SeatConservation(trains, tickets)
    requires id !in tickets
    requires t.trainId in trains && t.status == Booked
    ensures !SeatConservation(trains, tickets[id := t])
  {
    BookedOnAfterStore(tickets, id, t, t.trainId);
    assert BookedOn(tickets[id := t], t.trainId) == BookedOn(tickets, t.trainId) + {id};
  }

  /** Cancellation on the all-succeed path: the ticket turns CANCELLED and its
      train gets one seat back, keeping the tables consistent. */
  lemma CancelKeepsConsistent(trains: map<int, Train>, tickets: map<int, Ticket>, id: int)
    requires TablesConsistent(trains, tickets)
    requires id in tickets && tickets[id].status == Booked
    ensures tickets[id].trainId in trains
    ensures TablesConsistent(
              trains[tickets[id].trainId := trains[tickets[id].trainId].(availableSeats := trains[tickets[id].trainId].availableSeats + 1)],
              tickets[id := tickets[id].(status := Cancelled)])
  {
    var train := tickets[id].trainId;
    var t := tickets[id].(status := Cancelled);
    var trains' := trains[train := trains[train].(availableSeats := trains[train].availableSeats + 1)];
    var tickets' := tickets[id := t];
    assert id in BookedOn(tickets, train);
    forall u | u in trains'
      ensures trains'[u].availableSeats + |BookedOn(tickets', u)| == trains'[u].totalSeats
    {
      BookedOnAfterStore(tickets, id, t, u);
    }
  }

  /** The cancellation branch that cancels the ticket but fails to give the
      seat back leaves seat conservation broken. */
  lemma CancelWithoutSeatIncreaseBreaksConservation(trains: map<int, Train>, tickets: map<int, Ticket>, id: int)
    requires SeatConservation(trains, tickets)
    requires id in tickets && tickets[id].status == Booked && tickets[id].trainId in trains
    ensures !SeatConservation(trains, tickets[id := tickets[id].(status := Cancelled)])
  {
    var train := tickets[id].trainId;
    BookedOnAfterStore(tickets, id, tickets[id].(status := Cancelled), train);
    assert id in BookedOn(tickets, train);
  }

  /** Amending a ticket's passenger name, email and phone keeps the tables
      consistent: no train, seat or status changes. */
  lemma AmendKeepsConsistent(trains: map<int, Train>, tickets: map<int, Ticket>, id: int,
                             name: string, email: string, phone: string)
    requires TablesConsistent(trains, tickets)
    requires id in tickets
    ensures TablesConsistent(
              trains,
              tickets[id := tickets[id].(passengerName := name, passengerEmail := email, passengerPhone := phone)])
  {
    var t := tickets[id].(passengerName := name, passengerEmail := email, passengerPhone := phone);
    forall u | u in trains
      ensures BookedOn(tickets[id := t], u) == BookedOn(tickets, u)
    {
      BookedOnAfterStore(tickets, id, t, u);
    }
  }
}
