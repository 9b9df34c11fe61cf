/** Client code that drives the reservation engine through a one-seat train,
    a double cancellation, an amendment and an unknown route, using only the
    operations' contracts. */
module Scenarios {
  import opened Records
  import opened TicketTable
  import opened Invariants
  import opened Reservation

  /** One-seat train: the first booking gets seat 1 and takes the last seat;
      a second booking is refused. Cancelling gives the seat back and the next
      booking gets seat 1 again. */
  method SingleSeatTrain(now: int)
  {
    var t1 := Train(1, "T1", "Chennai", "Trichy", "06:00", "10:00", 1, 1, 120.0);
    var svc := new ReservationService(map[1 := t1]);
    assert svc.Consistent();

    var first := svc.BookTicket(1, "Asha", "asha@example.com", "555", now, true, true);
    assert HeldSeats(map[], 1) == {};
    assert first > 0 && svc.tickets[first].seatNumber == 1 && svc.tickets[first].status == Booked;
    assert svc.trains[1].availableSeats == 0;

    var second := svc.BookTicket(1, "Ravi", "ravi@example.com", "556", now, true, true);
    assert second == -1;

    var cancelled := svc.CancelTicket(first, true, true);
    assert cancelled && svc.trains[1].availableSeats == 1;
    assert BookedOn(svc.tickets, 1) == {};

    var third := svc.BookTicket(1, "Ravi", "ravi@example.com", "556", now, true, true);
    assert third > first && svc.tickets[third].seatNumber == 1;
    assert svc.Consistent();
  }

  /** Cancelling twice: the second attempt is refused and changes nothing. */
  method CancelTwice(svc: ReservationService, ticketId: int)
    requires svc.Valid()
    modifies svc
  {
    var first := svc.CancelTicket(ticketId, true, true);
    ghost var trains1, tickets1 := svc.trains, svc.tickets;
    var second := svc.CancelTicket(ticketId, true, true);
    assert !second;
    assert svc.trains == trains1 && svc.tickets == tickets1;
  }

  /** Amending a BOOKED ticket is visible afterwards; a CANCELLED ticket can
      no longer be amended. */
  method AmendThenCancel(svc: ReservationService, ticketId: int)
    requires svc.Valid()
    requires ticketId in svc.tickets && svc.tickets[ticketId].status == Booked
    modifies svc
  {
    var ok := svc.UpdatePassengerDetails(ticketId, "Meena", "meena@example.com", "557", true);
    assert ok && svc.GetTicketById(ticketId).value.passengerName == "Meena";
    var cancelled := svc.CancelTicket(ticketId, true, true);
    var again := svc.UpdatePassengerDetails(ticketId, "Kavi", "kavi@example.com", "558", true);
    assert !again;
  }

  /** A route no train runs gives an empty search result. */
  method UnknownRoute()
  {
    var t1 := Train(1, "T1", "Chennai", "Trichy", "06:00", "10:00", 50, 50, 120.0);
    var svc := new ReservationService(map[1 := t1]);
    var found := svc.SearchTrains("Chennai", "Madurai");
    assert found == [];
  }
}
