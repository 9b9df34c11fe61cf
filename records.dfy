/** The records the reservation engine works on: trains of the catalog and
    tickets of the ledger, as the `com.railway.model` classes carry them. */
module Records {

  datatype Option<+T> = None | Some(value: T)

  /** A ticket is BOOKED from the moment it is stored; CANCELLED is terminal. */
  datatype Status = Booked | Cancelled

  /** A train of the catalog. Only `availableSeats` is ever changed, and only
      by booking and cancellation. The fare is copied onto tickets, never
      computed with. */
  datatype Train = Train(
    trainId: int,
    trainName: string,
    source: string,
    destination: string,
    departureTime: string,
    arrivalTime: string,
    totalSeats: int,
    availableSeats: int,
    fare: real)

  /** A ticket of the ledger. `bookingTime` is the clock reading taken when the
      ticket was created. */
  datatype Ticket = Ticket(
    ticketId: int,
    trainId: int,
    passengerName: string,
    passengerEmail: string,
    passengerPhone: string,
    seatNumber: int,
    fare: real,
    bookingTime: int,
    status: Status)
}
