/** The reservation engine: one object owning the train table and the ticket
    table (the state behind the service's train and ticket stores) and the
    three operations that change them. Each store call the service makes is a
    member here whose contract is the assumption the service relies on; the
    outcome of a store write is an explicit `storeOk` parameter. */
module Reservation {
  import opened Records
  import opened TrainTable
  import opened TicketTable
  import opened Invariants

  class ReservationService {
    /** Train table, by train identifier. */
    var trains: map<int, Train>
    /** Ticket table, by ticket identifier. */
    var tickets: map<int, Ticket>
    /** The identifier the ticket store assigns to the next stored ticket. */
    var nextTicketId: int

    /** What the stores guarantee by construction: records sit under their own
        identifiers, and ticket identifiers are positive and below the next one
        to be assigned, so a new identifier is never a reused one. */
    ghost predicate Valid()
      reads this
    {
      && Keyed(trains)
      && nextTicketId >= 1
      && forall id :: id in tickets ==> 1 <= id < nextTicketId && tickets[id].ticketId == id
    }

    /** The train table and the ticket table agree. */
    ghost predicate Consistent()
      reads this
    {
      Valid() && TablesConsistent(trains, tickets)
    }

    /** A service over the given train catalog with an empty ticket table. The
        tables agree exactly when every train starts with all seats free. */
    constructor (catalog: map<int, Train>)
      requires Keyed(catalog)
      ensures Valid()
      ensures trains == catalog && tickets == map[] && nextTicketId == 1
      ensures Consistent() <==>
                forall t :: t in catalog ==> 0 <= catalog[t].availableSeats == catalog[t].totalSeats
    {
      trains := catalog;
      tickets := map[];
      nextTicketId := 1;
      forall t | t in catalog
        ensures BookedOn(map[], t) == {}
      {
      }
    }

    /** The route search, read-only over the train table. */
    function SearchTrains(source: string, destination: string): (r: seq<Train>)
      reads this
      requires Valid()
      ensures forall i :: 0 <= i < |r| ==>
                r[i].trainId in trains && trains[r[i].trainId] == r[i] && OnRoute(r[i], source, destination)
      ensures forall k :: k in trains && OnRoute(trains[k], source, destination) ==> trains[k] in r
      ensures forall i, j :: 0 <= i < j < |r| ==> r[i].trainId < r[j].trainId
    {
      Search(trains, source, destination)
    }

    /** Train lookup by identifier; None when there is no such train. */
    function GetTrainById(trainId: int): (r: Option<Train>)
      reads this
      ensures r.None? <==> trainId !in trains
      ensures r.Some? ==> r.value == trains[trainId]
    {
      if trainId in trains then Some(trains[trainId]) else None
    }

    /** Ticket lookup by identifier; None when there is no such ticket. */
    function GetTicketById(ticketId: int): (r: Option<Ticket>)
      reads this
      ensures r.None? <==> ticketId !in tickets
      ensures r.Some? ==> r.value == tickets[ticketId]
    {
      if ticketId in tickets then Some(tickets[ticketId]) else None
    }

    /** The seat the ticket store allocates on a train: the lowest positive
        seat number not held by a BOOKED ticket on that train. */
    function NextAvailableSeat(trainId: int): (seat: int)
      reads this
      ensures 1 <= seat && seat !in HeldSeats(tickets, trainId)
      ensures forall s :: 1 <= s < seat ==> s in HeldSeats(tickets, trainId)
    {
      NextFreeSeat(HeldSeats(tickets, trainId))
    }

    /** The ticket store's insert: on success the ticket is stored as BOOKED
        under the next identifier, which is returned; on failure -1. */
    method InsertTicket(ticket: Ticket, storeOk: bool) returns (ticketId: int)
      requires Valid()
      modifies this
      ensures Valid()
      ensures storeOk ==> && ticketId == old(nextTicketId)
                          && nextTicketId == old(nextTicketId) + 1
                          && tickets == old(tickets)[ticketId := ticket.(ticketId := ticketId, status := Booked)]
      ensures !storeOk ==> ticketId == -1 && unchanged(this)
      ensures trains == old(trains)
    {
      if storeOk {
        ticketId := nextTicketId;
        tickets := tickets[ticketId := ticket.(ticketId := ticketId, status := Booked)];
        nextTicketId := nextTicketId + 1;
      } else {
        ticketId := -1;
      }
    }

    /** The train store's seat update: takes `count` seats off the train's
        availability. */
    method UpdateAvailableSeats(trainId: int, count: int, storeOk: bool) returns (ok: bool)
      requires Valid()
      modifies this
      ensures Valid()
      ensures ok == (storeOk && trainId in old(trains))
      ensures ok ==> trains == old(trains)[trainId := old(trains)[trainId].(availableSeats := old(trains)[trainId].availableSeats - count)]
      ensures !ok ==> trains == old(trains)
      ensures tickets == old(tickets) && nextTicketId == old(nextTicketId)
    {
      ok := storeOk && trainId in trains;
      if ok {
        trains := trains[trainId := trains[trainId].(availableSeats := trains[trainId].availableSeats - count)];
      }
    }

    /** The train store's seat increase: gives `count` seats back to the
        train's availability. */
    method IncreaseAvailableSeats(trainId: int, count: int, storeOk: bool) returns (ok: bool)
      requires Valid()
      modifies this
      ensures Valid()
      ensures ok == (storeOk && trainId in old(trains))
      ensures ok ==> trains == old(trains)[trainId := old(trains)[trainId].(availableSeats := old(trains)[trainId].availableSeats + count)]
      ensures !ok ==> trains == old(trains)
      ensures tickets == old(tickets) && nextTicketId == old(nextTicketId)
    {
      ok := storeOk && trainId in trains;
      if ok {
        trains := trains[trainId := trains[trainId].(availableSeats := trains[trainId].availableSeats + count)];
      }
    }

    /** The ticket store's cancellation: sets the ticket's status to CANCELLED. */
    method MarkCancelled(ticketId: int, storeOk: bool) returns (ok: bool)
      requires Valid()
      modifies this
      ensures Valid()
      ensures ok == (storeOk && ticketId in old(tickets))
      ensures ok ==> tickets == old(tickets)[ticketId := old(tickets)[ticketId].(status := Cancelled)]
      ensures !ok ==> unchanged(this)
      ensures trains == old(trains) && nextTicketId == old(nextTicketId)
    {
      ok := storeOk && ticketId in tickets;
      if ok {
        tickets := tickets[ticketId := tickets[ticketId].(status := Cancelled)];
      }
    }

    /** The ticket store's contact update: replaces name, email and phone. */
    method StorePassengerDetails(ticketId: int, name: string, email: string, phone: string, storeOk: bool)
      returns (ok: bool)
      requires Valid()
      modifies this
      ensures Valid()
      ensures ok == (storeOk && ticketId in old(tickets))
      ensures ok ==> tickets == old(tickets)[ticketId := old(tickets)[ticketId].(
                                  passengerName := name, passengerEmail := email, passengerPhone := phone)]
      ensures !ok ==> unchanged(this)
      ensures trains == old(trains) && nextTicketId == old(nextTicketId)
    {
      ok := storeOk && ticketId in tickets;
      if ok {
        tickets := tickets[ticketId := tickets[ticketId].(
                     passengerName := name, passengerEmail := email, passengerPhone := phone)];
      }
    }

    /** Books a seat on `trainId`. Returns the new ticket's identifier, or -1
        when the train is unknown, has no seat available, or a store write
        fails. `insertOk` and `seatUpdateOk` are the outcomes of the ticket
        insert and of the seat update; `now` is the booking time. A failed seat
        update after a successful insert returns -1 but keeps the ticket. */
    method BookTicket(trainId: int, name: string, email: string, phone: string,
                      now: int, insertOk: bool, seatUpdateOk: bool)
      returns (ticketId: int)
      requires Valid()
      modifies this
      ensures Valid()
      ensures HistoryKept(old(tickets), tickets)
      // unknown train, or no seat left: nothing changes
      ensures trainId !in old(trains) ==> ticketId == -1 && unchanged(this)
      ensures trainId in old(trains) && old(trains)[trainId].availableSeats <= 0 ==>
                ticketId == -1 && unchanged(this)
      // the insert fails: nothing changes
      ensures !insertOk ==> ticketId == -1 && unchanged(this)
      // the insert succeeds: a fresh BOOKED ticket on the lowest free seat at the train's fare
      ensures trainId in old(trains) && old(trains)[trainId].availableSeats > 0 && insertOk ==>
                && nextTicketId == old(nextTicketId) + 1
                && old(nextTicketId) !in old(tickets)
                && tickets == old(tickets)[old(nextTicketId) := Ticket(
                     old(nextTicketId), trainId, name, email, phone,
                     NextFreeSeat(HeldSeats(old(tickets), trainId)),
                     old(trains)[trainId].fare, now, Booked)]
      // ... and the seat update succeeds: one seat fewer, the identifier is returned
      ensures trainId in old(trains) && old(trains)[trainId].availableSeats > 0 && insertOk && seatUpdateOk ==>
                && ticketId == old(nextTicketId) && ticketId > 0
                && trains == old(trains)[trainId := old(trains)[trainId].(
                     availableSeats := old(trains)[trainId].availableSeats - 1)]
      // ... or fails: -1, availability untouched, the ticket stays
      ensures trainId in old(trains) && old(trains)[trainId].availableSeats > 0 && insertOk && !seatUpdateOk ==>
                ticketId == -1 && trains == old(trains)
      // a returned identifier exceeds every earlier one
      ensures ticketId > 0 ==> forall id :: id in old(tickets) ==> id < ticketId
      ensures ticketId == -1 || ticketId == old(nextTicketId)
      // on every path except the tolerated seat-update failure the tables keep agreeing
      ensures old(Consistent()) && seatUpdateOk ==> Consistent()
    {
      var train := GetTrainById(trainId);
      if train.None? {
        return -1;
      }
      if train.value.availableSeats <= 0 {
        return -1;
      }
      var seatNumber := NextAvailableSeat(trainId);
      var ticket := Ticket(0, trainId, name, email, phone, seatNumber, train.value.fare, now, Booked);
      ghost var trains0, tickets0 := trains, tickets;
      ticketId := InsertTicket(ticket, insertOk);
      if ticketId > 0 {
        if old(Consistent()) && seatUpdateOk {
          BookKeepsConsistent(trains0, tickets0, ticketId, ticket.(ticketId := ticketId));
        }
        var updated := UpdateAvailableSeats(trainId, 1, seatUpdateOk);
        if updated {
          return ticketId;
        } else {
          return -1;
        }
      } else {
        return -1;
      }
    }

    /** Cancels ticket `ticketId`. Returns false, changing nothing, when the
        ticket is unknown, is not BOOKED, or the status write fails. Once the
        status write succeeds the result is true, whether or not the seat is
        given back to the train. */
    method CancelTicket(ticketId: int, statusOk: bool, increaseOk: bool) returns (cancelled: bool)
      requires Valid()
      modifies this
      ensures Valid()
      ensures HistoryKept(old(tickets), tickets)
      ensures nextTicketId == old(nextTicketId)
      ensures ticketId !in old(tickets) ==> !cancelled && unchanged(this)
      ensures ticketId in old(tickets) && old(tickets)[ticketId].status != Booked ==>
                !cancelled && unchanged(this)
      ensures ticketId in old(tickets) && old(tickets)[ticketId].status == Booked ==>
                && cancelled == statusOk
                && (!statusOk ==> unchanged(this))
                && (statusOk ==> tickets == old(tickets)[ticketId := old(tickets)[ticketId].(status := Cancelled)])
      ensures ticketId in old(tickets) && old(tickets)[ticketId].status == Booked && statusOk ==>
                var train := old(tickets)[ticketId].trainId;
                if increaseOk && train in old(trains) then
                  trains == old(trains)[train := old(trains)[train].(availableSeats := old(trains)[train].availableSeats + 1)]
                else
                  trains == old(trains)
      // on every path except the tolerated seat-increase failure the tables keep agreeing
      ensures old(Consistent()) && increaseOk ==> Consistent()
    {
      var ticket := GetTicketById(ticketId);
      if ticket.None? {
        return false;
      }
      if ticket.value.status != Booked {
        return false;
      }
      ghost var trains0, tickets0 := trains, tickets;
      var marked := MarkCancelled(ticketId, statusOk);
      if marked {
        if old(Consistent()) && increaseOk {
          CancelKeepsConsistent(trains0, tickets0, ticketId);
        }
        var increased := IncreaseAvailableSeats(ticket.value.trainId, 1, increaseOk);
        // A failed seat increase is tolerated on purpose: the ticket stays
        // CANCELLED and the result is still true.
        if increased {
          return true;
        } else {
          return true;
        }
      } else {
        return false;
      }
    }

    /** Replaces the passenger name, email and phone of a BOOKED ticket.
        Returns false, changing nothing, when the ticket is unknown, is not
        BOOKED, or the store write fails; nothing but those three fields of
        that one ticket ever changes. */
    method UpdatePassengerDetails(ticketId: int, name: string, email: string, phone: string, storeOk: bool)
      returns (updated: bool)
      requires Valid()
      modifies this
      ensures Valid()
      ensures HistoryKept(old(tickets), tickets)
      ensures updated <==> ticketId in old(tickets) && old(tickets)[ticketId].status == Booked && storeOk
      ensures updated ==>
                && tickets == old(tickets)[ticketId := old(tickets)[ticketId].(
                     passengerName := name, passengerEmail := email, passengerPhone := phone)]
                && trains == old(trains) && nextTicketId == old(nextTicketId)
      ensures !updated ==> unchanged(this)
      ensures old(Consistent()) ==> Consistent()
    {
      var ticket := GetTicketById(ticketId);
      if ticket.None? {
        return false;
      }
      if ticket.value.status != Booked {
        return false;
      }
      ghost var trains0, tickets0 := trains, tickets;
      updated := StorePassengerDetails(ticketId, name, email, phone, storeOk);
      if updated && old(Consistent()) {
        AmendKeepsConsistent(trains0, tickets0, ticketId, name, email, phone);
      }
    }
  }
}
