/** The ticket table (the ledger): which tickets hold seats on a train, and
    the seat the ledger hands out next. */
module TicketTable {
  import opened Records
  import opened Sets

  /** The identifiers of the BOOKED tickets on train `trainId`. */
  function BookedOn(tickets: map<int, Ticket>, trainId: int): (r: set<int>)
    ensures r <= tickets.Keys
  {
    set id | id in tickets && tickets[id].trainId == trainId && tickets[id].status == Booked
  }

  /** The seat numbers of the tickets `ids`. */
  function SeatsOf(tickets: map<int, Ticket>, ids: set<int>): (r: set<int>)
    requires ids <= tickets.Keys
  {
    set id | id in ids :: tickets[id].seatNumber
  }

  /** The seat numbers held by BOOKED tickets on train `trainId`. */
  function HeldSeats(tickets: map<int, Ticket>, trainId: int): (r: set<int>) {
    SeatsOf(tickets, BookedOn(tickets, trainId))
  }

  /** The lowest seat number from `k` upward that is not in `held`. */
  function FreeSeatFrom(held: set<int>, k: int): (r: int)
    ensures k <= r <= k + |held|
    ensures r !in held
    ensures forall s :: k <= s < r ==> s in held
    decreases held
  {
    if k !in held then k else FreeSeatFrom(held - {k}, k + 1)
  }

  /** The seat the ledger allocates: the lowest positive seat number that no
      BOOKED ticket holds. It is never more than one past the number of held
      seats. */
  function NextFreeSeat(held: set<int>): (r: int)
    ensures 1 <= r <= |held| + 1
    ensures r !in held && forall s :: 1 <= s < r ==> s in held
  {
    FreeSeatFrom(held, 1)
  }

  /** No more distinct seats are held than there are tickets holding them. */
  lemma {:induction false} SeatsNoMoreThanTickets(tickets: map<int, Ticket>, ids: set<int>)
    requires ids <= tickets.Keys
    ensures |SeatsOf(tickets, ids)| <= |ids|
  {
    if ids == {} {
      assert SeatsOf(tickets, ids) == {};
    } else {
      HasElement(ids);
      var x :| x in ids;
      var rest := ids - {x};
      SeatsNoMoreThanTickets(tickets, rest);
      var seat := tickets[x].seatNumber;
      assert SeatsOf(tickets, ids) == SeatsOf(tickets, rest) + {seat} by {
        forall y | y in SeatsOf(tickets, ids)
          ensures y in SeatsOf(tickets, rest) + {seat}
        {
          var id :| id in ids && tickets[id].seatNumber == y;
          if id != x {
            assert id in rest;
          }
        }
      }
      if seat in SeatsOf(tickets, rest) {
        assert SeatsOf(tickets, rest) + {seat} == SeatsOf(tickets, rest);
      }
    }
  }
}
