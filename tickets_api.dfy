/**
 * The Node ticket endpoint: a module-level counter and array; each request body
 * gets the next id written into it and is pushed onto the array. The counter is
 * incremented before the id is written, so a request without a body throws after
 * taking an id, and that id is never stored.
 */
module TicketsApi {
  import opened Wrappers
  import opened Text
  import Tickets

  /** A stored request body, with the `id` the handler wrote into it. */
  datatype StoredTicket = StoredTicket(body: Tickets.Ticket, id: nat)

  /** The outcome of a request: the id sent back as text, or the TypeError of writing `id` into an undefined body. */
  datatype Response = Sent(text: string) | Thrown

  class TicketsApi {
    var tickets: seq<StoredTicket>
    var lastTicketId: nat
    /** The requests that threw after taking an id. */
    ghost var thrown: nat

    /**
     * Every id taken is stored or lost to a throw; stored ids increase along the
     * array and lie below the counter; while nothing has thrown, ticket i has id i + 1.
     */
    ghost predicate Valid()
      reads this
    {
      && lastTicketId == |tickets| + thrown + 1
      && (forall i, j :: 0 <= i < j < |tickets| ==> tickets[i].id < tickets[j].id)
      && (forall i :: 0 <= i < |tickets| ==> 1 <= tickets[i].id < lastTicketId)
      && (thrown == 0 ==> forall i :: 0 <= i < |tickets| ==> tickets[i].id == i + 1)
    }

    constructor ()
      ensures Valid() && tickets == [] && lastTicketId == 1 && thrown == 0
    {
      tickets := [];
      lastTicketId := 1;
      thrown := 0;
    }

    /**
     * Handles one request: the counter always advances; a body is stored with the
     * id taken and the id is sent back as text; no body throws and stores nothing.
     */
    method Handle(body: Option<Tickets.Ticket>) returns (response: Response)
      requires Valid()
      modifies this
      ensures Valid()
      ensures lastTicketId == old(lastTicketId) + 1
      ensures body.None? ==> response == Thrown && tickets == old(tickets) && thrown == old(thrown) + 1
      ensures body.Some? ==>
        && tickets == old(tickets) + [StoredTicket(body.value, old(lastTicketId))]
        && thrown == old(thrown)
        && response == Sent(NatToString(old(lastTicketId)))
        && ParseNat(response.text) == old(lastTicketId)
    {
      var ticketId := lastTicketId;
      lastTicketId := lastTicketId + 1;
      if body.None? {
        thrown := thrown + 1;
        response := Thrown;
      } else {
        tickets := tickets + [StoredTicket(body.value, ticketId)];
        response := Sent(NatToString(ticketId));
        ParseNatToString(ticketId);
      }
    }
  }

  /** An id names one stored ticket at most, throws or not. */
  lemma IdsUnique(api: TicketsApi)
    requires api.Valid()
    ensures forall i, j :: 0 <= i < |api.tickets| && 0 <= j < |api.tickets| && api.tickets[i].id == api.tickets[j].id ==> i == j
  {
  }
}
