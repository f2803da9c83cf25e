/**
 * The C# ticket endpoints (the same controller in two exercises): a static int
 * counter hands out ids and a static dictionary stores each ticket under its id.
 * The counter is a 32-bit int incremented without overflow checking, so it wraps.
 */
module Tickets {
  import opened Wrappers
  import opened Text

  datatype Ticket = Ticket(category: string, severity: string, description: string)

  /**
   * The HTTP outcome: 200 with the id as text, the exception Add throws on a key
   * already present, or the exception reading the fields of a null ticket throws.
   */
  datatype PostResult = Ok(body: string) | DuplicateKey | NullTicket

  const Cycle: int := 0x1_0000_0000
  const MinInt32: int := -0x8000_0000
  const MaxInt32: int := 0x7FFF_FFFF

  /** Two's-complement reduction of an integer to an int32 value. */
  function Wrap32(x: int): (r: int)
    ensures MinInt32 <= r <= MaxInt32
    ensures (r - x) % Cycle == 0
    ensures MinInt32 <= x <= MaxInt32 ==> r == x
  {
    (x - MinInt32) % Cycle + MinInt32
  }

  /** Values that differ by a multiple of 2^32 wrap to the same int32. */
  lemma WrapCongruent(x: int, y: int)
    requires (x - y) % Cycle == 0
    ensures Wrap32(x) == Wrap32(y)
  {
    var q := (x - y) / Cycle;
    assert x - MinInt32 == (y - MinInt32) + q * Cycle;
    ModAddMultiple(y - MinInt32, q);
  }

  lemma ModAddMultiple(a: int, q: int)
    ensures (a + q * Cycle) % Cycle == a % Cycle
  {
  }

  /** Fewer than 2^32 consecutive values wrap to distinct int32 values. */
  lemma WrapInjective(a: int, b: int)
    requires a < b < a + Cycle
    ensures Wrap32(a) != Wrap32(b)
  {
  }

  /** The ids the first n posts are given: 1, 2, ... wrapping past the largest int32. */
  ghost function Issued(n: nat): set<int> {
    set j | 1 <= j <= n :: Wrap32(j)
  }

  lemma IssuedStep(n: nat)
    ensures Issued(n + 1) == Issued(n) + {Wrap32(n + 1)}
  {
  }

  /** Before the counter wraps, the ids handed out are exactly 1 .. n. */
  lemma IssuedBeforeWrap(n: nat)
    requires n < MaxInt32
    ensures forall id :: id in Issued(n) <==> 1 <= id <= n
  {
    forall id | 1 <= id <= n ensures id in Issued(n) {
      assert Wrap32(id) == id;
    }
  }

  /** The ids stored after n posts: those issued, up to the 2^32 that exist. */
  ghost function Held(n: nat): set<int> {
    Issued(if n < Cycle then n else Cycle)
  }

  /** Before 2^32 posts, the next id has not been issued yet. */
  lemma DuplicateOnlyWhenExhausted(n: nat)
    requires Wrap32(n + 1) in Held(n)
    ensures n >= Cycle
  {
    if n < Cycle {
      var j :| 1 <= j <= n && Wrap32(j) == Wrap32(n + 1);
      WrapInjective(j, n + 1);
    }
  }

  /** After 2^32 posts, every int32 id has been issued, the next one included. */
  lemma ExhaustedMeansDuplicate(n: nat)
    ensures n >= Cycle ==> Wrap32(n + 1) in Held(n)
  {
    var j := n % Cycle + 1;
    WrapCongruent(j, n + 1);
    assert Wrap32(j) in Issued(Cycle);
  }

  /**
   * One post after n: the id handed out is already stored exactly when all ids are
   * in use, the counter moves to the next wrapped value, and the id is stored when it
   * was free.
   */
  lemma PostStep(n: nat)
    ensures Wrap32(n + 1) in Held(n) <==> n >= Cycle
    ensures Wrap32(Wrap32(n + 1) + 1) == Wrap32(n + 2)
    ensures n < Cycle ==> Held(n + 1) == Held(n) + {Wrap32(n + 1)}
    ensures n >= Cycle ==> Held(n + 1) == Held(n)
  {
    if Wrap32(n + 1) in Held(n) {
      DuplicateOnlyWhenExhausted(n);
    }
    ExhaustedMeansDuplicate(n);
    WrapCongruent(Wrap32(n + 1) + 1, n + 2);
    IssuedStep(n);
  }

  class TicketsController {
    var nextTicketId: int
    var tickets: map<int, Ticket>
    /** The number of posts so far that reached the counter (a null ticket does not). */
    ghost var posts: nat

    /** The counter is the wrapped post count plus one; the keys are the ids issued without error. */
    ghost predicate Valid()
      reads this
    {
      && nextTicketId == Wrap32(posts + 1)
      && tickets.Keys == Held(posts)
    }

    constructor ()
      ensures Valid() && nextTicketId == 1 && tickets == map[] && posts == 0
    {
      nextTicketId := 1;
      tickets := map[];
      posts := 0;
    }

    /**
     * Logs the ticket's fields, which throws for a null ticket before any id is
     * taken; otherwise takes the current id and increments the counter, then adds
     * the ticket under that id. The add fails only once all 2^32 int32 ids are in use.
     */
    method Post(ticket: Option<Ticket>) returns (result: PostResult)
      requires Valid()
      modifies this
      ensures Valid()
      ensures ticket.None? ==>
        && result == NullTicket
        && nextTicketId == old(nextTicketId) && tickets == old(tickets) && posts == old(posts)
      ensures ticket.Some? ==> posts == old(posts) + 1 && nextTicketId == Wrap32(old(nextTicketId) + 1)
      ensures ticket.Some? ==> (result.DuplicateKey? <==> old(nextTicketId) in old(tickets))
      ensures ticket.Some? ==> (result.DuplicateKey? <==> old(posts) >= Cycle)
      ensures ticket.Some? && result.Ok? ==>
        result.body == IntToString(old(nextTicketId)) && tickets == old(tickets)[old(nextTicketId) := ticket.value]
      ensures ticket.Some? ==> !result.NullTicket? && (result.DuplicateKey? ==> tickets == old(tickets))
    {
      PostStep(posts);
      if ticket.None? {
        result := NullTicket;
      } else {
        var ticketId := nextTicketId;
        nextTicketId := Wrap32(nextTicketId + 1);
        posts := posts + 1;
        if ticketId in tickets {
          result := DuplicateKey;
        } else {
          tickets := tickets[ticketId := ticket.value];
          result := Ok(IntToString(ticketId));
        }
      }
    }
  }

  /** Before the wrap, the body sent back for the (n+1)-th post reads as the number n + 1. */
  lemma ResponseBeforeWrap(n: nat)
    requires n < MaxInt32
    ensures ParseNat(IntToString(Wrap32(n + 1))) == n + 1
  {
    ParseNatToString(n + 1);
  }

  /** Until the counter wraps, the n-th post is given id n and the keys are exactly 1 .. n. */
  lemma SequentialIds(c: TicketsController)
    requires c.Valid() && c.posts < MaxInt32
    ensures c.nextTicketId == c.posts + 1
    ensures forall id :: id in c.tickets <==> 1 <= id <= c.posts
  {
    IssuedBeforeWrap(c.posts);
  }
}
