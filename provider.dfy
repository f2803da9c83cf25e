/**
 * The C# hand-off registry: a process-wide list of conversation records that
 * the command and router scorables query and update in place. A reference to a
 * record is modelled as its index in the list.
 */
module HandOffProvider {
  import opened Wrappers
  import opened HandOffTypes

  class Provider {
    var conversations: seq<Conversation>

    /** Agent present exactly when connected, one record per user, one record per agent. */
    ghost predicate Valid()
      reads this
    {
      RegistryInvariant(conversations)
    }

    constructor ()
      ensures conversations == [] && Valid()
    {
      conversations := [];
    }

    /** The number of users waiting for an agent. */
    function Pending(): (n: nat)
      reads this
      ensures n == |WaitingIndices(conversations)|
      ensures n <= |conversations|
    {
      CountWaitingCardinality(conversations);
      CountWaiting(conversations)
    }

    /** The first record whose user conversation id is `id`. */
    function FindByConversationId(id: string): (r: Option<nat>)
      reads this
      ensures r.Some? ==> r.value < |conversations| && HasUser(conversations[r.value], id)
      ensures r.Some? ==> forall j :: 0 <= j < r.value ==> !HasUser(conversations[j], id)
      ensures r.None? ==> forall j :: 0 <= j < |conversations| ==> !HasUser(conversations[j], id)
    {
      FirstIndex(conversations, c => HasUser(c, id))
    }

    /** The first record bound to an agent whose conversation id is `id`; records without an agent never match. */
    function FindByAgentId(id: string): (r: Option<nat>)
      reads this
      ensures r.Some? ==> r.value < |conversations| && conversations[r.value].agent.Some?
      ensures r.Some? ==> conversations[r.value].agent.value.conversationId == id
      ensures r.Some? ==> forall j :: 0 <= j < r.value ==> !HasAgent(conversations[j], id)
      ensures r.None? ==> forall j :: 0 <= j < |conversations| ==> !HasAgent(conversations[j], id)
    {
      FirstIndex(conversations, c => HasAgent(c, id))
    }

    /** Appends one record talking to the bot; the records already there are untouched. */
    method CreateConversation(reference: Address, now: nat) returns (index: nat)
      modifies this
      ensures index == |old(conversations)|
      ensures conversations == old(conversations) + [NewConversation(reference, now)]
      ensures Pending() == old(Pending())
      ensures old(Valid()) && old(FindByConversationId(reference.conversationId)).None? ==> Valid()
    {
      ghost var before := conversations;
      index := |conversations|;
      conversations := conversations + [NewConversation(reference, now)];
      assert conversations[..|conversations| - 1] == before;
      if RegistryInvariant(before) && FirstIndex(before, c => HasUser(c, reference.conversationId)).None? {
        AppendKeepsInvariant(before, NewConversation(reference, now));
      }
    }

    /**
     * Claims a waiting record for the agent. As written, the record claimed is the
     * one with the NEWEST timestamp (a descending sort), the first in the list on ties.
     */
    method PeekConversation(agent: Address) returns (r: Option<nat>)
      modifies this
      ensures r == NewestWaiting(old(conversations))
      ensures r.None? ==> conversations == old(conversations)
      ensures r.Some? ==> conversations == old(conversations)[r.value := Claimed(old(conversations)[r.value], agent)]
      ensures r.Some? ==> Pending() == old(Pending()) - 1
      ensures old(Valid()) && old(FindByAgentId(agent.conversationId)).None? ==> Valid()
    {
      ghost var before := conversations;
      r := NewestWaiting(conversations);
      if r.Some? {
        var i := r.value;
        conversations := conversations[i := Claimed(conversations[i], agent)];
        CountWaitingUpdate(before, i, Claimed(before[i], agent));
        if RegistryInvariant(before) && FirstIndex(before, c => HasAgent(c, agent.conversationId)).None? {
          ClaimKeepsInvariant(before, i, agent);
        }
      }
    }

    /**
     * The corrected peek: claims the waiting record with the OLDEST timestamp, the
     * earliest-created waiting user, which is as close to the help text's "waiting
     * the longest" as the record's one timestamp allows.
     */
    method PeekOldestWaiting(agent: Address) returns (r: Option<nat>)
      modifies this
      ensures r == OldestWaiting(old(conversations))
      ensures r.None? ==> conversations == old(conversations)
      ensures r.Some? ==> conversations == old(conversations)[r.value := Claimed(old(conversations)[r.value], agent)]
      ensures r.Some? ==> Pending() == old(Pending()) - 1
      ensures old(Valid()) && old(FindByAgentId(agent.conversationId)).None? ==> Valid()
    {
      ghost var before := conversations;
      r := OldestWaiting(conversations);
      if r.Some? {
        var i := r.value;
        conversations := conversations[i := Claimed(conversations[i], agent)];
        CountWaitingUpdate(before, i, Claimed(before[i], agent));
        if RegistryInvariant(before) && FirstIndex(before, c => HasAgent(c, agent.conversationId)).None? {
          ClaimKeepsInvariant(before, i, agent);
        }
      }
    }

    /**
     * A user asks for a human: find or create the user's record and queue it if it
     * talks to the bot. False means the user was already waiting or connected.
     */
    method QueueMe(reference: Address, now: nat) returns (queued: bool)
      modifies this
      ensures var found := old(FindByConversationId(reference.conversationId));
        && (found.Some? ==> queued == (old(conversations)[found.value].state == ConnectedToBot))
        && (found.Some? && queued ==> conversations == old(conversations)[found.value := Queued(old(conversations)[found.value])])
        && (found.Some? && !queued ==> conversations == old(conversations))
        && (found.None? ==> queued && conversations == old(conversations) + [Queued(NewConversation(reference, now))])
      ensures Pending() == old(Pending()) + (if queued then 1 else 0)
      ensures FindByConversationId(reference.conversationId).Some?
      ensures old(Valid()) ==> Valid()
    {
      ghost var before := conversations;
      var found := FindByConversationId(reference.conversationId);
      var i: nat;
      if found.None? {
        i := CreateConversation(reference, now);
      } else {
        i := found.value;
      }
      ghost var created := conversations;
      if conversations[i].state == ConnectedToBot {
        conversations := conversations[i := Queued(conversations[i])];
        CountWaitingUpdate(created, i, Queued(created[i]));
        if RegistryInvariant(created) {
          QueueKeepsInvariant(created, i);
        }
        queued := true;
        if found.None? {
          UpdateLast(before, created[i], Queued(created[i]));
        }
      } else {
        queued := false;
      }
      assert HasUser(conversations[i], reference.conversationId);
    }
  }
}
