/**
 * The Node hand-off registry: a closed-over array of conversation records. Its
 * peek sorts that shared array in place with a comparator that returns a boolean,
 * which is not a consistent ordering, so the order it leaves is modelled as any
 * permutation of the records.
 */
module NodeProvider {
  import opened Wrappers
  import opened HandOffTypes

  /** Replacing one element of a sequence replaces one occurrence in its multiset. */
  lemma UpdateMultiset<T>(s: seq<T>, k: nat, x: T)
    requires k < |s|
    ensures multiset(s[k := x]) == multiset(s) - multiset{s[k]} + multiset{x}
  {
    assert s == s[..k] + [s[k]] + s[k+1..];
    assert s[k := x] == s[..k] + [x] + s[k+1..];
  }

  /** Claiming the record at k of a reordering of `before` swaps one of before's waiting records for its claimed form. */
  lemma ClaimOfPermutation(before: seq<Conversation>, sorted: seq<Conversation>, k: nat, agent: Address)
    requires multiset(sorted) == multiset(before) && k < |sorted|
    ensures sorted[k] in multiset(before)
    ensures multiset(sorted[k := Claimed(sorted[k], agent)])
      == multiset(before) - multiset{sorted[k]} + multiset{Claimed(sorted[k], agent)}
  {
    UpdateMultiset(sorted, k, Claimed(sorted[k], agent));
    assert sorted[k] in multiset(sorted);
  }

  /** An agent bound to no record is bound to none after a reordering. */
  lemma UnboundAfterPermutation(before: seq<Conversation>, sorted: seq<Conversation>, id: string)
    requires multiset(sorted) == multiset(before)
    requires forall j :: 0 <= j < |before| ==> !HasAgent(before[j], id)
    ensures forall j :: 0 <= j < |sorted| ==> !HasAgent(sorted[j], id)
  {
    forall j | 0 <= j < |sorted| ensures !HasAgent(sorted[j], id) {
      assert sorted[j] in multiset(sorted);
      var i := IndexOf(before, sorted[j]);
    }
  }

  /**
   * What a peek does to the records `before`: they are reordered into `sorted`, and
   * the first waiting record of that order, if there is one, is claimed for the agent.
   */
  ghost predicate Peeked(before: seq<Conversation>, sorted: seq<Conversation>, r: Option<nat>, after: seq<Conversation>, agent: Address) {
    && multiset(sorted) == multiset(before)
    && r == FirstIndex(sorted, IsWaiting)
    && (r.None? ==> after == sorted)
    && (r.Some? ==> after == sorted[r.value := Claimed(sorted[r.value], agent)])
  }

  /** A peek finds nobody exactly when nobody waits, and then only reorders the records. */
  lemma PeekedNone(before: seq<Conversation>, sorted: seq<Conversation>, r: Option<nat>, after: seq<Conversation>, agent: Address)
    requires Peeked(before, sorted, r, after, agent)
    ensures |after| == |before|
    ensures r.None? <==> forall j :: 0 <= j < |before| ==> !IsWaiting(before[j])
    ensures r.None? ==> multiset(after) == multiset(before)
  {
    assert |sorted| == |before| by {
      assert |multiset(sorted)| == |multiset(before)|;
    }
    CountWaitingPermutation(before, sorted);
    assert r.None? <==> CountWaiting(sorted) == 0;
  }

  /**
   * A peek that finds someone swaps exactly one waiting record of `before` for its
   * claimed form, so one user fewer waits.
   */
  lemma PeekedSome(before: seq<Conversation>, sorted: seq<Conversation>, r: Option<nat>, after: seq<Conversation>, agent: Address)
    requires Peeked(before, sorted, r, after, agent) && r.Some?
    ensures var w := sorted[r.value];
      && IsWaiting(w) && w in multiset(before) && after[r.value] == Claimed(w, agent)
      && multiset(after) == multiset(before) - multiset{w} + multiset{Claimed(w, agent)}
    ensures CountWaiting(after) == CountWaiting(before) - 1
  {
    var k := r.value;
    ClaimOfPermutation(before, sorted, k, agent);
    CountWaitingPermutation(before, sorted);
    CountWaitingUpdate(sorted, k, Claimed(sorted[k], agent));
  }

  /** A peek for an agent bound to no record keeps the registry invariant. */
  lemma PeekedKeepsInvariant(before: seq<Conversation>, sorted: seq<Conversation>, r: Option<nat>, after: seq<Conversation>, agent: Address)
    requires Peeked(before, sorted, r, after, agent) && RegistryInvariant(before)
    requires forall j :: 0 <= j < |before| ==> !HasAgent(before[j], agent.conversationId)
    ensures RegistryInvariant(after)
  {
    RegistryInvariantPermutation(before, sorted);
    if r.Some? {
      UnboundAfterPermutation(before, sorted, agent.conversationId);
      ClaimKeepsInvariant(sorted, r.value, agent);
    }
  }

  class Provider {
    var data: seq<Conversation>

    ghost predicate Valid()
      reads this
    {
      RegistryInvariant(data)
    }

    constructor ()
      ensures data == [] && Valid()
    {
      data := [];
    }

    /** Pushes one record talking to the bot, without an agent; the array grows by one. */
    method CreateConversation(address: Address, now: nat) returns (index: nat)
      modifies this
      ensures index == |old(data)| && |data| == |old(data)| + 1
      ensures data == old(data) + [NewConversation(address, now)]
      ensures CountWaiting(data) == CountWaiting(old(data))
      ensures old(Valid()) && old(FindByConversationId(address.conversationId)).None? ==> Valid()
    {
      ghost var before := data;
      index := |data|;
      data := data + [NewConversation(address, now)];
      CountWaitingConcat(before, [NewConversation(address, now)]);
      if RegistryInvariant(before) && FirstIndex(before, c => HasUser(c, address.conversationId)).None? {
        AppendKeepsInvariant(before, NewConversation(address, now));
      }
    }

    /** The first record whose user conversation id is `id`, or undefined. */
    function FindByConversationId(id: string): (r: Option<nat>)
      reads this
      ensures r.Some? ==> r.value < |data| && HasUser(data[r.value], id)
      ensures r.Some? ==> forall j :: 0 <= j < r.value ==> !HasUser(data[j], id)
      ensures r.None? ==> forall j :: 0 <= j < |data| ==> !HasUser(data[j], id)
    {
      FirstIndex(data, c => HasUser(c, id))
    }

    /** The first record that has an agent whose conversation id is `id`, or undefined. */
    function FindByAgentId(id: string): (r: Option<nat>)
      reads this
      ensures r.Some? ==> r.value < |data| && data[r.value].agent.Some?
      ensures r.Some? ==> data[r.value].agent.value.conversationId == id
      ensures r.Some? ==> forall j :: 0 <= j < r.value ==> !HasAgent(data[j], id)
      ensures r.None? ==> forall j :: 0 <= j < |data| ==> !HasAgent(data[j], id)
    {
      FirstIndex(data, c => HasAgent(c, id))
    }

    /**
     * data.sort(comparator), in place. The comparator returns a boolean, which is no
     * consistent order, so the order it leaves is any permutation of the records.
     */
    method Sort()
      modifies this
      ensures multiset(data) == multiset(old(data)) && |data| == |old(data)|
      ensures CountWaiting(data) == CountWaiting(old(data))
      ensures old(Valid()) ==> Valid()
    {
      ghost var before := data;
      var s :| multiset(s) == multiset(data);
      data := s;
      assert |data| == |before| by {
        assert |multiset(data)| == |multiset(before)|;
      }
      CountWaitingPermutation(before, data);
      if RegistryInvariant(before) {
        RegistryInvariantPermutation(before, data);
      }
    }

    /**
     * Reorders the array (into `sorted`, some permutation of it), then claims the
     * first waiting record of the new order for the agent. Only that record's state
     * and agent change; with nobody waiting the records are merely reordered.
     */
    method PeekConversation(agent: Address) returns (r: Option<nat>, ghost sorted: seq<Conversation>)
      modifies this
      ensures Peeked(old(data), sorted, r, data, agent)
      ensures old(Valid()) && old(FindByAgentId(agent.conversationId)).None? ==> Valid()
    {
      ghost var before := data;
      Sort();
      sorted := data;
      r := FirstIndex(data, IsWaiting);
      if r.Some? {
        data := data[r.value := Claimed(data[r.value], agent)];
      }
      if RegistryInvariant(before) && FirstIndex(before, c => HasAgent(c, agent.conversationId)).None? {
        PeekedKeepsInvariant(before, sorted, r, data, agent);
      }
    }
  }
}
