/**
 * The records of the hand-off registry, shared by the C# and the Node port,
 * and the queries over a list of them: first match, the waiting count, the
 * waiting record a peek claims, and the invariants the registry keeps.
 */
module HandOffTypes {
  import opened Wrappers

  /**
   * A C# ConversationReference or a Node session address: the conversation id
   * used for every lookup, and the service endpoint a message is posted to.
   */
  datatype Address = Address(conversationId: string, serviceUrl: string)

  datatype ConversationState = ConnectedToBot | WaitingForAgent | ConnectedToAgent

  /** The number the Node port's ConversationState enumeration gives each state. */
  function StateValue(s: ConversationState): (v: nat)
    ensures v <= 2
  {
    match s
    case ConnectedToBot => 0
    case WaitingForAgent => 1
    case ConnectedToAgent => 2
  }

  /** The three enumeration values are distinct, so comparing numbers compares states. */
  lemma StateValuesDistinct(s: ConversationState, t: ConversationState)
    ensures StateValue(s) == StateValue(t) <==> s == t
  {
  }

  /** A registry record; `timestamp` is the creation time the caller's clock supplied. */
  datatype Conversation = Conversation(timestamp: nat, user: Address, agent: Option<Address>, state: ConversationState)

  /** An inbound activity: whether it is a message, its text, and the sender's address. */
  datatype Message = Message(isMessage: bool, text: string, address: Address)

  /** One outbound delivery. */
  datatype Send = Send(to: Address, text: string)

  predicate IsWaiting(c: Conversation) {
    c.state == WaitingForAgent
  }

  predicate HasUser(c: Conversation, id: string) {
    c.user.conversationId == id
  }

  predicate HasAgent(c: Conversation, id: string) {
    c.agent.Some? && c.agent.value.conversationId == id
  }

  /** The record a user's first relevant message creates. */
  function NewConversation(user: Address, now: nat): Conversation {
    Conversation(now, user, None, ConnectedToBot)
  }

  /** The record after an agent takes it over. */
  function Claimed(c: Conversation, agent: Address): Conversation {
    c.(state := ConnectedToAgent, agent := Some(agent))
  }

  /** The record after the agent hands it back to the bot. */
  function Released(c: Conversation): Conversation {
    c.(state := ConnectedToBot, agent := None)
  }

  /** The record after its user asked for a human. */
  function Queued(c: Conversation): Conversation {
    c.(state := WaitingForAgent)
  }

  /** The index of the first element satisfying p (LINQ FirstOrDefault, JavaScript Array.find). */
  function FirstIndex<T>(s: seq<T>, p: T -> bool): (r: Option<nat>)
    ensures r.Some? ==> r.value < |s| && p(s[r.value]) && forall j :: 0 <= j < r.value ==> !p(s[j])
    ensures r.None? ==> forall j :: 0 <= j < |s| ==> !p(s[j])
  {
    if s == [] then None
    else if p(s[0]) then Some(0)
    else match FirstIndex(s[1..], p)
      case None => None
      case Some(k) => Some(k + 1)
  }

  // ---------------------------------------------------------------------------
  // The waiting count

  function Weight(c: Conversation): nat {
    if IsWaiting(c) then 1 else 0
  }

  /** The number of records waiting for an agent. */
  function CountWaiting(cs: seq<Conversation>): (n: nat)
    ensures n <= |cs|
    ensures n == 0 <==> forall i :: 0 <= i < |cs| ==> !IsWaiting(cs[i])
  {
    if cs == [] then 0 else CountWaiting(cs[..|cs| - 1]) + Weight(cs[|cs| - 1])
  }

  /** The positions of the waiting records: the independent definition of the count. */
  ghost function WaitingIndices(cs: seq<Conversation>): set<nat> {
    set i: nat | i < |cs| && IsWaiting(cs[i])
  }

  lemma {:induction false} CountWaitingCardinality(cs: seq<Conversation>)
    ensures CountWaiting(cs) == |WaitingIndices(cs)|
  {
    if cs != [] {
      var n := |cs| - 1;
      var init := cs[..n];
      CountWaitingCardinality(init);
      if IsWaiting(cs[n]) {
        assert WaitingIndices(cs) == WaitingIndices(init) + {n};
      } else {
        assert WaitingIndices(cs) == WaitingIndices(init);
      }
    }
  }

  lemma {:induction false} CountWaitingConcat(a: seq<Conversation>, b: seq<Conversation>)
    ensures CountWaiting(a + b) == CountWaiting(a) + CountWaiting(b)
  {
    if b == [] {
      assert a + b == a;
    } else {
      var init := b[..|b| - 1];
      assert (a + b)[..|a + b| - 1] == a + init;
      CountWaitingConcat(a, init);
    }
  }

  /** Replacing one record changes the count by the difference of their weights. */
  lemma CountWaitingUpdate(cs: seq<Conversation>, i: nat, c: Conversation)
    requires i < |cs|
    ensures CountWaiting(cs[i := c]) + Weight(cs[i]) == CountWaiting(cs) + Weight(c)
  {
    var pre, post := cs[..i], cs[i + 1..];
    assert cs == pre + [cs[i]] + post;
    assert cs[i := c] == pre + [c] + post;
    CountWaitingConcat(pre + [cs[i]], post);
    CountWaitingConcat(pre + [c], post);
    CountWaitingConcat(pre, [cs[i]]);
    CountWaitingConcat(pre, [c]);
    assert CountWaiting([c]) == Weight(c) by { assert [c][..0] == []; }
    assert CountWaiting([cs[i]]) == Weight(cs[i]) by { assert [cs[i]][..0] == []; }
  }

  /** Removing the record at `j` takes one copy of it out of the multiset. */
  lemma MultisetRemove(b: seq<Conversation>, j: nat)
    requires j < |b|
    ensures multiset(b[..j] + b[j + 1..]) == multiset(b) - multiset{b[j]}
  {
    assert b == b[..j] + [b[j]] + b[j + 1..];
  }

  /** Taking a record out from between two runs takes its weight out of the count. */
  lemma CountWaitingRemove(pre: seq<Conversation>, x: Conversation, post: seq<Conversation>)
    ensures CountWaiting(pre + [x] + post) == CountWaiting(pre + post) + Weight(x)
  {
    CountWaitingConcat(pre + [x], post);
    CountWaitingConcat(pre, [x]);
    CountWaitingConcat(pre, post);
    assert CountWaiting([x]) == Weight(x) by { assert [x][..0] == []; }
  }

  /** Reordering the records does not change the count. */
  lemma {:induction false} CountWaitingPermutation(a: seq<Conversation>, b: seq<Conversation>)
    requires multiset(a) == multiset(b)
    ensures CountWaiting(a) == CountWaiting(b)
    decreases |a|
  {
    if a == [] {
      assert |b| == |multiset(b)| == 0;
    } else {
      var x, init := a[|a| - 1], a[..|a| - 1];
      assert CountWaiting(a) == CountWaiting(init) + Weight(x);
      assert multiset(init) == multiset(a) - multiset{x} by { assert a == init + [x]; }
      assert x in multiset(b);
      var j :| 0 <= j < |b| && b[j] == x;
      var pre, post := b[..j], b[j + 1..];
      assert b == pre + [x] + post;
      MultisetRemove(b, j);
      CountWaitingRemove(pre, x, post);
      CountWaitingPermutation(init, pre + post);
    }
  }

  // ---------------------------------------------------------------------------
  // Which waiting record a peek claims

  /**
   * The waiting record with the greatest timestamp, the first one in the list on
   * ties: what a stable descending sort of the waiting records puts first.
   */
  function NewestWaiting(cs: seq<Conversation>): (r: Option<nat>)
    ensures r.None? <==> forall j :: 0 <= j < |cs| ==> !IsWaiting(cs[j])
    ensures r.Some? ==> r.value < |cs| && IsWaiting(cs[r.value])
    ensures r.Some? ==> forall j :: 0 <= j < |cs| && IsWaiting(cs[j]) ==> cs[j].timestamp <= cs[r.value].timestamp
    ensures r.Some? ==> forall j :: 0 <= j < r.value && IsWaiting(cs[j]) ==> cs[j].timestamp < cs[r.value].timestamp
  {
    if cs == [] then None
    else
      var last := |cs| - 1;
      var best := NewestWaiting(cs[..last]);
      if IsWaiting(cs[last]) && (best.None? || cs[best.value].timestamp < cs[last].timestamp) then Some(last)
      else best
  }

  /**
   * The waiting record with the smallest timestamp, the first one in the list on
   * ties. A record is stamped when it is created, not when it is queued, so this is
   * the earliest-created waiting user; that is the one who has waited longest only
   * when users ask for a human in the order they first wrote.
   */
  function OldestWaiting(cs: seq<Conversation>): (r: Option<nat>)
    ensures r.None? <==> forall j :: 0 <= j < |cs| ==> !IsWaiting(cs[j])
    ensures r.Some? ==> r.value < |cs| && IsWaiting(cs[r.value])
    ensures r.Some? ==> forall j :: 0 <= j < |cs| && IsWaiting(cs[j]) ==> cs[r.value].timestamp <= cs[j].timestamp
    ensures r.Some? ==> forall j :: 0 <= j < r.value && IsWaiting(cs[j]) ==> cs[r.value].timestamp < cs[j].timestamp
  {
    if cs == [] then None
    else
      var last := |cs| - 1;
      var best := OldestWaiting(cs[..last]);
      if IsWaiting(cs[last]) && (best.None? || cs[last].timestamp < cs[best.value].timestamp) then Some(last)
      else best
  }

  /** Records created one after another by a clock that moves forward. */
  ghost predicate Chronological(cs: seq<Conversation>) {
    forall i, j :: 0 <= i < j < |cs| ==> cs[i].timestamp < cs[j].timestamp
  }

  /** In a chronological registry the as-written peek takes the LAST waiting record. */
  lemma NewestWaitingIsLastWaiting(cs: seq<Conversation>)
    requires Chronological(cs)
    ensures var r := NewestWaiting(cs);
      r.Some? ==> forall j :: r.value < j < |cs| ==> !IsWaiting(cs[j])
  {
  }

  /** In a chronological registry the oldest waiting record is the first waiting one. */
  lemma OldestWaitingIsFirstWaiting(cs: seq<Conversation>)
    requires Chronological(cs)
    ensures OldestWaiting(cs) == FirstIndex(cs, IsWaiting)
  {
    var r, f := OldestWaiting(cs), FirstIndex(cs, IsWaiting);
    if r.Some? {
      assert f.Some? && f.value <= r.value;
    }
  }

  /**
   * First come, first served by creation time: after the oldest waiting record is
   * claimed, the next claim takes the next waiting record in list order and skips
   * none created earlier.
   */
  lemma OldestWaitingFifo(cs: seq<Conversation>, agent: Address)
    requires Chronological(cs)
    requires OldestWaiting(cs).Some?
    ensures var i := OldestWaiting(cs).value;
      var next := OldestWaiting(cs[i := Claimed(cs[i], agent)]);
      next.Some? ==> i < next.value && forall j :: i < j < next.value ==> !IsWaiting(cs[j])
  {
    var i := OldestWaiting(cs).value;
    var cs' := cs[i := Claimed(cs[i], agent)];
    assert Chronological(cs');
    OldestWaitingIsFirstWaiting(cs);
    OldestWaitingIsFirstWaiting(cs');
    var next := OldestWaiting(cs');
    if next.Some? {
      assert !IsWaiting(cs'[i]);
      forall j | 0 <= j < i ensures !IsWaiting(cs'[j]) {
        assert cs'[j] == cs[j];
      }
      forall j | i < j < next.value ensures !IsWaiting(cs[j]) {
        assert cs'[j] == cs[j];
      }
    }
  }

  /** Two waiting users whose records were created at times 1 and 2: the as-written peek serves the later-created one. */
  lemma NewestWaitingServesLatecomer(first: Address, second: Address)
    ensures var cs := [Conversation(1, first, None, WaitingForAgent), Conversation(2, second, None, WaitingForAgent)];
      NewestWaiting(cs) == Some(1) && OldestWaiting(cs) == Some(0)
  {
    var cs := [Conversation(1, first, None, WaitingForAgent), Conversation(2, second, None, WaitingForAgent)];
    assert cs[..1] == [cs[0]];
    assert cs[..1][..0] == [];
  }

  // ---------------------------------------------------------------------------
  // Registry invariants

  /** An agent is recorded exactly when the record is connected to an agent. */
  ghost predicate AgentIffConnected(cs: seq<Conversation>) {
    forall i :: 0 <= i < |cs| ==> (cs[i].agent.Some? <==> cs[i].state == ConnectedToAgent)
  }

  function UserKey(c: Conversation): Option<string> {
    Some(c.user.conversationId)
  }

  function AgentKey(c: Conversation): Option<string> {
    if c.agent.Some? then Some(c.agent.value.conversationId) else None
  }

  /** No two records share a present key. */
  ghost predicate DistinctKeys(cs: seq<Conversation>, key: Conversation -> Option<string>) {
    forall i, j :: 0 <= i < j < |cs| && key(cs[i]).Some? ==> key(cs[i]) != key(cs[j])
  }

  /** One record per user conversation id. */
  ghost predicate UniqueUsers(cs: seq<Conversation>) {
    DistinctKeys(cs, UserKey)
  }

  /** An agent conversation is bound to at most one record. */
  ghost predicate UniqueAgents(cs: seq<Conversation>) {
    DistinctKeys(cs, AgentKey)
  }

  ghost predicate RegistryInvariant(cs: seq<Conversation>) {
    AgentIffConnected(cs) && UniqueUsers(cs) && UniqueAgents(cs)
  }

  lemma RegistryInvariantEmpty()
    ensures RegistryInvariant([])
  {
  }

  /** Appending a fresh, unbound record for a user not yet registered keeps the invariant. */
  lemma AppendKeepsInvariant(cs: seq<Conversation>, c: Conversation)
    requires RegistryInvariant(cs)
    requires c.agent.None? && c.state != ConnectedToAgent
    requires forall i :: 0 <= i < |cs| ==> !HasUser(cs[i], c.user.conversationId)
    ensures RegistryInvariant(cs + [c])
  {
    var cs' := cs + [c];
    forall i, j | 0 <= i < j < |cs'| && UserKey(cs'[i]).Some? ensures UserKey(cs'[i]) != UserKey(cs'[j]) {
      if j == |cs| { assert !HasUser(cs[i], c.user.conversationId); }
    }
  }

  /** Binding a waiting record to an agent that is bound nowhere keeps the invariant. */
  lemma ClaimKeepsInvariant(cs: seq<Conversation>, i: nat, agent: Address)
    requires RegistryInvariant(cs) && i < |cs|
    requires forall j :: 0 <= j < |cs| ==> !HasAgent(cs[j], agent.conversationId)
    ensures RegistryInvariant(cs[i := Claimed(cs[i], agent)])
  {
    var cs' := cs[i := Claimed(cs[i], agent)];
    forall j, k | 0 <= j < k < |cs'| && AgentKey(cs'[j]).Some? ensures AgentKey(cs'[j]) != AgentKey(cs'[k]) {
      if j == i { assert !HasAgent(cs[k], agent.conversationId); }
      if k == i { assert !HasAgent(cs[j], agent.conversationId); }
    }
  }

  /** Handing a record back to the bot keeps the invariant. */
  lemma ReleaseKeepsInvariant(cs: seq<Conversation>, i: nat)
    requires RegistryInvariant(cs) && i < |cs|
    ensures RegistryInvariant(cs[i := Released(cs[i])])
  {
    var cs' := cs[i := Released(cs[i])];
    forall j, k | 0 <= j < k < |cs'| && AgentKey(cs'[j]).Some? ensures AgentKey(cs'[j]) != AgentKey(cs'[k]) {
      assert AgentKey(cs[j]) != AgentKey(cs[k]);
    }
  }

  /** Queuing a record that talks to the bot keeps the invariant. */
  lemma QueueKeepsInvariant(cs: seq<Conversation>, i: nat)
    requires RegistryInvariant(cs) && i < |cs| && cs[i].state == ConnectedToBot
    ensures RegistryInvariant(cs[i := Queued(cs[i])])
  {
    var cs' := cs[i := Queued(cs[i])];
    forall j, k | 0 <= j < k < |cs'| && AgentKey(cs'[j]).Some? ensures AgentKey(cs'[j]) != AgentKey(cs'[k]) {
      assert AgentKey(cs[j]) != AgentKey(cs[k]);
    }
  }
  /** Replacing the record just appended is the same as appending its replacement. */
  lemma UpdateLast(cs: seq<Conversation>, c: Conversation, d: Conversation)
    ensures (cs + [c])[|cs| := d] == cs + [d]
  {
  }

  /** Queueing a bot-connected record keeps the invariant and adds one waiting user. */
  lemma QueueStep(cs: seq<Conversation>, i: nat)
    requires RegistryInvariant(cs) && i < |cs| && cs[i].state == ConnectedToBot
    ensures RegistryInvariant(cs[i := Queued(cs[i])])
    ensures CountWaiting(cs[i := Queued(cs[i])]) == CountWaiting(cs) + 1
  {
    QueueKeepsInvariant(cs, i);
    CountWaitingUpdate(cs, i, Queued(cs[i]));
  }

  // ---------------------------------------------------------------------------
  // Invariants under reordering (the Node port sorts its registry in place)

  lemma MultiplicityOfRepeat<T>(s: seq<T>, i: nat, j: nat)
    requires i < j < |s| && s[i] == s[j]
    ensures multiset(s)[s[i]] >= 2
  {
    assert s == s[..j] + [s[j]] + s[j + 1..];
    assert s[i] in multiset(s[..j]) by { assert s[..j][i] == s[i]; }
  }

  lemma {:induction false} RepeatOfMultiplicity<T>(s: seq<T>, x: T) returns (i: nat, j: nat)
    requires multiset(s)[x] >= 2
    ensures i < j < |s| && s[i] == x && s[j] == x
  {
    var n := |s| - 1;
    var init := s[..n];
    assert s == init + [s[n]];
    if s[n] == x {
      assert x in multiset(init);
      i :| 0 <= i < |init| && init[i] == x;
      j := n;
    } else {
      i, j := RepeatOfMultiplicity(init, x);
    }
  }

  lemma IndexOf<T>(s: seq<T>, x: T) returns (k: nat)
    requires x in multiset(s)
    ensures k < |s| && s[k] == x
  {
    k :| 0 <= k < |s| && s[k] == x;
  }

  /** Distinct keys survive any reordering of the records. */
  lemma DistinctKeysPermutation(a: seq<Conversation>, b: seq<Conversation>, key: Conversation -> Option<string>)
    requires multiset(a) == multiset(b) && DistinctKeys(a, key)
    ensures DistinctKeys(b, key)
  {
    forall i, j | 0 <= i < j < |b| && key(b[i]).Some? ensures key(b[i]) != key(b[j]) {
      if b[i] == b[j] {
        MultiplicityOfRepeat(b, i, j);
        var k, l := RepeatOfMultiplicity(a, b[i]);
      } else {
        var k := IndexOf(a, b[i]);
        var l := IndexOf(a, b[j]);
      }
    }
  }

  /** The whole registry invariant survives any reordering of the records. */
  lemma RegistryInvariantPermutation(a: seq<Conversation>, b: seq<Conversation>)
    requires multiset(a) == multiset(b) && RegistryInvariant(a)
    ensures RegistryInvariant(b)
  {
    forall i | 0 <= i < |b| ensures b[i].agent.Some? <==> b[i].state == ConnectedToAgent {
      assert b[i] in multiset(a);
    }
    DistinctKeysPermutation(a, b, UserKey);
    DistinctKeysPermutation(a, b, AgentKey);
  }
}
