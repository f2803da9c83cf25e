/**
 * The C# message router: picks where an inbound message goes (the paired party,
 * the sender itself for a "please wait" notice, or nowhere so the bot handles it)
 * and builds the one message it then sends.
 */
module RouterScorable {
  import opened Wrappers
  import opened HandOffTypes
  import opened Text
  import AgentGate
  import HandOffProvider
  import opened Notices

  /** An agent's message goes to the user of the record the agent is bound to, if any. */
  function PrepareRouteableAgentActivity(provider: HandOffProvider.Provider, conversationId: string): (destination: Option<Address>)
    reads provider
    ensures destination.None? <==> forall i :: 0 <= i < |provider.conversations| ==> !HasAgent(provider.conversations[i], conversationId)
    ensures destination.Some? ==>
      exists i :: 0 <= i < |provider.conversations| && HasAgent(provider.conversations[i], conversationId)
        && destination.value == provider.conversations[i].user
  {
    match provider.FindByAgentId(conversationId)
    case None => None
    case Some(k) => Some(provider.conversations[k].user)
  }

  /**
   * A user's message: the user's record is found or created; a bot-connected user
   * gets no destination, a waiting user its own reference, a connected user its agent.
   * The only change to the registry is the creation of a missing record.
   */
  method PrepareRouteableUserActivity(provider: HandOffProvider.Provider, reference: Address, now: nat)
      returns (destination: Option<Address>)
    modifies provider
    ensures var found := old(provider.FindByConversationId(reference.conversationId));
      && (found.None? ==>
            provider.conversations == old(provider.conversations) + [NewConversation(reference, now)] && destination.None?)
      && (found.Some? ==>
            && provider.conversations == old(provider.conversations)
            && var c := old(provider.conversations)[found.value];
               destination == (match c.state
                               case ConnectedToBot => None
                               case WaitingForAgent => Some(c.user)
                               case ConnectedToAgent => c.agent))
    ensures old(provider.Valid()) ==> provider.Valid()
    ensures old(provider.Valid()) ==> provider.Pending() == old(provider.Pending())
    ensures old(provider.Valid()) ==>
      var found := old(provider.FindByConversationId(reference.conversationId));
      HasScore(destination) <==> found.Some? && old(provider.conversations)[found.value].state != ConnectedToBot
  {
    var found := provider.FindByConversationId(reference.conversationId);
    var k: nat;
    if found.None? {
      k := provider.CreateConversation(reference, now);
    } else {
      k := found.value;
    }
    var c := provider.conversations[k];
    match c.state {
      case ConnectedToBot => destination := None;
      case WaitingForAgent => destination := Some(c.user);
      case ConnectedToAgent => destination := c.agent;
    }
  }

  /** PrepareAsync: only a message with text is routed, by whether its sender is an agent. */
  method PrepareAsync(provider: HandOffProvider.Provider, botData: AgentGate.AgentFlags, m: Message, now: nat)
      returns (destination: Option<Address>)
    modifies provider
    ensures !m.isMessage || IsBlank(m.text) ==>
      destination.None? && provider.conversations == old(provider.conversations)
    ensures m.isMessage && !IsBlank(m.text) && botData.IsAgent(m.address.conversationId) ==>
      && destination == old(PrepareRouteableAgentActivity(provider, m.address.conversationId))
      && provider.conversations == old(provider.conversations)
    ensures m.isMessage && !IsBlank(m.text) && !botData.IsAgent(m.address.conversationId) ==>
      var found := old(provider.FindByConversationId(m.address.conversationId));
      && (found.None? ==>
            provider.conversations == old(provider.conversations) + [NewConversation(m.address, now)] && destination.None?)
      && (found.Some? ==> provider.conversations == old(provider.conversations))
      && (found.Some? && old(provider.conversations)[found.value].state == WaitingForAgent ==>
            destination == Some(old(provider.conversations)[found.value].user))
      && (found.Some? && old(provider.conversations)[found.value].state == ConnectedToAgent ==>
            destination == old(provider.conversations)[found.value].agent)
      && (found.Some? && old(provider.conversations)[found.value].state == ConnectedToBot ==> destination.None?)
    ensures |old(provider.conversations)| <= |provider.conversations|
    ensures forall i :: 0 <= i < |old(provider.conversations)| ==> provider.conversations[i] == old(provider.conversations)[i]
    ensures old(provider.Valid()) ==> provider.Valid() && provider.Pending() == old(provider.Pending())
  {
    if m.isMessage && !IsBlank(m.text) {
      if botData.IsAgent(m.address.conversationId) {
        destination := PrepareRouteableAgentActivity(provider, m.address.conversationId);
      } else {
        destination := PrepareRouteableUserActivity(provider, m.address, now);
      }
    } else {
      destination := None;
    }
  }

  function HasScore(destination: Option<Address>): bool {
    destination.Some?
  }

  /** An agent's message is taken exactly when the agent is bound to a record. */
  lemma AgentScoresIffBound(provider: HandOffProvider.Provider, conversationId: string)
    ensures HasScore(PrepareRouteableAgentActivity(provider, conversationId)) <==>
      provider.FindByAgentId(conversationId).Some?
  {
  }

  /**
   * PostAsync: one message goes to the destination; it is the fixed notice when the
   * destination is the sender's own conversation and the inbound text otherwise.
   */
  function PostAsync(m: Message, destination: Address, self: Address): (s: Send)
    ensures s.to == destination
    ensures destination.conversationId == self.conversationId ==> s.text == PleaseWait
    ensures destination.conversationId != self.conversationId ==> s.text == m.text
  {
    Send(destination, if destination.conversationId == self.conversationId then PleaseWait else m.text)
  }

  /**
   * A waiting user's message is answered on its own conversation with the notice,
   * and so is never forwarded to anybody else.
   */
  lemma WaitingUserIsToldToWait(c: Conversation, m: Message)
    requires c.state == WaitingForAgent && HasUser(c, m.address.conversationId)
    ensures PostAsync(m, c.user, m.address) == Send(c.user, PleaseWait)
  {
  }

  /**
   * The destination of a connected user is the bound agent, and
   * the destination of a bound agent is a user; either way the message is forwarded
   * verbatim when the two parties are different conversations.
   */
  lemma ConnectedPartiesGetVerbatimText(c: Conversation, m: Message)
    requires c.state == ConnectedToAgent && c.agent.Some?
    requires c.user.conversationId != c.agent.value.conversationId
    ensures HasUser(c, m.address.conversationId) ==> PostAsync(m, c.agent.value, m.address) == Send(c.agent.value, m.text)
    ensures HasAgent(c, m.address.conversationId) ==> PostAsync(m, c.user, m.address) == Send(c.user, m.text)
  {
  }
}
