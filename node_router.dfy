/**
 * The Node message router middleware: forwards a bound agent's text to its user,
 * a connected user's text to its agent, answers a waiting user with the queue
 * length, and lets every other message continue to the bot (`next()`).
 */
module NodeRouter {
  import opened Wrappers
  import opened HandOffTypes
  import opened Notices
  import AgentGate
  import NodeProvider

  /**
   * What routing an agent's message does, given the record `bound` the agent is bound
   * to (the first one found): the text goes verbatim to that record's user; an
   * unbound agent's text goes nowhere.
   */
  ghost predicate AgentRouted(data: seq<Conversation>, bound: Option<nat>, m: Message, sent: seq<Send>) {
    && (bound.Some? ==> bound.value < |data|)
    && (bound.None? ==> sent == [])
    && (bound.Some? ==> sent == [Send(data[bound.value].user, m.text)])
  }

  /**
   * What routing a user's message does to the records `before`, given the user's
   * record `found`: an unknown user gets a new bot-connected record and continues to
   * the bot; a known one leaves the records as they are and, by the record's state,
   * continues to the bot, is told how many others wait, or has its text forwarded
   * verbatim to its agent.
   */
  ghost predicate UserRouted(before: seq<Conversation>, found: Option<nat>, after: seq<Conversation>,
                             m: Message, now: nat, callsNext: bool, sent: seq<Send>) {
    && (found.Some? ==> found.value < |before|)
    && (found.None? ==> after == before + [NewConversation(m.address, now)] && callsNext && sent == [])
    && (found.Some? ==> after == before)
    && (found.Some? && before[found.value].state == ConnectedToBot ==> callsNext && sent == [])
    && (found.Some? && before[found.value].state == WaitingForAgent ==>
          !callsNext && CountWaiting(after) >= 1 && sent == [Send(m.address, PleaseWaitBehind(CountWaiting(after) - 1))])
    && (found.Some? && before[found.value].state == ConnectedToAgent ==>
          !callsNext && before[found.value].agent.Some? && sent == [Send(before[found.value].agent.value, m.text)])
  }

  class Router {
    const provider: NodeProvider.Provider
    /** The agent test the application supplies: the sender conversation's agent flag. */
    const isAgent: AgentGate.AgentFlags

    ghost predicate Valid()
      reads this, provider
    {
      provider.Valid()
    }

    constructor (isAgent: AgentGate.AgentFlags)
      ensures this.isAgent == isAgent && fresh(provider) && provider.data == [] && Valid()
    {
      this.isAgent := isAgent;
      provider := new NodeProvider.Provider();
    }

    /** The number of records waiting for an agent. */
    function Pending(): (n: nat)
      reads this, provider
      ensures n == |WaitingIndices(provider.data)|
      ensures n == 0 <==> forall i :: 0 <= i < |provider.data| ==> !IsWaiting(provider.data[i])
    {
      CountWaitingCardinality(provider.data);
      CountWaiting(provider.data)
    }

    /** An agent's text goes verbatim to the user of the record the agent is bound to; unbound, nothing is sent. */
    method RouteAgentMessage(m: Message) returns (sent: seq<Send>)
      ensures AgentRouted(provider.data, provider.FindByAgentId(m.address.conversationId), m, sent)
    {
      var conversation := provider.FindByAgentId(m.address.conversationId);
      if conversation.None? {
        return [];
      }
      sent := [Send(provider.data[conversation.value].user, m.text)];
    }

    /**
     * A user's message: the record is found or created; a bot-connected user continues
     * to the bot, a waiting user is told how many others wait, a connected user's
     * text goes verbatim to its agent.
     */
    method RouteUserMessage(m: Message, now: nat) returns (callsNext: bool, sent: seq<Send>)
      requires Valid()
      modifies provider
      ensures Valid() && Pending() == old(Pending())
      ensures UserRouted(old(provider.data), old(provider.FindByConversationId(m.address.conversationId)), provider.data,
                         m, now, callsNext, sent)
    {
      var found := provider.FindByConversationId(m.address.conversationId);
      var k: nat;
      if found.None? {
        k := provider.CreateConversation(m.address, now);
      } else {
        k := found.value;
      }
      var conversation := provider.data[k];
      match conversation.state {
        case ConnectedToBot =>
          callsNext, sent := true, [];
        case WaitingForAgent =>
          callsNext, sent := false, [Send(m.address, PleaseWaitBehind(Pending() - 1))];
        case ConnectedToAgent =>
          callsNext, sent := false, [Send(conversation.agent.value, m.text)];
      }
    }

    /**
     * The middleware: non-messages continue to the bot; agents' messages are routed
     * to their users and never continue; users' messages are routed as above.
     * Continuing and sending exclude each other, and at most one message is sent.
     */
    method Middleware(m: Message, now: nat) returns (callsNext: bool, sent: seq<Send>)
      requires Valid()
      modifies provider
      ensures Valid() && Pending() == old(Pending())
      ensures |sent| <= 1 && !(callsNext && sent != [])
      ensures !m.isMessage ==> callsNext && sent == [] && provider.data == old(provider.data)
      ensures m.isMessage && isAgent.IsAgent(m.address.conversationId) ==>
        && !callsNext && provider.data == old(provider.data)
        && AgentRouted(old(provider.data), old(provider.FindByAgentId(m.address.conversationId)), m, sent)
      ensures m.isMessage && !isAgent.IsAgent(m.address.conversationId) ==>
        UserRouted(old(provider.data), old(provider.FindByConversationId(m.address.conversationId)), provider.data,
                   m, now, callsNext, sent)
      ensures |old(provider.data)| <= |provider.data|
      ensures forall i :: 0 <= i < |old(provider.data)| ==> provider.data[i] == old(provider.data)[i]
    {
      if m.isMessage {
        if isAgent.IsAgent(m.address.conversationId) {
          sent := RouteAgentMessage(m);
          callsNext := false;
        } else {
          callsNext, sent := RouteUserMessage(m, now);
        }
      } else {
        callsNext, sent := true, [];
      }
    }
  }
}
