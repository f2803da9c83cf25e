/**
 * The Node agent command middleware, installed ahead of the router: it interprets
 * an agent's "agent help", "connect" and "resume" (each a case-insensitive prefix)
 * and lets other traffic continue. `QueueMe` is what a user's request for a human
 * calls.
 */
module NodeCommand {
  import opened Wrappers
  import opened HandOffTypes
  import opened Text
  import opened Notices
  import AgentGate
  import NodeProvider
  import NodeRouter

  /** The help text, sent back on the agent's own conversation. */
  function SendAgentHelp(m: Message): (s: Send)
    ensures s.to == m.address && s.text == AgentHelp
  {
    Send(m.address, AgentHelp)
  }

  /** An agent's text that passes on to the router: not help, from a bound agent, and not "resume". */
  predicate AgentContinues(text: string, bound: Option<nat>) {
    !StartsWithIgnoreCase(text, "agent help") && bound.Some? && !StartsWithIgnoreCase(text, "resume")
  }

  /**
   * What an agent's command does to the records `before`, given the record `bound`
   * the agent is bound to. Help comes first, bound or not. An unbound agent's
   * "connect" claims one waiting record (the array may be reordered) and notifies
   * the agent, then that user; with nobody waiting the agent is told so; any other
   * text gets the help. A bound agent's "resume" hands its record back to the bot
   * and notifies the agent with the pending count, then the user. Only the
   * remaining texts continue, and they change nothing.
   */
  ghost predicate AgentCommanded(before: seq<Conversation>, bound: Option<nat>, after: seq<Conversation>,
                                 m: Message, callsNext: bool, sent: seq<Send>) {
    && (bound.Some? ==> bound.value < |before|)
    && (callsNext <==> AgentContinues(m.text, bound))
    && (callsNext ==> sent == [] && after == before)
    && (StartsWithIgnoreCase(m.text, "agent help") ==> sent == [SendAgentHelp(m)] && after == before)
    && (!StartsWithIgnoreCase(m.text, "agent help") && bound.None? ==>
          && (!StartsWithIgnoreCase(m.text, "connect") ==> sent == [SendAgentHelp(m)] && after == before)
          && (StartsWithIgnoreCase(m.text, "connect") && CountWaiting(before) == 0 ==>
                sent == [Send(m.address, NoUsersWaiting)] && multiset(after) == multiset(before))
          && (StartsWithIgnoreCase(m.text, "connect") && CountWaiting(before) > 0 ==>
                && CountWaiting(after) == CountWaiting(before) - 1
                && exists w :: (&& IsWaiting(w) && w in multiset(before)
                                && multiset(after) == multiset(before) - multiset{w} + multiset{Claimed(w, m.address)}
                                && sent == [Send(m.address, ConnectedToUser), Send(w.user, TalkingToHuman)])))
    && (!StartsWithIgnoreCase(m.text, "agent help") && bound.Some? && StartsWithIgnoreCase(m.text, "resume") ==>
          && after == before[bound.value := Released(before[bound.value])]
          && CountWaiting(after) == CountWaiting(before)
          && sent == [Send(m.address, Disconnected(CountWaiting(after))), Send(before[bound.value].user, TalkingToBot)])
  }

  class Command {
    const router: NodeRouter.Router

    constructor (router: NodeRouter.Router)
      ensures this.router == router
    {
      this.router := router;
    }

    /**
     * An agent's message. Help comes first, bound or not. An unbound agent may
     * connect (claiming a waiting user, if any); any other text gets the help. A
     * bound agent may resume (releasing its user); any other text continues.
     */
    method AgentCommand(m: Message) returns (callsNext: bool, sent: seq<Send>)
      requires router.Valid()
      modifies router.provider
      ensures router.Valid()
      ensures AgentCommanded(old(router.provider.data), old(router.provider.FindByAgentId(m.address.conversationId)),
                             router.provider.data, m, callsNext, sent)
    {
      var conversation := router.provider.FindByAgentId(m.address.conversationId);
      if StartsWithIgnoreCase(m.text, "agent help") {
        return false, [SendAgentHelp(m)];
      }
      if conversation.None? {
        if StartsWithIgnoreCase(m.text, "connect") {
          sent := Connect(m);
          callsNext := false;
        } else {
          callsNext, sent := false, [SendAgentHelp(m)];
        }
      } else {
        if StartsWithIgnoreCase(m.text, "resume") {
          sent := Resume(m, conversation.value);
          callsNext := false;
        } else {
          callsNext, sent := true, [];
        }
      }
    }

    /** "connect" from an unbound agent: claim a waiting user, if any, and notify the agent, then the user. */
    method Connect(m: Message) returns (sent: seq<Send>)
      requires router.Valid() && router.provider.FindByAgentId(m.address.conversationId).None?
      modifies router.provider
      ensures router.Valid()
      ensures old(router.Pending()) == 0 ==>
        sent == [Send(m.address, NoUsersWaiting)] && multiset(router.provider.data) == multiset(old(router.provider.data))
      ensures old(router.Pending()) > 0 ==>
        && router.Pending() == old(router.Pending()) - 1
        && exists w :: (&& IsWaiting(w) && w in multiset(old(router.provider.data))
                        && multiset(router.provider.data) == multiset(old(router.provider.data)) - multiset{w} + multiset{Claimed(w, m.address)}
                        && sent == [Send(m.address, ConnectedToUser), Send(w.user, TalkingToHuman)])
    {
      var provider := router.provider;
      ghost var before := provider.data;
      var target, sorted := provider.PeekConversation(m.address);
      NodeProvider.PeekedNone(before, sorted, target, provider.data, m.address);
      if target.Some? {
        NodeProvider.PeekedSome(before, sorted, target, provider.data, m.address);
        sent := [Send(m.address, ConnectedToUser), Send(provider.data[target.value].user, TalkingToHuman)];
      } else {
        sent := [Send(m.address, NoUsersWaiting)];
      }
    }

    /** "resume" from an agent bound to record `k`: hand the user back to the bot and notify the agent, then the user. */
    method Resume(m: Message, k: nat) returns (sent: seq<Send>)
      requires router.Valid() && k < |router.provider.data| && HasAgent(router.provider.data[k], m.address.conversationId)
      modifies router.provider
      ensures router.Valid()
      ensures router.provider.data == old(router.provider.data)[k := Released(old(router.provider.data)[k])]
      ensures router.Pending() == old(router.Pending())
      ensures sent == [Send(m.address, Disconnected(router.Pending())), Send(old(router.provider.data)[k].user, TalkingToBot)]
    {
      var provider := router.provider;
      var before := provider.data;
      provider.data := before[k := Released(before[k])];
      CountWaitingUpdate(before, k, Released(before[k]));
      ReleaseKeepsInvariant(before, k);
      var pending := router.Pending();
      sent := [Send(m.address, Disconnected(pending)), Send(before[k].user, TalkingToBot)];
    }

    /** The middleware: only agents' messages are interpreted; everything else continues untouched. */
    method Middleware(m: Message) returns (callsNext: bool, sent: seq<Send>)
      requires router.Valid()
      modifies router.provider
      ensures router.Valid()
      ensures callsNext ==> sent == []
      ensures !(m.isMessage && router.isAgent.IsAgent(m.address.conversationId)) ==>
        callsNext && sent == [] && router.provider.data == old(router.provider.data)
      ensures m.isMessage && router.isAgent.IsAgent(m.address.conversationId) ==>
        AgentCommanded(old(router.provider.data), old(router.provider.FindByAgentId(m.address.conversationId)),
                       router.provider.data, m, callsNext, sent)
    {
      if m.isMessage && router.isAgent.IsAgent(m.address.conversationId) {
        callsNext, sent := AgentCommand(m);
      } else {
        callsNext, sent := true, [];
      }
    }

    /**
     * A user asks for a human: the user's record is found or created and queued if
     * it talks to the bot; false leaves every state as it was.
     */
    method QueueMe(m: Message, now: nat) returns (queued: bool)
      requires router.Valid()
      modifies router.provider
      ensures router.Valid()
      ensures router.Pending() == old(router.Pending()) + (if queued then 1 else 0)
      ensures var found := old(router.provider.FindByConversationId(m.address.conversationId));
        && (found.Some? ==> queued == (old(router.provider.data)[found.value].state == ConnectedToBot))
        && (found.Some? && queued ==>
              router.provider.data == old(router.provider.data)[found.value := Queued(old(router.provider.data)[found.value])])
        && (found.Some? && !queued ==> router.provider.data == old(router.provider.data))
        && (found.None? ==>
              queued && router.provider.data == old(router.provider.data) + [Queued(NewConversation(m.address, now))])
    {
      var provider := router.provider;
      ghost var before := provider.data;
      var found := provider.FindByConversationId(m.address.conversationId);
      var k: nat;
      if found.None? {
        k := provider.CreateConversation(m.address, now);
        assert RegistryInvariant(provider.data);
      } else {
        k := found.value;
      }
      ghost var created := provider.data;
      assert CountWaiting(created) == CountWaiting(before);
      if provider.data[k].state == ConnectedToBot {
        QueueStep(created, k);
        provider.data := provider.data[k := Queued(provider.data[k])];
        queued := true;
        if found.None? {
          UpdateLast(before, created[k], Queued(created[k]));
        }
      } else {
        queued := false;
      }
      assert RegistryInvariant(provider.data);
    }
  }

  /**
   * One inbound message through the Node bot: the command middleware first, then
   * the router, then (only if both continue) the bot's own dialogs. A user's message
   * passes the command middleware untouched and is routed; an agent's message is
   * interpreted as a command, and only a text the command middleware passes on is
   * routed to the agent's user.
   */
  method HandleMessage(command: Command, m: Message, now: nat) returns (reachesDialogs: bool, sent: seq<Send>)
    requires command.router.Valid()
    modifies command.router.provider
    ensures command.router.Valid()
    ensures reachesDialogs ==> sent == []
    ensures !m.isMessage ==>
      reachesDialogs && sent == [] && command.router.provider.data == old(command.router.provider.data)
    ensures m.isMessage && !command.router.isAgent.IsAgent(m.address.conversationId) ==>
      NodeRouter.UserRouted(old(command.router.provider.data),
                            old(command.router.provider.FindByConversationId(m.address.conversationId)),
                            command.router.provider.data, m, now, reachesDialogs, sent)
    ensures m.isMessage && command.router.isAgent.IsAgent(m.address.conversationId) ==>
      var bound := old(command.router.provider.FindByAgentId(m.address.conversationId));
      && !reachesDialogs
      && (AgentContinues(m.text, bound) ==>
            && command.router.provider.data == old(command.router.provider.data)
            && NodeRouter.AgentRouted(old(command.router.provider.data), bound, m, sent))
      && (!AgentContinues(m.text, bound) ==>
            AgentCommanded(old(command.router.provider.data), bound, command.router.provider.data, m, false, sent))
  {
    var next;
    next, sent := command.Middleware(m);
    if next {
      reachesDialogs, sent := command.router.Middleware(m, now);
    } else {
      reachesDialogs := false;
    }
  }
}
