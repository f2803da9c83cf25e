/**
 * The per-conversation "is this session an agent" flag: the bot-state property
 * bag behind IsAgent/SetAgent in the C# port, and session.conversationData.isAgent
 * in the Node port. A conversation that never set the flag is not an agent.
 */
module AgentGate {

  class AgentFlags {
    var flags: map<string, bool>

    constructor ()
      ensures flags == map[]
    {
      flags := map[];
    }

    /** The flag of one conversation; false when it was never set. */
    function IsAgent(conversationId: string): (b: bool)
      reads this
      ensures conversationId !in flags ==> !b
      ensures conversationId in flags ==> b == flags[conversationId]
    {
      conversationId in flags && flags[conversationId]
    }

    /** Stores the flag of one conversation and leaves every other flag alone. */
    method SetAgent(conversationId: string, value: bool)
      modifies this
      ensures flags == old(flags)[conversationId := value]
      ensures IsAgent(conversationId) == value
      ensures forall id :: id != conversationId ==> IsAgent(id) == old(IsAgent(id))
    {
      flags := flags[conversationId := value];
    }
  }
}
