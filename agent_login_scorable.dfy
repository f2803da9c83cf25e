/** The C# agent login command: "/agent login" marks the sender's conversation as an agent. */
module AgentLoginScorable {
  import opened Wrappers
  import opened HandOffTypes
  import opened Text
  import AgentGate
  import HandOffProvider
  import opened Notices

  const Trigger: string := "/agent login"

  /** PrepareAsync: the state is the text itself exactly when it equals the trigger up to case. */
  function PrepareAsync(m: Message): (state: Option<string>)
    ensures state.Some? <==> m.isMessage && EqualsIgnoreCase(m.text, Trigger)
    ensures state.Some? ==> state.value == m.text
  {
    assert EqualsIgnoreCase(m.text, Trigger) ==> !IsBlank(m.text) by {
      if EqualsIgnoreCase(m.text, Trigger) {
        assert Lower(m.text[0]) == Lower(Trigger[0]) == '/';
        assert !IsWhiteSpace(m.text[0]);
      }
    }
    if m.isMessage && !IsBlank(m.text) && EqualsIgnoreCase(m.text, Trigger) then Some(m.text) else None
  }

  function HasScore(state: Option<string>): bool {
    state.Some?
  }

  /** The scorable takes a message exactly when it is the login command. */
  lemma ScoresExactlyLogin(m: Message)
    ensures HasScore(PrepareAsync(m)) <==> m.isMessage && EqualsIgnoreCase(m.text, Trigger)
  {
  }

  /** A blank text is never the login command. */
  lemma BlankIsNotLogin(m: Message)
    requires IsBlank(m.text)
    ensures !HasScore(PrepareAsync(m))
  {
  }

  /**
   * PostAsync: the sender becomes an agent (whatever it was before) and is welcomed
   * with the current queue length; the registry is only read.
   */
  method PostAsync(botData: AgentGate.AgentFlags, provider: HandOffProvider.Provider, m: Message) returns (reply: Send)
    modifies botData
    ensures botData.flags == old(botData.flags)[m.address.conversationId := true]
    ensures botData.IsAgent(m.address.conversationId)
    ensures reply == Send(m.address, Welcome(provider.Pending()))
    ensures provider.conversations == old(provider.conversations)
  {
    botData.SetAgent(m.address.conversationId, true);
    reply := Send(m.address, Welcome(provider.Pending()));
  }
}
