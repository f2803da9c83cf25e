/**
 * The C# agent command interpreter: classifies an agent's text as help, connect
 * or resume, then drives the registry transition and builds the notifications.
 */
module CommandScorable {
  import opened HandOffTypes
  import opened Text
  import AgentGate
  import HandOffProvider
  import opened Notices

  datatype AgentCommand = Help | Connect | Resume | None

  /** A text equal to a non-blank word, up to case, is not blank. */
  lemma EqualsWordIsNotBlank(text: string, word: string)
    requires word != [] && 'a' <= word[0] <= 'z'
    ensures EqualsIgnoreCase(text, word) ==> !IsBlank(text)
  {
    if EqualsIgnoreCase(text, word) {
      assert !IsWhiteSpace(text[0]) by {
        assert Lower(text[0]) == Lower(word[0]) == word[0];
      }
    }
  }

  /**
   * PrepareAsync: only a message with text from an agent can be a command. "agent
   * help" is recognised whether or not the agent is bound; "connect" only when the
   * agent is bound to no conversation, "resume" only when it is. All matches are
   * whole-text and ignore case.
   */
  function PrepareAsync(botData: AgentGate.AgentFlags, provider: HandOffProvider.Provider, m: Message): (c: AgentCommand)
    reads botData, provider
    ensures !m.isMessage || !botData.IsAgent(m.address.conversationId) ==> c == None
    ensures c == Help <==> m.isMessage && botData.IsAgent(m.address.conversationId) && EqualsIgnoreCase(m.text, "agent help")
    ensures c == Connect <==>
      && m.isMessage && botData.IsAgent(m.address.conversationId)
      && provider.FindByAgentId(m.address.conversationId).None? && EqualsIgnoreCase(m.text, "connect")
    ensures c == Resume <==>
      && m.isMessage && botData.IsAgent(m.address.conversationId)
      && provider.FindByAgentId(m.address.conversationId).Some? && EqualsIgnoreCase(m.text, "resume")
  {
    EqualsWordIsNotBlank(m.text, "agent help");
    EqualsWordIsNotBlank(m.text, "connect");
    EqualsWordIsNotBlank(m.text, "resume");
    if m.isMessage && !IsBlank(m.text) && botData.IsAgent(m.address.conversationId) then
      if EqualsIgnoreCase(m.text, "agent help") then Help
      else if provider.FindByAgentId(m.address.conversationId).None? then
        if EqualsIgnoreCase(m.text, "connect") then Connect else None
      else if EqualsIgnoreCase(m.text, "resume") then Resume
      else None
    else None
  }

  function HasScore(c: AgentCommand): bool {
    c != None
  }

  /** The scorable takes the message exactly when one of the three commands was recognised. */
  lemma HasScoreIffRecognised(botData: AgentGate.AgentFlags, provider: HandOffProvider.Provider, m: Message)
    ensures HasScore(PrepareAsync(botData, provider, m)) <==>
      m.isMessage && botData.IsAgent(m.address.conversationId) &&
      (|| EqualsIgnoreCase(m.text, "agent help")
       || (provider.FindByAgentId(m.address.conversationId).None? && EqualsIgnoreCase(m.text, "connect"))
       || (provider.FindByAgentId(m.address.conversationId).Some? && EqualsIgnoreCase(m.text, "resume")))
  {
  }

  /**
   * Resume is produced only for an agent bound to a record, so in a sequential run
   * the record PostAsync dereferences for Resume is there.
   */
  lemma ResumeOnlyWhenBound(botData: AgentGate.AgentFlags, provider: HandOffProvider.Provider, m: Message)
    requires PrepareAsync(botData, provider, m) == Resume
    ensures provider.FindByAgentId(m.address.conversationId).Some?
  {
  }

  /**
   * PostAsync: performs the command and returns what is sent, in order: at most one
   * message to the user, then exactly one reply to the agent.
   */
  method PostAsync(provider: HandOffProvider.Provider, m: Message, command: AgentCommand) returns (sent: seq<Send>)
    requires command == Resume ==> provider.FindByAgentId(m.address.conversationId).Some?
    modifies provider
    ensures 1 <= |sent| <= 2 && sent[|sent| - 1].to == m.address
    ensures command == Help ==>
      sent == [Send(m.address, AgentHelp)] && provider.conversations == old(provider.conversations)
    ensures command == None ==>
      sent == [Send(m.address, "")] && provider.conversations == old(provider.conversations)
    ensures command == Connect ==>
      var r := NewestWaiting(old(provider.conversations));
      && (r.None? ==> provider.conversations == old(provider.conversations) && sent == [Send(m.address, NoUsersWaiting)])
      && (r.Some? ==>
            && provider.conversations == old(provider.conversations)[r.value := Claimed(old(provider.conversations)[r.value], m.address)]
            && sent == [Send(old(provider.conversations)[r.value].user, TalkingToHuman), Send(m.address, ConnectedToUser)])
    ensures command == Resume ==>
      var k := old(provider.FindByAgentId(m.address.conversationId)).value;
      && provider.conversations == old(provider.conversations)[k := Released(old(provider.conversations)[k])]
      && sent == [Send(old(provider.conversations)[k].user, TalkingToBot), Send(m.address, Disconnected(provider.Pending()))]
    ensures command == Resume && old(provider.Valid()) ==> provider.Pending() == old(provider.Pending())
    ensures old(provider.Valid()) && (command == Connect ==> old(provider.FindByAgentId(m.address.conversationId)).None?) ==>
      provider.Valid()
  {
    match command {
      case Help =>
        sent := [Send(m.address, AgentHelp)];
      case Connect =>
        var target := provider.PeekConversation(m.address);
        if target.Some? {
          sent := [Send(provider.conversations[target.value].user, TalkingToHuman), Send(m.address, ConnectedToUser)];
        } else {
          sent := [Send(m.address, NoUsersWaiting)];
        }
      case Resume =>
        ghost var before := provider.conversations;
        var k := provider.FindByAgentId(m.address.conversationId).value;
        provider.conversations := provider.conversations[k := Released(provider.conversations[k])];
        CountWaitingUpdate(before, k, Released(before[k]));
        if RegistryInvariant(before) {
          ReleaseKeepsInvariant(before, k);
        }
        sent := [Send(provider.conversations[k].user, TalkingToBot), Send(m.address, Disconnected(provider.Pending()))];
      case None =>
        sent := [Send(m.address, "")];
    }
  }
}
