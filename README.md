# Help-desk bot: human hand-off, modelled in Dafny

The help-desk bot can pass a user's chat to a live human agent and later give it
back to the bot. This project models that hand-off subsystem in both of its ports:
the C# scorables and the Node middleware. It also models the smaller pieces of the
bot that have a definite contract:

- the trigger-phrase scorables;
- the category menu labels;
- the ticket-id allocators.

**The registry.** It is a list of conversation records. Each record has:

- a user address;
- an optional agent address;
- a state: talking to the bot, waiting for an agent, or connected to an agent;
- a creation timestamp.

**The C# port.**

- `Provider` holds the list as a `seq<Conversation>` field (`provider.dfy`).
- The command scorable (`command_scorable.dfy`) recognises an agent's `agent help`, `connect` and `resume`.
- The router scorable (`router_scorable.dfy`) decides where each other message goes.
- The login scorable (`agent_login_scorable.dfy`) turns a conversation into an agent conversation.

**The Node port** is structured the same way:

- `node_provider.dfy` is the registry.
- `node_command.dfy` is the agent-command middleware.
- `node_router.dfy` is the message router.
- `NodeCommand.HandleMessage` runs the two middlewares in the order the Node app installs them.

**Shared pieces.**

- The record types, the registry invariants and the queries both ports share are in `conversations.dfy`.
- The per-conversation agent flag is a map that defaults to false (`agent_gate.dfy`).
- The texts sent to users and agents are in `notices.dfy`.
- .NET trimming, white space and ASCII case folding are in `text.dfy`.

**How the system is modelled.**

- A reference to a record is its index in the registry list.
- Every outbound message is a `Send(to, text)` value, returned in the order the code sends it.
- The clock is a `now: nat` argument, and equal timestamps are allowed.
- A JavaScript `undefined` or C# `null` text is the empty string.

**The registry invariant.** `HandOffTypes.RegistryInvariant` is the conjunction of three facts:

- an agent is recorded exactly when the record is connected to an agent;
- no two records share a user id;
- no two records share an agent id.

Every operation is proved to keep it, given the same call order the bot uses. The pending count always equals the number of waiting records.

## Model

| member | source | states |
|---|---|---|
| HandOffTypes.StateValue | assets/exercise7-HandOffToHuman/provider.js:4-8 | the Node enumeration numbers the three states 0, 1, 2 |
| HandOffTypes.StateValuesDistinct | assets/exercise7-HandOffToHuman/provider.js:4-8 | two states have the same number exactly when they are the same state |
| HandOffTypes.FirstIndex | CSharp/exercise8-BackChannel/HandOff/Provider.cs:55 | `Where(..).FirstOrDefault()` / `Array.find`: the index of the first element satisfying the predicate, none exactly when no element does |
| HandOffTypes.CountWaiting | CSharp/exercise8-BackChannel/HandOff/Provider.cs:37 | the waiting count is at most the list length and is zero exactly when nobody waits |
| HandOffTypes.CountWaitingCardinality | CSharp/exercise8-BackChannel/HandOff/Provider.cs:35-38 | the count equals the number of positions holding a waiting record |
| HandOffTypes.CountWaitingConcat | assets/exercise7-HandOffToHuman/provider.js:28 | appending records adds their waiting count |
| HandOffTypes.CountWaitingUpdate | CSharp/exercise8-BackChannel/HandOff/Provider.cs:71-72 | replacing one record changes the count by exactly the difference of their waiting weights |
| HandOffTypes.CountWaitingPermutation | assets/exercise7-HandOffToHuman/provider.js:45 | reordering the records does not change the waiting count |
| HandOffTypes.NewestWaiting | CSharp/exercise8-BackChannel/HandOff/Provider.cs:65-67 | the waiting record with the greatest timestamp, the first in the list on ties (stable descending order); none exactly when nobody waits |
| HandOffTypes.OldestWaiting | CSharp/exercise8-BackChannel/HandOff/CommandScorable.cs:23 | the waiting record with the smallest creation timestamp, first in the list on ties: the waiting user whose record was created earliest |
| HandOffTypes.NewestWaitingIsLastWaiting | CSharp/exercise8-BackChannel/HandOff/Provider.cs:65-67 | with timestamps increasing along the list, the as-written peek takes the last waiting record |
| HandOffTypes.OldestWaitingIsFirstWaiting | CSharp/exercise8-BackChannel/HandOff/CommandScorable.cs:23 | with timestamps increasing along the list, the oldest waiting record is the first waiting one |
| HandOffTypes.OldestWaitingFifo | CSharp/exercise8-BackChannel/HandOff/CommandScorable.cs:23 | after the earliest-created waiting record is claimed, the next claim takes the next one in creation order and skips nobody |
| HandOffTypes.NewestWaitingServesLatecomer | CSharp/exercise8-BackChannel/HandOff/Provider.cs:67 | two waiting records created at times 1 and 2: the as-written peek claims the one created at 2 |
| HandOffTypes.RegistryInvariantEmpty | CSharp/exercise8-BackChannel/HandOff/Provider.cs:28-31 | the empty registry satisfies the invariant |
| HandOffTypes.AppendKeepsInvariant | CSharp/exercise8-BackChannel/HandOff/Provider.cs:40-51 | appending a bot-connected record for a new user id keeps the invariant |
| HandOffTypes.ClaimKeepsInvariant | CSharp/exercise8-BackChannel/HandOff/Provider.cs:69-73 | claiming a record for an agent bound nowhere else keeps the invariant |
| HandOffTypes.ReleaseKeepsInvariant | CSharp/exercise8-BackChannel/HandOff/CommandScorable.cs:115-117 | handing a record back to the bot (state reset, agent removed) keeps the invariant |
| HandOffTypes.QueueStep | CSharp/exercise8-BackChannel/HandOff/Provider.cs:86-90 | queueing a bot-connected record keeps the invariant and adds exactly one waiting user |
| HandOffTypes.QueueKeepsInvariant | CSharp/exercise8-BackChannel/HandOff/Provider.cs:86-90 | queueing a bot-connected record keeps the invariant |
| HandOffTypes.DistinctKeysPermutation | assets/exercise7-HandOffToHuman/provider.js:45 | distinct user (agent) ids survive any reordering |
| HandOffTypes.RegistryInvariantPermutation | assets/exercise7-HandOffToHuman/provider.js:45 | the whole invariant survives the in-place sort |
| AgentGate.AgentFlags.constructor | CSharp/exercise8-BackChannel/HandOff/AgentExtensions.cs:11-16 | no conversation is an agent to begin with |
| AgentGate.AgentFlags.IsAgent | CSharp/exercise8-BackChannel/HandOff/AgentExtensions.cs:11-16 | the stored flag, false when none was ever stored |
| AgentGate.AgentFlags.SetAgent | CSharp/exercise8-BackChannel/HandOff/AgentExtensions.cs:18-22 | stores the flag for that conversation only; every other conversation's flag is unchanged |
| HandOffProvider.Provider.constructor | CSharp/exercise8-BackChannel/HandOff/Provider.cs:28-31 | an empty registry, which satisfies the invariant |
| HandOffProvider.Provider.Pending | CSharp/exercise8-BackChannel/HandOff/Provider.cs:35-38 | the number of records in the waiting state |
| HandOffProvider.Provider.CreateConversation | CSharp/exercise8-BackChannel/HandOff/Provider.cs:40-51 | appends exactly one bot-connected, agent-less record for the reference; earlier records and the pending count are untouched; the invariant is kept for a new user id |
| HandOffProvider.Provider.FindByConversationId | CSharp/exercise8-BackChannel/HandOff/Provider.cs:53-56 | the first record with that user id, none exactly when no record has it |
| HandOffProvider.Provider.FindByAgentId | CSharp/exercise8-BackChannel/HandOff/Provider.cs:58-61 | the first record that has an agent with that id; never a record without an agent |
| HandOffProvider.Provider.PeekConversation | CSharp/exercise8-BackChannel/HandOff/Provider.cs:63-76 | claims the newest waiting record (see Findings); with nobody waiting nothing changes; otherwise only that record changes, to connected with this agent, and pending drops by one; the invariant is kept for an unbound agent |
| HandOffProvider.Provider.PeekOldestWaiting | CSharp/exercise8-BackChannel/HandOff/CommandScorable.cs:23 | the corrected peek: the same transition applied to the earliest-created waiting record |
| HandOffProvider.Provider.QueueMe | CSharp/exercise8-BackChannel/HandOff/Provider.cs:78-93 | finds or creates the user's record; true exactly when it was bot-connected, and it is now waiting (pending +1); false changes nothing; never a second record for a known user; the invariant is kept |
| CommandScorable.PrepareAsync | CSharp/exercise8-BackChannel/HandOff/CommandScorable.cs:37-72 | non-messages, blank texts and non-agents give None; whole-text "agent help" gives Help bound or not; "connect" gives Connect only for an unbound agent; "resume" gives Resume only for a bound one; all case-insensitive |
| CommandScorable.HasScoreIffRecognised | CSharp/exercise8-BackChannel/HandOff/CommandScorable.cs:74-77 | the scorable takes the message exactly when one of the three commands applies |
| CommandScorable.ResumeOnlyWhenBound | CSharp/exercise8-BackChannel/HandOff/CommandScorable.cs:52-66 | Resume implies the agent is bound, so the record PostAsync dereferences exists |
| CommandScorable.PostAsync | CSharp/exercise8-BackChannel/HandOff/CommandScorable.cs:84-135 | one reply to the agent, last, and at most one message to the user before it; Help: options only; Connect: the peek's transition, the user told "talking to a human agent" or the agent told nobody waits; Resume: the bound record back to the bot, pending unchanged, the reply carrying the new pending count |
| RouterScorable.PrepareRouteableAgentActivity | CSharp/exercise8-BackChannel/HandOff/RouterScorable.cs:44-48 | the user of the record bound to this agent, none exactly when the agent is unbound |
| RouterScorable.PrepareRouteableUserActivity | CSharp/exercise8-BackChannel/HandOff/RouterScorable.cs:50-69 | an unknown user gets a new bot-connected record and no destination; otherwise nothing changes and the destination is none, the user itself, or the agent, by state; on a valid registry the message scores exactly when the user is known and not talking to the bot |
| RouterScorable.AgentScoresIffBound | CSharp/exercise8-BackChannel/HandOff/RouterScorable.cs:71-74 | an agent's message scores exactly when the agent is bound to a record |
| RouterScorable.PrepareAsync | CSharp/exercise8-BackChannel/HandOff/RouterScorable.cs:24-42 | non-messages and blank texts give no destination; agents and users are routed as above; the only registry change is appending a missing user record, so the invariant and pending are kept |
| RouterScorable.PostAsync | CSharp/exercise8-BackChannel/HandOff/RouterScorable.cs:81-97 | one message to the destination: the fixed "please wait" notice when it is the sender's own conversation, the inbound text otherwise |
| RouterScorable.WaitingUserIsToldToWait | CSharp/exercise8-BackChannel/HandOff/RouterScorable.cs:62-63 | a waiting user is answered on its own conversation with the notice |
| RouterScorable.ConnectedPartiesGetVerbatimText | CSharp/exercise8-BackChannel/HandOff/RouterScorable.cs:84-90 | between a connected user and its distinct agent, text is forwarded unchanged in both directions |
| AgentLoginScorable.PrepareAsync | assets/exercise7-HandOffToHuman/AgentLoginScorable.cs:50-62 | the state is the text itself exactly when the message's whole text is "/agent login" up to case |
| AgentLoginScorable.ScoresExactlyLogin | assets/exercise7-HandOffToHuman/AgentLoginScorable.cs:34-37 | the scorable takes a message exactly when its whole text is "/agent login" up to case |
| AgentLoginScorable.BlankIsNotLogin | assets/exercise7-HandOffToHuman/AgentLoginScorable.cs:52-53 | a blank text never scores |
| AgentLoginScorable.PostAsync | assets/exercise7-HandOffToHuman/AgentLoginScorable.cs:39-48 | the sender's flag becomes true, other flags unchanged; the welcome carries the current pending count; the registry is not touched |
| NodeProvider.Provider.constructor | assets/exercise7-HandOffToHuman/provider.js:13 | an empty array, which satisfies the invariant |
| NodeProvider.Provider.CreateConversation | assets/exercise7-HandOffToHuman/provider.js:21-31 | pushes exactly one bot-connected, agent-less record; the length grows by one; the waiting count is unchanged |
| NodeProvider.Provider.FindByConversationId | assets/exercise7-HandOffToHuman/provider.js:34-36 | the first record with that user id, or none |
| NodeProvider.Provider.FindByAgentId | assets/exercise7-HandOffToHuman/provider.js:39-41 | the first record with an agent of that id; records without an agent are skipped |
| NodeProvider.Provider.Sort | assets/exercise7-HandOffToHuman/provider.js:45 | `data.sort(..)` in place: the same records in some order, so the same length, the same waiting count and the invariant kept |
| NodeProvider.Provider.PeekConversation | assets/exercise7-HandOffToHuman/provider.js:44-51 | the array is reordered, then the first waiting record of the new order, if any, is claimed for the agent (`Peeked`); the invariant is kept for an agent bound nowhere |
| NodeProvider.PeekedNone | assets/exercise7-HandOffToHuman/provider.js:45-46 | a peek finds nobody exactly when nobody waits, and then the array holds the same records; the length never changes |
| NodeProvider.PeekedSome | assets/exercise7-HandOffToHuman/provider.js:45-49 | a peek that finds someone replaces exactly one of the original waiting records by its claimed form, so the waiting count drops by one |
| NodeProvider.PeekedKeepsInvariant | assets/exercise7-HandOffToHuman/provider.js:44-51 | a peek for an agent bound to no record keeps the registry invariant |
| NodeRouter.Router.constructor | Node/exercise7-HandOffToHuman/handoff/router.js:6-9 | a fresh, empty registry and the application's agent test |
| NodeRouter.Router.Pending | Node/exercise7-HandOffToHuman/handoff/router.js:61-63 | the number of waiting records |
| NodeRouter.Router.RouteAgentMessage | Node/exercise7-HandOffToHuman/handoff/router.js:27-38 | (`AgentRouted`) nothing sent exactly when the agent is unbound; otherwise its text goes verbatim to the bound record's user; the registry is only read |
| NodeRouter.Router.RouteUserMessage | Node/exercise7-HandOffToHuman/handoff/router.js:40-59 | (`UserRouted`) find-or-create: an unknown user gets a new bot-connected record stamped now and continues; a known user changes nothing; bot-connected continues with nothing sent; waiting does not continue and sends one self-message with pending minus one (pending is at least one there); connected does not continue and forwards the text verbatim to the agent; pending and the invariant are kept |
| NodeRouter.Router.Middleware | Node/exercise7-HandOffToHuman/handoff/router.js:11-25 | non-messages continue and change nothing; an agent's message never continues, changes nothing and is routed as `AgentRouted`; any other message is routed as `UserRouted`; continuing and sending exclude each other and at most one message is sent |
| NodeCommand.SendAgentHelp | Node/exercise7-HandOffToHuman/handoff/command.js:81-85 | the help text, on the agent's own conversation |
| NodeCommand.Command.constructor | Node/exercise7-HandOffToHuman/handoff/command.js:5-7 | the command middleware shares the router's registry |
| NodeCommand.Command.AgentCommand | Node/exercise7-HandOffToHuman/handoff/command.js:20-60 | (`AgentCommanded`) continues exactly when the text starts with neither "agent help" nor "resume" and the agent is bound, then nothing sent and nothing changed; an "agent help" prefix gets help only, bound or not; an unbound agent connects (agent notified, then the user; or "No users waiting in queue.", registry unchanged up to order) or else gets help; a bound agent's "resume" hands exactly its record back to the bot, keeps pending, and reports it to the agent before telling the user |
| NodeCommand.Command.Connect | Node/exercise7-HandOffToHuman/handoff/command.js:29-41 | with nobody waiting, the refusal and the same records; otherwise one waiting record claimed for this agent, pending minus one, the agent then that record's user notified |
| NodeCommand.Command.Resume | Node/exercise7-HandOffToHuman/handoff/command.js:46-55 | the bound record returns to the bot without agent, pending is unchanged and reported to the agent, then the user is told |
| NodeCommand.Command.Middleware | Node/exercise7-HandOffToHuman/handoff/command.js:9-18 | only agents' messages are interpreted, exactly as `AgentCommanded` says; everything else continues with no change and nothing sent |
| NodeCommand.Command.QueueMe | Node/exercise7-HandOffToHuman/handoff/command.js:62-73 | find-or-create; true exactly when the record was bot-connected and is now waiting (pending +1); false changes nothing |
| NodeCommand.HandleMessage | Node/exercise8-BackChannel/app.js:63-64 | command middleware, then the router, then the dialogs: a non-message reaches the dialogs with nothing sent and nothing changed; a user's message is routed as `UserRouted`; an agent's message never reaches the dialogs, and is routed as `AgentRouted` when the command middleware lets it through and handled as `AgentCommanded` otherwise |
| TriggerScorables.PrepareAsync | CSharp/exercise7-HandOffToHuman/Dialogs/SearchScorable.cs:39-51 | a state exactly when the message text is not blank and, trimmed, starts with the trigger up to case; the state is the untrimmed text after the trigger's length, a cut always in range |
| TriggerScorables.PrepareOfPadded | CSharp/exercise7-HandOffToHuman/Dialogs/ShowArticleDetailsScorable.cs:45-57 | for any trigger (the article scorable is the same code with "show me the article "), three leading spaces keep the state and the score (`HasScore` holds) and cut the text |trigger| characters in, three too early |
| TriggerScorables.NoTriggerNoScore | CSharp/exercise7-HandOffToHuman/Dialogs/SearchScorable.cs:26-29 | without the trigger there is no state and no score |
| TriggerScorables.LeadingWhiteSpaceShiftsCut | CSharp/exercise7-HandOffToHuman/Dialogs/SearchScorable.cs:44-46 | "   search about x" yields "ut x" |
| TriggerScorables.LeadingWhiteSpaceShiftsArticleCut | CSharp/exercise7-HandOffToHuman/Dialogs/ShowArticleDetailsScorable.cs:50-52 | "   show me the article x" yields "le x" |
| TriggerScorables.PrepareTrimmed | CSharp/exercise7-HandOffToHuman/Dialogs/SearchScorable.cs:44-46 | the corrected extraction: the trimmed text after the trigger |
| TriggerScorables.TrimmedIgnoresLeadingWhiteSpace | CSharp/exercise7-HandOffToHuman/Dialogs/ShowArticleDetailsScorable.cs:50-52 | with the corrected extraction, leading white space makes no difference |
| CategoryExplorer.FormatLabels | CSharp/exercise7-HandOffToHuman/Dialogs/CategoryExplorerDialog.cs:32-36 | one "{value} ({count})" label per category, in order |
| CategoryExplorer.StartAsync | CSharp/exercise7-HandOffToHuman/Dialogs/CategoryExplorerDialog.cs:25-48 | a given category is searched directly; otherwise the labels are offered, and no prompt at all for an empty facet list |
| CategoryExplorer.Strip | CSharp/exercise7-HandOffToHuman/Dialogs/CategoryExplorerDialog.cs:53 | the left-to-right deletion of white-space-then-parenthesised groups; never longer than its input |
| CategoryExplorer.StripWithoutGroups | CSharp/exercise7-HandOffToHuman/Dialogs/CategoryExplorerDialog.cs:53 | a text where the pattern matches nowhere is unchanged |
| CategoryExplorer.StripKeepsPrefix | CSharp/exercise7-HandOffToHuman/Dialogs/CategoryExplorerDialog.cs:53 | a prefix in which no match can start passes through the deletion unchanged, and the deletion goes on after it |
| CategoryExplorer.StripLabel | CSharp/exercise7-HandOffToHuman/Dialogs/CategoryExplorerDialog.cs:35-53 | stripping a label gives the category value back when the value has no white space followed by "(" |
| Tickets.Wrap32 | CSharp/exercise3-LuisDialog/Controllers/TicketsController.cs:22 | the unchecked int increment: the int32 value congruent to its argument modulo 2^32 |
| Tickets.WrapInjective | CSharp/exercise3-LuisDialog/Controllers/TicketsController.cs:22 | fewer than 2^32 consecutive counter values are distinct ids |
| Tickets.IssuedBeforeWrap | CSharp/exercise3-LuisDialog/Controllers/TicketsController.cs:10-11 | before the wrap, the ids issued are exactly 1 .. n |
| Tickets.DuplicateOnlyWhenExhausted | CSharp/exercise3-LuisDialog/Controllers/TicketsController.cs:22-23 | the next id collides with a stored key only after 2^32 posts |
| Tickets.ExhaustedMeansDuplicate | CSharp/exercise6-MoodDetetion/Controllers/TicketsController.cs:22-23 | after 2^32 posts every id collides |
| Tickets.PostStep | CSharp/exercise3-LuisDialog/Controllers/TicketsController.cs:22-23 | one post after n: the id handed out is already stored exactly when n >= 2^32; the counter advances to the next wrapped value; a free id joins the stored keys, a taken one changes nothing |
| Tickets.TicketsController.constructor | CSharp/exercise6-MoodDetetion/Controllers/TicketsController.cs:10-11 | the counter starts at 1 with no tickets |
| Tickets.TicketsController.Post | CSharp/exercise3-LuisDialog/Controllers/TicketsController.cs:14-27 | a null ticket throws before the lock and changes nothing; otherwise returns the old counter as decimal text and stores the ticket under it, other entries unchanged; the counter moves by one, wrapping; the add fails exactly when the key is already there, after 2^32 posts (the controller in exercise6-MoodDetetion is the same allocator) |
| Tickets.ResponseBeforeWrap | CSharp/exercise3-LuisDialog/Controllers/TicketsController.cs:26 | before the wrap, the response body reads back as the post's number |
| Tickets.SequentialIds | CSharp/exercise6-MoodDetetion/Controllers/TicketsController.cs:10-23 | until the wrap, the counter is posts + 1 and the keys are exactly 1 .. posts |
| TicketsApi.TicketsApi.constructor | Node/exercise4-KnowledgeBase/ticketsApi.js:3-4 | no tickets, nothing thrown, and the first id will be 1 |
| TicketsApi.TicketsApi.Handle | Node/exercise4-KnowledgeBase/ticketsApi.js:6-14 | the counter grows by one on every request; a missing body throws after that increment, leaving the array unchanged; otherwise the body is pushed last with the old counter as its id and the response is the id in decimal, reading back as it; ids stay increasing, and ticket i has id i + 1 while nothing has thrown |
| TicketsApi.IdsUnique | Node/exercise4-KnowledgeBase/ticketsApi.js:8-11 | no two stored tickets share an id, whatever requests threw |
| Text.TrimStart | CSharp/exercise7-HandOffToHuman/Dialogs/SearchScorable.cs:44 | drops exactly the leading white space: the result is a suffix not starting with white space |
| Text.TrimEnd | CSharp/exercise7-HandOffToHuman/Dialogs/SearchScorable.cs:44 | drops exactly the trailing white space |
| Text.Trim | CSharp/exercise7-HandOffToHuman/Dialogs/SearchScorable.cs:44-46 | trimming never lengthens a text, so the cut after the trigger is always in range |
| Text.TrimStartAfterBlank | CSharp/exercise7-HandOffToHuman/Dialogs/SearchScorable.cs:44 | leading white space makes no difference to trimming the start |
| Text.IntToString | CSharp/exercise7-HandOffToHuman/Dialogs/CategoryExplorerDialog.cs:35 | `int.ToString()` inside the label: digits only, except a leading minus sign, which only a negative number gets; the digits read back as the number's absolute value |
| Text.BlankIffTrimEmpty | CSharp/exercise7-HandOffToHuman/Dialogs/SearchScorable.cs:42 | a text is blank exactly when trimming its start leaves nothing |
| Text.IsWhiteSpace | CSharp/exercise7-HandOffToHuman/Dialogs/SearchScorable.cs:42-44 | .NET's white-space set: space, tab, line feed and carriage return are in it; digits, ASCII letters and parentheses are not |
| Text.Lower | CSharp/exercise8-BackChannel/HandOff/CommandScorable.cs:46 | the folded character is never an upper-case ASCII letter, and is a lower-case letter exactly when the input is an ASCII letter |
| Text.EqualsIgnoreCase | CSharp/exercise8-BackChannel/HandOff/CommandScorable.cs:46-62 | equal texts compare equal, and texts that compare equal have the same length |
| Text.StartsWithIgnoreCase | Node/exercise7-HandOffToHuman/handoff/command.js:24-46 | a literal prefix matches, and a match is never longer than the text |
| Text.CountAtRoundTrip | Node/exercise7-HandOffToHuman/handoff/command.js:51 | a number written in decimal between a fixed head and tail is read back from between them |
| Notices.Disconnected | CSharp/exercise8-BackChannel/HandOff/CommandScorable.cs:122 | the notice carries the pending count, readable back from between "Disconnected. There are " and " users waiting." (the same text as command.js:51) |
| Notices.Welcome | assets/exercise7-HandOffToHuman/AgentLoginScorable.cs:44 | the welcome carries the pending count, readable back from between its fixed head and tail |
| Notices.PleaseWaitBehind | Node/exercise7-HandOffToHuman/handoff/router.js:52 | the waiting notice carries the given count, readable back from between its fixed head and " users waiting." |
| CategoryExplorer.Label | CSharp/exercise7-HandOffToHuman/Dialogs/CategoryExplorerDialog.cs:35 | the label starts with the category value, and for a non-negative count the count reads back from between "{value} (" and the closing ")" |
| Text.NatToString | Node/exercise4-KnowledgeBase/ticketsApi.js:13 | decimal digits without a leading zero |
| Text.ParseNatToString | CSharp/exercise3-LuisDialog/Controllers/TicketsController.cs:26 | a rendered number reads back as itself |

## Left out

- Network delivery. `ConnectorClient` sends, `bot.send` and `session.send` become returned `Send` values in call order. The batching of `session.send` against `bot.send` is not modelled.
- Scorable selection. The framework's choice among scorables, `GetScore` (always 1.0) and `DoneAsync` are outside the model. In particular it is not modelled which of the C# command and router scorables wins when both score.
- Dialogs, LUIS, prompts, cards, sentiment and the search, text-analytics and image services are not modelled. So are the search calls in the trigger scorables' and the category dialog's `PostAsync`/`AfterMenuSelection`, and the Node `AgentMenu` login dialog in `Node/exercise8-BackChannel/app.js`. The facet list the category dialog fetches is an argument.
- Concurrency. The `lock` in the ticket controllers is not modelled, and neither is interleaving between messages; every operation runs to completion alone.
- Clocks. `DateTime.Now` and `Date.getTime()` are a caller-supplied `now`.
- Text comparison. Culture-aware case-insensitive comparison is modelled as ASCII case folding. Every trigger is ASCII, but non-ASCII letters that fold onto ASCII are not covered, and neither are characters the invariant culture ignores when comparing: .NET treats "connect" followed by a soft hyphen (U+00AD) as "connect", the model does not.
- Registry preconditions. The invariant is a `requires` of the Node router and command methods. The C# scorables state what happens to it instead. A registry that breaks it crashes the source on a missing agent.
- CommandScorable.PostAsync: requires the agent to be bound for `Resume`, because the C# `Resume` path dereferences `FindByAgentId` without a null check. `PrepareAsync` guarantees it (`ResumeOnlyWhenBound`); a concurrent change between the two is not modelled.
- NodeProvider.Provider.Sort: the order the boolean comparator leaves is any permutation. V8's sort algorithm is not modelled, so the model does not say which waiting record is claimed.
- TicketsApi.TicketsApi.Handle: JavaScript numbers are unbounded naturals here. Precision loss above 2^53 is not modelled. A body is either absent (`undefined`, which throws on the `id` assignment) or an object; primitive bodies, whose `id` assignment is silently dropped, are not modelled.
- HandOffProvider.Provider.PeekOldestWaiting: a record carries one timestamp, set when it is created, not when it is queued. So the corrected peek orders users by when they first wrote, not by how long they have been waiting; a user who was handed back and queued again keeps the old stamp.
- Tickets.TicketsController.Post: the dictionary's own capacity limit is not modelled. The id space is exhausted after 2^32 posts, well past any real memory.
- The ticket, facet and search result DTOs are only as far as used. `Category.cs` is not part of this model; a category is a value string and an integer count.

## Findings

| source | as written | input that shows it | evidently intended | confidence | as-written member | corrected member |
|---|---|---|---|---|---|---|
| CSharp/exercise8-BackChannel/HandOff/Provider.cs:65-67 | `PeekConversation` orders waiting records by creation timestamp descending, so `connect` claims the waiting user whose record is newest | two waiting records created at times 1 and 2: the one created at 2 is claimed | the help text at CommandScorable.cs:23 promises "the user who has been waiting the longest": claim the earliest-created waiting record, the closest that promise the one timestamp allows | high, not executed | HandOffTypes.NewestWaitingServesLatecomer | HandOffProvider.Provider.PeekOldestWaiting |
| CSharp/exercise7-HandOffToHuman/Dialogs/SearchScorable.cs:44-46 | the trigger is tested on the trimmed text but its length is cut from the untrimmed text | "   search about x" yields the search text "ut x" | cut the trigger from the trimmed text, so leading white space does not matter | high, not executed | TriggerScorables.LeadingWhiteSpaceShiftsCut | TriggerScorables.TrimmedIgnoresLeadingWhiteSpace |
| CSharp/exercise7-HandOffToHuman/Dialogs/ShowArticleDetailsScorable.cs:50-52 | the same untrimmed cut with "show me the article " | "   show me the article x" yields the article title "le x" | cut the trigger from the trimmed text | high, not executed | TriggerScorables.LeadingWhiteSpaceShiftsArticleCut | TriggerScorables.PrepareTrimmed |

The command scorable's model keeps the as-written peek, because that is what the
C# code does. `OldestWaitingFifo` proves the first-come-first-served property of the
corrected peek.
