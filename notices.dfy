/** The fixed texts the hand-off subsystem sends to agents and users, shared by both ports. */
module Notices {
  import opened Wrappers
  import opened Text

  const AgentHelp: string :=
    "### Human Agent Help, please type:\n" +
    " - *connect* to connect to the user who has been waiting the longest.\n" +
    " - *agent help* at any time to see these options again.\n"
  const ConnectedToUser: string := "You are now connected to the next user that requested human help.\nType *resume* to connect the user back to the bot."
  const NoUsersWaiting: string := "No users waiting in queue."
  const TalkingToHuman: string := "You are now talking to a human agent."
  const TalkingToBot: string := "You are now talking to the bot again."
  /** The C# router's notice to a waiting user. */
  const PleaseWait: string := "Connecting you to the next available human agent... please wait"

  const UsersWaiting: string := " users waiting."
  const DisconnectedHead: string := "Disconnected. There are "
  const WelcomeHead: string := "Welcome back human agent, there are "
  const WelcomeTail: string := " users waiting in the queue.\n\nType _agent help_ for more details."
  const PleaseWaitHead: string := PleaseWait + ", there are "

  /** The reply to an agent's "resume": the pending count reads back from it. */
  function Disconnected(pending: nat): (r: string)
    ensures CountAt(r, DisconnectedHead, UsersWaiting) == Some(pending)
  {
    CountAtRoundTrip(DisconnectedHead, pending, UsersWaiting);
    DisconnectedHead + NatToString(pending) + UsersWaiting
  }

  /** The welcome after an agent's login: the pending count reads back from it. */
  function Welcome(pending: nat): (r: string)
    ensures CountAt(r, WelcomeHead, WelcomeTail) == Some(pending)
  {
    CountAtRoundTrip(WelcomeHead, pending, WelcomeTail);
    WelcomeHead + NatToString(pending) + WelcomeTail
  }

  /** The Node router's notice to a waiting user: the number of other users waiting reads back from it. */
  function PleaseWaitBehind(others: nat): (r: string)
    ensures CountAt(r, PleaseWaitHead, UsersWaiting) == Some(others)
  {
    CountAtRoundTrip(PleaseWaitHead, others, UsersWaiting);
    PleaseWaitHead + NatToString(others) + UsersWaiting
  }
}
