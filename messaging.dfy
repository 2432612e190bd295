/** The outbound messaging provider as an abstract gateway: a send may be delivered or may fail.
    The gateway keeps a log of every message a handler asked it to send. */
module Messaging {

  datatype Outbound = Outbound(to: string, body: string)

  /** Body of the opt-in prompt sent after a registration. */
  const WelcomeText: string :=
    "Welcome to Daily Wellness Messages! Reply YES to confirm your subscription and start receiving daily health tips. Reply STOP at any time to unsubscribe."

  /** Body of the confirmation sent after an inbound YES. */
  const ConfirmationText: string :=
    "Thank you for confirming! You are now subscribed to daily wellness messages. Reply STOP at any time to unsubscribe."

  class Gateway {
    var attempts: seq<Outbound>

    constructor ()
      ensures attempts == []
    {
      attempts := [];
    }

    /** Builds the provider client and calls `messages.create`; `fails` says whether either step throws. */
    method Send(to: string, body: string, fails: bool) returns (delivered: bool)
      modifies this
      ensures delivered == !fails
      ensures attempts == old(attempts) + [Outbound(to, body)]
    {
      attempts := attempts + [Outbound(to, body)];
      delivered := !fails;
    }
  }
}
