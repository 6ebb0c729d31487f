/** Actions, errors and results that the components exchange. */
module Types {
  import opened MailStore

  /** A fetched message, ready for evaluation. */
  datatype MessageContext = MessageContext(uid: Uid, content: Content, flags: set<string>)

  /** Resolved actions that the executor performs without further interpretation. */
  datatype SieveAction =
    | Keep
    | Discard
    | FileInto(mailbox: string, copy: bool, create: bool)
    | Redirect(addresses: seq<string>)
    | Reject(reason: string)
    | AddFlag(flags: set<string>)
    | RemoveFlag(flags: set<string>)
    | SetFlag(flags: set<string>)
    | Execute(name: string, args: seq<string>)

  datatype CoreError =
    | Imap(reason: string)
    | Smtp(reason: string)
    | Sieve(reason: string)
    | StateFailure(reason: string)
    | UidValidityChanged(cached: nat, server: nat)
    | MissingCapability(name: string)

  datatype ProcessingStatus = Processed | SieveError(reason: string) | ActionError(error: CoreError)

  datatype ProcessingResult = ProcessingResult(uid: Uid, actions: seq<SieveAction>, status: ProcessingStatus)

  datatype Capabilities = Capabilities(idle: bool, uidplus: bool, supportsMove: bool, condstore: bool)

  /** Mail handed to the SMTP relay. */
  datatype OutgoingMail =
    | Redirected(envelopeFrom: string, envelopeTo: seq<string>, raw: string)
    | Rejection(sender: string, reason: string)

  predicate Discards(actions: seq<SieveAction>) {
    exists i :: 0 <= i < |actions| && (actions[i].Discard? || actions[i].Reject?)
  }
}
