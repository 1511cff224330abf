/** The calls the moderation cogs make on the chat platform and how the cogs
    react when a call fails.

    The platform itself is not modelled: a handler receives a `Platform`, the
    answer each call would get, and produces the `Trace` of calls it makes in
    order. A `Forbidden` answer raises `discord.Forbidden`, which the cogs catch
    around some calls; any other failure (`Failed`: not found, server error) is a
    different exception that no cog catches, so it ends the handler. */
module Actions {

  datatype Outcome = Ok | Forbidden | Failed

  datatype Action =
    /** AntiRaid's "too many joins" message to the log channel. */
    | RaidAlert(joins: nat, window: int)
    /** `guild.edit(verification_level=high)` */
    | RaiseVerification
    /** The log message announcing the raised verification level. */
    | VerificationNotice
    /** `member.kick(reason=...)` */
    | Kick(member: nat)
    /** The log message announcing the kick. */
    | KickNotice(member: nat)
    /** `message.delete()` on the offending message. */
    | DeleteMessage
    /** The "please slow down" reply, removed again after `seconds`. */
    | TransientWarning(author: nat, seconds: nat)
    /** AntiSpam's log message. */
    | SpamAlert(author: nat, maxMessages: int, window: int)

  datatype Attempt = Attempt(action: Action, outcome: Outcome)

  /** The answer the platform gives to each call. */
  type Platform = Action -> Outcome

  /** The calls one handler made, and whether an exception ended it early. */
  datatype Trace = Trace(attempts: seq<Attempt>, halted: bool)

  const Quiet := Trace([], false)

  /** The handler made call `a`, whatever its answer. */
  predicate Attempted(t: Trace, a: Action) {
    Attempt(a, Ok) in t.attempts || Attempt(a, Forbidden) in t.attempts || Attempt(a, Failed) in t.attempts
  }

  /** A call outside any `try`: every failure ends the handler. */
  function Unguarded(a: Action, platform: Platform): (t: Trace)
    ensures Attempted(t, a)
    ensures t.halted <==> platform(a) != Ok
  {
    Trace([Attempt(a, platform(a))], platform(a) != Ok)
  }

  /** `try: act  except discord.Forbidden: pass` */
  function Caught(act: Action, platform: Platform): (t: Trace)
    ensures Attempted(t, act)
    ensures t.halted <==> platform(act) == Failed
  {
    Trace([Attempt(act, platform(act))], platform(act) == Failed)
  }

  /** `try: act; [if logging: notice]  except discord.Forbidden: pass` —
      the notice is sent only when the act succeeded; a `Forbidden` from either
      is swallowed, any other failure ends the handler. */
  function Guarded(act: Action, notice: Action, logging: bool, platform: Platform): (t: Trace)
    ensures Attempted(t, act)
    ensures Attempted(t, notice) ==> act == notice || (logging && platform(act) == Ok)
    ensures logging && platform(act) == Ok ==> Attempted(t, notice)
    ensures t.halted <==> platform(act) == Failed || (logging && platform(act) == Ok && platform(notice) == Failed)
  {
    if platform(act) == Ok && logging then
      Trace([Attempt(act, Ok), Attempt(notice, platform(notice))], platform(notice) == Failed)
    else
      Trace([Attempt(act, platform(act))], platform(act) == Failed)
  }

  /** Run `first`, then `next` unless `first` ended the handler. */
  function Then(first: Trace, next: Trace): (t: Trace)
    ensures forall a :: Attempted(t, a) <==> Attempted(first, a) || (!first.halted && Attempted(next, a))
    ensures t.halted <==> first.halted || next.halted
  {
    if first.halted then first else Trace(first.attempts + next.attempts, next.halted)
  }
}
