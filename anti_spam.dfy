/** The AntiSpam cog (`Cogs/antispam.py`): counts each author's messages in a
    sliding window and, when a message makes the count exceed the limit, deletes
    that message and posts a warning that removes itself after three seconds. */
module AntiSpamCog {
  import opened Config
  import opened SlidingWindow
  import opened Actions

  const DefaultWindow := 7
  const DefaultMaxMessages := 5
  /** `warn_msg.delete(delay=3)` */
  const WarningSeconds := 3

  datatype SpamLimits = SpamLimits(window: int, maxMessages: int)

  /** `cfg = config.get("spam", {"window": 7, "max_messages": 5})`, then
      `cfg.get("window", 7)` and `cfg.get("max_messages", 5)`: each field falls
      back to its default on its own. */
  function Limits(config: Document): (r: SpamLimits)
    requires SpamShape(config)
    ensures "spam" !in config ==> r == SpamLimits(7, 5)
    ensures "spam" in config ==>
      var fields := config["spam"].entries;
      && r.window == (if "window" in fields then Number(fields["window"]) else 7)
      && r.maxMessages == (if "max_messages" in fields then Number(fields["max_messages"]) else 5)
  {
    var cfg := Get(config, "spam", Dict(map["window" := Num(DefaultWindow), "max_messages" := Num(DefaultMaxMessages)]));
    SpamLimits(Number(Get(cfg.entries, "window", Num(DefaultWindow))), Number(Get(cfg.entries, "max_messages", Num(DefaultMaxMessages))))
  }

  /** The parts of a message the listener looks at. */
  datatype Message = Message(author: nat, authorIsBot: bool, guild: Option<nat>)

  /** Messages from bots and messages outside a guild are ignored. */
  function Watched(m: Message): (w: bool)
    ensures m.authorIsBot ==> !w
    ensures m.guild.None? ==> !w
  {
    !m.authorIsBot && m.guild.Some?
  }

  /** What the spam branch does: delete the message and post the self-removing
      warning, each in its own `try` that swallows `Forbidden`, then send the log
      alert when a log channel is set. */
  function Response(author: nat, maxMessages: int, window: int, logging: bool, platform: Platform): (t: Trace)
    ensures Attempted(t, SpamAlert(author, maxMessages, window)) <==>
      logging && platform(DeleteMessage) != Failed && platform(TransientWarning(author, WarningSeconds)) != Failed
  {
    Then(Caught(DeleteMessage, platform),
         Then(Caught(TransientWarning(author, WarningSeconds), platform),
              if logging then Unguarded(SpamAlert(author, maxMessages, window), platform) else Quiet))
  }

  /** The spam branch always tries to delete the message, and posts the warning
      unless the delete failed with an error other than `Forbidden`: a refused
      delete does not stop the warning. */
  lemma DeleteThenWarn(author: nat, maxMessages: int, window: int, logging: bool, platform: Platform)
    ensures var t := Response(author, maxMessages, window, logging, platform);
      && Attempted(t, DeleteMessage)
      && (Attempted(t, TransientWarning(author, WarningSeconds)) <==> platform(DeleteMessage) != Failed)
  {
    var rest := Then(Caught(TransientWarning(author, WarningSeconds), platform),
                     if logging then Unguarded(SpamAlert(author, maxMessages, window), platform) else Quiet);
    assert Response(author, maxMessages, window, logging, platform) == Then(Caught(DeleteMessage, platform), rest);
    assert !Attempted(Caught(DeleteMessage, platform), TransientWarning(author, WarningSeconds));
  }

  /** The spam branch makes no call other than the delete, the warning and the
      alert: it never kicks the author or changes the guild. */
  lemma ResponseCallsOnly(author: nat, maxMessages: int, window: int, logging: bool, platform: Platform)
    ensures forall a :: Attempted(Response(author, maxMessages, window, logging, platform), a) ==>
      a in {DeleteMessage, TransientWarning(author, WarningSeconds), SpamAlert(author, maxMessages, window)}
    ensures forall a :: Attempted(Response(author, maxMessages, window, logging, platform), a) ==>
      !a.Kick? && a != RaiseVerification
  {
  }

  /** Seven messages within seven seconds with the default limits: the spam
      branch fires at the sixth message and again at the seventh. */
  lemma DefaultFloodFiresFromSixthMessage()
    ensures var sent := [0, 1, 2, 3, 4, 5, 6];
      forall k :: 1 <= k <= |sent| ==> (|Replay(sent[..k], DefaultWindow)| > DefaultMaxMessages <==> k >= 6)
  {
    BurstTriggersFromThreshold([0, 1, 2, 3, 4, 5, 6], DefaultWindow, DefaultMaxMessages);
  }

  class AntiSpam {
    const bot: Bot
    /** `msg_history`, keyed by the author's id alone: one list per user, shared
        by every guild the user writes in. */
    const msgHistory: Tracker<nat>

    constructor (bot: Bot)
      ensures this.bot == bot && fresh(msgHistory) && msgHistory.history == map[]
    {
      this.bot := bot;
      msgHistory := new Tracker<nat>();
    }

    /** `on_message`. Ignored messages and a switched-off feature leave the
        history alone. Otherwise the author's list is rebuilt from its in-window
        timestamps plus `now`, whatever guild the message is in, no other
        author's list changes, and the spam branch runs exactly when the new
        count exceeds `max_messages`. */
    method OnMessage(m: Message, now: int, channelFound: bool, platform: Platform) returns (t: Trace)
      requires Watched(m) && FeatureEnabled(bot.config, "antispam") ==> SpamShape(bot.config)
      modifies msgHistory
      ensures !Watched(m) || !FeatureEnabled(bot.config, "antispam") ==>
        t == Quiet && msgHistory.history == old(msgHistory.history)
      ensures Watched(m) && FeatureEnabled(bot.config, "antispam") ==>
        var lim := Limits(bot.config);
        var h := AfterRecord(old(msgHistory.Timestamps(m.author)), now, lim.window);
        && msgHistory.history == old(msgHistory.history)[m.author := h]
        && t == (if |h| > lim.maxMessages then Response(m.author, lim.maxMessages, lim.window, LogsTo(bot.config, channelFound), platform) else Quiet)
    {
      if m.authorIsBot || m.guild.None? {
        return Quiet;
      }
      if !FeatureEnabled(bot.config, "antispam") {
        return Quiet;
      }
      var lim := Limits(bot.config);
      var count := msgHistory.Record(m.author, now, lim.window);
      if count > lim.maxMessages {
        t := Response(m.author, lim.maxMessages, lim.window, LogsTo(bot.config, channelFound), platform);
      } else {
        t := Quiet;
      }
    }

    /** `toggle_antispam`: `on`/`off` set the global `antispam` flag and save;
        any other argument changes nothing. */
    method ToggleAntiSpam(mode: Option<string>) returns (applied: bool)
      modifies bot
      ensures applied <==> mode == Some("on") || mode == Some("off")
      ensures applied ==> bot.config == old(bot.config)["antispam" := Bool(mode == Some("on"))] && bot.saves == old(bot.saves) + 1
      ensures !applied ==> bot.config == old(bot.config) && bot.saves == old(bot.saves)
    {
      applied := bot.Toggle("antispam", mode);
    }
  }
}
