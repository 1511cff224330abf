/** The AntiRaid cog (`Cogs/anitraid.py`): counts joins per guild in a sliding
    window and, when a join makes the count exceed the limit, raises the guild's
    verification level and kicks the member who just joined. */
module AntiRaidCog {
  import opened Config
  import opened SlidingWindow
  import opened Actions

  const DefaultWindow := 10
  const DefaultMaxJoins := 4

  datatype RaidLimits = RaidLimits(window: int, maxJoins: int)

  /** `cfg = config.get("raid", {"window": 10, "max_joins": 4})`, then
      `cfg.get("window", 10)` and `cfg.get("max_joins", 4)`: each field falls back
      to its default on its own. */
  function Limits(config: Document): (r: RaidLimits)
    requires RaidShape(config)
    ensures "raid" !in config ==> r == RaidLimits(10, 4)
    ensures "raid" in config ==>
      var fields := config["raid"].entries;
      && r.window == (if "window" in fields then Number(fields["window"]) else 10)
      && r.maxJoins == (if "max_joins" in fields then Number(fields["max_joins"]) else 4)
  {
    var cfg := Get(config, "raid", Dict(map["window" := Num(DefaultWindow), "max_joins" := Num(DefaultMaxJoins)]));
    RaidLimits(Number(Get(cfg.entries, "window", Num(DefaultWindow))), Number(Get(cfg.entries, "max_joins", Num(DefaultMaxJoins))))
  }

  /** The member whose join is being handled. */
  datatype Member = Member(id: nat, guild: nat)

  /** What the raid branch does: the alert to the log channel (outside any `try`),
      then the verification raise and the kick, each in its own `try` that
      swallows `Forbidden`, each followed by a log notice when it succeeded. */
  function Response(member: nat, joins: nat, window: int, logging: bool, platform: Platform): (t: Trace)
    ensures Attempted(t, RaidAlert(joins, window)) <==> logging
  {
    Then(Alert(joins, window, logging, platform), Then(Guarded(RaiseVerification, VerificationNotice, logging, platform),
                     Guarded(Kick(member), KickNotice(member), logging, platform)))
  }

  /** The alert call, which runs first and outside any `try`, when logging is on. */
  function Alert(joins: nat, window: int, logging: bool, platform: Platform): (t: Trace)
    ensures !logging ==> t == Quiet
    ensures logging ==> Attempted(t, RaidAlert(joins, window)) && (t.halted <==> platform(RaidAlert(joins, window)) != Ok)
  {
    if logging then Unguarded(RaidAlert(joins, window), platform) else Quiet
  }

  /** The raid branch attempts the verification raise exactly when the alert
      went through (or logging is off). */
  lemma VerificationAttempted(member: nat, joins: nat, window: int, logging: bool, platform: Platform)
    ensures Attempted(Response(member, joins, window, logging, platform), RaiseVerification)
        <==> !logging || platform(RaidAlert(joins, window)) == Ok
  {
    var alert := Alert(joins, window, logging, platform);
    var verify := Guarded(RaiseVerification, VerificationNotice, logging, platform);
    var rest := Then(verify, Guarded(Kick(member), KickNotice(member), logging, platform));
    assert Response(member, joins, window, logging, platform) == Then(alert, rest);
    assert !Attempted(alert, RaiseVerification);
    assert Attempted(rest, RaiseVerification);
  }

  /** The raid branch kicks the joiner exactly when the alert went through and the
      verification block did not end the handler; in particular a `Forbidden`
      verification raise does not prevent the kick. */
  lemma KickAttempted(member: nat, joins: nat, window: int, logging: bool, platform: Platform)
    ensures var alertPassed := !logging || platform(RaidAlert(joins, window)) == Ok;
      var verify := Guarded(RaiseVerification, VerificationNotice, logging, platform);
      && (Attempted(Response(member, joins, window, logging, platform), Kick(member)) <==> alertPassed && !verify.halted)
      && (alertPassed && platform(RaiseVerification) == Forbidden ==>
            Attempted(Response(member, joins, window, logging, platform), Kick(member)))
  {
    var alert := Alert(joins, window, logging, platform);
    var verify := Guarded(RaiseVerification, VerificationNotice, logging, platform);
    var kick := Guarded(Kick(member), KickNotice(member), logging, platform);
    assert Response(member, joins, window, logging, platform) == Then(alert, Then(verify, kick));
    assert !Attempted(alert, Kick(member)) && !Attempted(verify, Kick(member));
  }

  /** The raid branch makes no call other than the alert, the verification raise,
      the kick of the joiner and their two notices. */
  lemma ResponseCallsOnly(member: nat, joins: nat, window: int, logging: bool, platform: Platform)
    ensures forall a :: Attempted(Response(member, joins, window, logging, platform), a) ==>
      a in {RaidAlert(joins, window), RaiseVerification, VerificationNotice, Kick(member), KickNotice(member)}
  {
  }

  /** As written, the raid alert is sent outside the `try` blocks: when the log
      channel refuses it, the handler ends before either countermeasure. */
  lemma RefusedAlertStopsCountermeasures(member: nat, joins: nat, window: int, platform: Platform)
    requires platform(RaidAlert(joins, window)) == Forbidden
    ensures var t := Response(member, joins, window, true, platform);
      t == Trace([Attempt(RaidAlert(joins, window), Forbidden)], true)
      && !Attempted(t, RaiseVerification) && !Attempted(t, Kick(member))
  {
  }

  /** The join history of another guild is a different dict entry. */
  lemma OtherGuildUntouched(history: map<string, seq<int>>, guild: nat, h: seq<int>, other: nat)
    requires other != guild
    ensures var after := history[GuildKey(guild) := h];
      && (GuildKey(other) in after <==> GuildKey(other) in history)
      && (GuildKey(other) in history ==> after[GuildKey(other)] == history[GuildKey(other)])
  {
    GuildKeysDistinct(other, guild);
  }

  /** Joins at seconds 0, 1, 1, 2, 2, 3 and 4 with the default limits: the raid
      branch fires at the fifth join and again at the sixth and seventh. */
  lemma DefaultBurstFiresFromFifthJoin()
    ensures var joins := [0, 1, 1, 2, 2, 3, 4];
      forall k :: 1 <= k <= |joins| ==> (|Replay(joins[..k], DefaultWindow)| > DefaultMaxJoins <==> k >= 5)
  {
    var joins := [0, 1, 1, 2, 2, 3, 4];
    BurstTriggersFromThreshold(joins, DefaultWindow, DefaultMaxJoins);
  }

  /** Four joins within ten seconds and a fifth at second 11: the first join has
      slid out of the window, the count is 4 and the raid branch does not fire. */
  lemma WindowSlides()
    ensures |Replay([0, 1, 2, 3, 11], DefaultWindow)| == 4
  {
    var first, fifth := [0, 1, 2, 3], 11;
    BurstCountedInFull(first, DefaultWindow);
    assert [0, 1, 2, 3, 11][..4] == first;
    RecentDropsStalePrefix(first, 1, fifth, DefaultWindow);
  }

  class AntiRaid {
    const bot: Bot
    /** `join_history`, keyed by `str(guild.id)`. */
    const joinHistory: Tracker<string>

    constructor (bot: Bot)
      ensures this.bot == bot && fresh(joinHistory) && joinHistory.history == map[]
    {
      this.bot := bot;
      joinHistory := new Tracker<string>();
    }

    /** `on_member_join`. When the feature flag is off it returns before touching
        the history. Otherwise the guild's list is rebuilt from its in-window
        timestamps plus `now`, no other guild's list changes, and the raid branch
        runs exactly when the new count exceeds `max_joins`. The platform's
        answers and whether `get_channel` finds the log channel are inputs. */
    method OnMemberJoin(member: Member, now: int, channelFound: bool, platform: Platform) returns (t: Trace)
      requires FeatureEnabled(bot.config, "antiraid") ==> RaidShape(bot.config)
      modifies joinHistory
      ensures !FeatureEnabled(bot.config, "antiraid") ==> t == Quiet && joinHistory.history == old(joinHistory.history)
      ensures FeatureEnabled(bot.config, "antiraid") ==>
        var lim := Limits(bot.config);
        var key := GuildKey(member.guild);
        var h := AfterRecord(old(joinHistory.Timestamps(key)), now, lim.window);
        && joinHistory.history == old(joinHistory.history)[key := h]
        && t == (if |h| > lim.maxJoins then Response(member.id, |h|, lim.window, LogsTo(bot.config, channelFound), platform) else Quiet)
      ensures forall g :: g != member.guild ==> joinHistory.Timestamps(GuildKey(g)) == old(joinHistory.Timestamps(GuildKey(g)))
    {
      if !FeatureEnabled(bot.config, "antiraid") {
        return Quiet;
      }
      var lim := Limits(bot.config);
      var count := joinHistory.Record(GuildKey(member.guild), now, lim.window);
      forall g | g != member.guild
        ensures joinHistory.Timestamps(GuildKey(g)) == old(joinHistory.Timestamps(GuildKey(g)))
      {
        GuildKeysDistinct(g, member.guild);
      }
      if count > lim.maxJoins {
        t := Response(member.id, count, lim.window, LogsTo(bot.config, channelFound), platform);
      } else {
        t := Quiet;
      }
    }

    /** `toggle_antiraid`: `on`/`off` set the global `antiraid` flag and save;
        any other argument changes nothing. */
    method ToggleAntiRaid(mode: Option<string>) returns (applied: bool)
      modifies bot
      ensures applied <==> mode == Some("on") || mode == Some("off")
      ensures applied ==> bot.config == old(bot.config)["antiraid" := Bool(mode == Some("on"))] && bot.saves == old(bot.saves) + 1
      ensures !applied ==> bot.config == old(bot.config) && bot.saves == old(bot.saves)
    {
      applied := bot.Toggle("antiraid", mode);
    }
  }
}
