/** The commands defined in `main.py`: the per-guild command prefix (`get_prefix`,
    `setprefix`, `resetprefix`), the `clear` command's bookkeeping, and the
    configuration written on first start. */
module MainCommands {
  import opened Config
  import AntiNukeCog

  /** The prefix used when the config has no `default_prefix`. */
  const FallbackPrefix := ">"

  /** `DEFAULT_CONFIG` */
  const DefaultConfig: Document := map[
    "owner_id" := Num(123456789012345678),
    "default_prefix" := Str(">"),
    "guild_prefixes" := Dict(map[]),
    "log_channel_id" := Null,
    "trusted_roles" := List([]),
    "trusted_users" := List([])]

  /** `config.get("default_prefix", ">")`: whatever the config stores there. */
  function DefaultPrefix(config: Document): Value {
    Get(config, "default_prefix", Str(FallbackPrefix))
  }

  /** `config.get("guild_prefixes", {})` */
  function GuildPrefixes(config: Document): map<string, Value>
    requires PrefixShape(config)
  {
    Get(config, "guild_prefixes", Dict(map[])).entries
  }

  /** `get_prefix`: outside a guild the default prefix; in a guild the guild's own
      entry when it has one, else the default prefix. The value is returned as
      stored; the lookup outside a guild reads nothing but `default_prefix`. */
  function GetPrefix(config: Document, guild: Option<nat>): (p: Value)
    requires guild.Some? ==> PrefixShape(config)
    ensures guild.None? ==> p == DefaultPrefix(config)
    ensures guild.Some? && GuildKey(guild.value) in GuildPrefixes(config) ==>
      p == GuildPrefixes(config)[GuildKey(guild.value)]
    ensures guild.Some? && GuildKey(guild.value) !in GuildPrefixes(config) ==> p == DefaultPrefix(config)
    ensures "default_prefix" !in config && (guild.None? || GuildKey(guild.value) !in GuildPrefixes(config)) ==> p == Str(">")
  {
    match guild
    case None => DefaultPrefix(config)
    case Some(g) =>
      var table := GuildPrefixes(config);
      if GuildKey(g) in table then table[GuildKey(g)] else DefaultPrefix(config)
  }

  /** The config after `config.setdefault("guild_prefixes", {})[str(guild)] = prefix`. */
  function WithPrefix(config: Document, guild: nat, prefix: string): (r: Document)
    requires PrefixShape(config)
    ensures r.Keys == config.Keys + {"guild_prefixes"}
    ensures forall k :: k in config && k != "guild_prefixes" ==> r[k] == config[k]
    ensures r["guild_prefixes"].Dict? && r["guild_prefixes"].entries.Keys == GuildPrefixes(config).Keys + {GuildKey(guild)}
  {
    config["guild_prefixes" := Dict(GuildPrefixes(config)[GuildKey(guild) := Str(prefix)])]
  }

  /** The config after `del config["guild_prefixes"][str(guild)]`. */
  function WithoutPrefix(config: Document, guild: nat): (r: Document)
    requires PrefixShape(config)
    ensures r.Keys == config.Keys + {"guild_prefixes"}
    ensures forall k :: k in config && k != "guild_prefixes" ==> r[k] == config[k]
    ensures r["guild_prefixes"].Dict? && r["guild_prefixes"].entries.Keys == GuildPrefixes(config).Keys - {GuildKey(guild)}
  {
    config["guild_prefixes" := Dict(GuildPrefixes(config) - {GuildKey(guild)})]
  }

  /** After `setprefix p` in a guild, that guild's prefix is `p`; every other
      guild, and the prefix outside guilds, stay as they were. */
  lemma SetPrefixEffect(config: Document, guild: nat, prefix: string)
    requires PrefixShape(config)
    ensures PrefixShape(WithPrefix(config, guild, prefix))
    ensures WellFormed(config) ==> WellFormed(WithPrefix(config, guild, prefix))
    ensures GetPrefix(WithPrefix(config, guild, prefix), Some(guild)) == Str(prefix)
    ensures GetPrefix(WithPrefix(config, guild, prefix), None) == GetPrefix(config, None)
    ensures forall other :: other != guild ==>
      GetPrefix(WithPrefix(config, guild, prefix), Some(other)) == GetPrefix(config, Some(other))
  {
    var after := WithPrefix(config, guild, prefix);
    if WellFormed(config) {
      assert PrefixTable(after["guild_prefixes"]);
    }
    forall other | other != guild
      ensures GetPrefix(after, Some(other)) == GetPrefix(config, Some(other))
    {
      GuildKeysDistinct(other, guild);
    }
  }

  /** After `resetprefix` in a guild that had its own prefix, the guild uses the
      default prefix; every other guild, and the prefix outside guilds, stay as
      they were. */
  lemma ResetPrefixEffect(config: Document, guild: nat)
    requires PrefixShape(config)
    ensures PrefixShape(WithoutPrefix(config, guild))
    ensures WellFormed(config) ==> WellFormed(WithoutPrefix(config, guild))
    ensures GetPrefix(WithoutPrefix(config, guild), Some(guild)) == DefaultPrefix(config)
    ensures GetPrefix(WithoutPrefix(config, guild), None) == GetPrefix(config, None)
    ensures forall other :: other != guild ==>
      GetPrefix(WithoutPrefix(config, guild), Some(other)) == GetPrefix(config, Some(other))
  {
    var after := WithoutPrefix(config, guild);
    forall other | other != guild
      ensures GetPrefix(after, Some(other)) == GetPrefix(config, Some(other))
    {
      GuildKeysDistinct(other, guild);
    }
  }

  /** `setprefix`: store the guild's prefix, creating `guild_prefixes` when it is
      missing, and save. */
  method SetPrefix(bot: Bot, guild: nat, prefix: string)
    requires PrefixShape(bot.config)
    modifies bot
    ensures bot.config == WithPrefix(old(bot.config), guild, prefix)
    ensures bot.saves == old(bot.saves) + 1
    ensures PrefixShape(bot.config)
    ensures WellFormed(old(bot.config)) ==> WellFormed(bot.config)
    ensures GetPrefix(bot.config, Some(guild)) == Str(prefix)
  {
    SetPrefixEffect(bot.config, guild, prefix);
    var table := GuildPrefixes(bot.config);
    bot.config := bot.config["guild_prefixes" := Dict(table[GuildKey(guild) := Str(prefix)])];
    bot.Save();
  }

  /** `resetprefix`: when the guild has its own prefix, delete that entry and
      save; otherwise change nothing and save nothing. */
  method ResetPrefix(bot: Bot, guild: nat) returns (reset: bool)
    requires PrefixShape(bot.config)
    modifies bot
    ensures reset <==> GuildKey(guild) in GuildPrefixes(old(bot.config))
    ensures reset ==> bot.config == WithoutPrefix(old(bot.config), guild) && bot.saves == old(bot.saves) + 1
    ensures !reset ==> bot.config == old(bot.config) && bot.saves == old(bot.saves)
    ensures PrefixShape(bot.config)
    ensures WellFormed(old(bot.config)) ==> WellFormed(bot.config)
    ensures GetPrefix(bot.config, Some(guild)) == DefaultPrefix(bot.config)
  {
    var key := GuildKey(guild);
    if key in GuildPrefixes(bot.config) {
      ResetPrefixEffect(bot.config, guild);
      bot.config := bot.config["guild_prefixes" := Dict(bot.config["guild_prefixes"].entries - {key})];
      bot.Save();
      reset := true;
    } else {
      reset := false;
    }
  }

  /** `clear`'s `amount` when none is given. */
  const DefaultClearAmount := 10

  datatype ClearOutcome =
    /** "Enter a valid number.": nothing is purged. */
    | InvalidAmount
    /** `purge(limit=...)` raised (`Forbidden`, `HTTPException`): the command
        ends without a count reply. */
    | PurgeFailed(limit: nat)
    /** `purge(limit=...)` ran and the reply reports `reported` deleted messages. */
    | Purged(limit: nat, reported: int)

  /** `clear [amount]`: an amount below 1 purges nothing; otherwise the purge may
      take `amount + 1` messages (the command message itself included) and, when
      it does not raise, the reply reports one less than the purge deleted.
      `purge` is how many messages the platform's purge removes for a given
      limit, or `None` when it raises. */
  function Clear(amount: Option<int>, purge: nat -> Option<nat>): (r: ClearOutcome)
    ensures var n := if amount.Some? then amount.value else DefaultClearAmount;
      && (r.InvalidAmount? <==> n < 1)
      && (!r.InvalidAmount? ==> r.limit == n + 1)
      && (r.PurgeFailed? <==> 1 <= n && purge(n + 1).None?)
      && (r.Purged? ==> purge(r.limit).Some? && r.reported == purge(r.limit).value - 1)
      && (r.Purged? ==> -1 <= r.reported)
      && (r.Purged? && purge(r.limit).value <= r.limit ==> r.reported <= n)
  {
    var n := if amount.Some? then amount.value else DefaultClearAmount;
    if n < 1 then InvalidAmount
    else
      var limit := n + 1;
      match purge(limit)
      case None => PurgeFailed(limit)
      case Some(deleted) => Purged(limit, deleted - 1)
  }

  /** A purge that removes the newest messages up to its limit from a channel
      holding `available` messages, the command message among them: the reply
      counts the other messages removed, which is the amount asked for or
      everything else in the channel, whichever is smaller. */
  lemma ClearCountsOtherMessages(amount: Option<int>, available: nat)
    requires 1 <= available
    ensures var n := if amount.Some? then amount.value else DefaultClearAmount;
      var purge := (l: nat) => Some(if l < available then l else available);
      1 <= n ==> Clear(amount, purge) == Purged(n + 1, if n < available - 1 then n else available - 1)
  {
  }

  /** The first configuration: well formed, prefix `>` everywhere, both features
      on (their flags are absent), no log channel, empty whitelists. */
  lemma DefaultConfigBehaviour(guild: Option<nat>, channelFound: bool)
    ensures WellFormed(DefaultConfig)
    ensures GetPrefix(DefaultConfig, guild) == Str(">")
    ensures FeatureEnabled(DefaultConfig, "antiraid") && FeatureEnabled(DefaultConfig, "antispam")
    ensures !LogsTo(DefaultConfig, channelFound)
    ensures AntiNukeCog.Trusted(DefaultConfig, AntiNukeCog.UsersKey) == []
    ensures AntiNukeCog.Trusted(DefaultConfig, AntiNukeCog.RolesKey) == []
  {
  }
}
