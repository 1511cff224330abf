/** The bot's configuration document and the object that carries it.

    `main.py` loads a JSON file into one Python dict, attaches it to the bot as
    `bot.config` and every cog reads and mutates that same dict in place. Here the
    dict is a `map<string, Value>` held by a `Bot` object, and `save_config` is
    reduced to a counter of save requests. */
module Config {

  datatype Option<T> = None | Some(value: T)

  /** A JSON value as `json.load` produces it. */
  datatype Value =
    | Null
    | Bool(b: bool)
    | Num(n: int)
    | Str(s: string)
    | List(items: seq<Value>)
    | Dict(entries: map<string, Value>)

  type Document = map<string, Value>

  /** Python truthiness of a loaded JSON value, as `if v:` and `not v` test it. */
  predicate Truthy(v: Value) {
    match v
    case Null => false
    case Bool(b) => b
    case Num(n) => n != 0
    case Str(s) => s != ""
    case List(xs) => xs != []
    case Dict(m) => m != map[]
  }

  /** `d.get(key, default)` */
  function Get(d: Document, key: string, default: Value): Value {
    if key in d then d[key] else default
  }

  /** A JSON number or boolean read as a Python number: `True` and `False` take
      part in arithmetic and comparisons as 1 and 0. */
  predicate Numeric(v: Value) {
    v.Num? || v.Bool?
  }

  /** The integer a `Numeric` value stands for. */
  function Number(v: Value): int
    requires Numeric(v)
  {
    if v.Num? then v.n else if v.b then 1 else 0
  }

  /** A dict whose listed fields, where present, hold numbers. */
  predicate NumericFields(v: Value, fields: set<string>) {
    v.Dict? && forall f :: f in fields && f in v.entries ==> Numeric(v.entries[f])
  }

  /** `raid`, when present, is a dict whose `window` and `max_joins` are numbers:
      what `on_member_join` needs to read its limits without raising. */
  predicate RaidShape(d: Document) {
    "raid" in d ==> NumericFields(d["raid"], {"window", "max_joins"})
  }

  /** `spam`, when present, is a dict whose `window` and `max_messages` are
      numbers: what `on_message` needs to read its limits without raising. */
  predicate SpamShape(d: Document) {
    "spam" in d ==> NumericFields(d["spam"], {"window", "max_messages"})
  }

  /** The whitelist under `key` is absent or a list: what `setdefault(key, [])`
      followed by `in`, `append` and `remove` needs. */
  predicate WhitelistShape(d: Document, key: string) {
    key in d ==> d[key].List?
  }

  /** The whitelist under `key` is absent, a list, or a dict: what
      `setdefault(key, [])` followed by `in` and a guarded `remove` needs. A
      dict's keys are strings, so a numeric id is never in it and nothing is
      removed. */
  predicate RemovableShape(d: Document, key: string) {
    key in d ==> d[key].List? || d[key].Dict?
  }

  /** `guild_prefixes` is absent or a dict: what the prefix lookup and the
      prefix commands need. */
  predicate PrefixShape(d: Document) {
    "guild_prefixes" in d ==> d["guild_prefixes"].Dict?
  }

  /** A JSON list of numeric ids. */
  predicate IdList(v: Value) {
    v.List? && forall i :: 0 <= i < |v.items| ==> v.items[i].Num?
  }

  /** A JSON object mapping guild-id strings to prefix strings. */
  predicate PrefixTable(v: Value) {
    v.Dict? && forall k :: k in v.entries ==> v.entries[k].Str?
  }

  /** The shapes in which the bot itself writes the keys its commands and
      listeners read. `DEFAULT_CONFIG` has them and every command keeps them;
      each member requires only the part of it that it reads. */
  predicate WellFormed(d: Document) {
    && RaidShape(d)
    && SpamShape(d)
    && ("trusted_users" in d ==> IdList(d["trusted_users"]))
    && ("trusted_roles" in d ==> IdList(d["trusted_roles"]))
    && ("guild_prefixes" in d ==> PrefixTable(d["guild_prefixes"]))
    && ("default_prefix" in d ==> d["default_prefix"].Str?)
  }

  /** The keys `WellFormed` constrains. */
  const WellFormedKeys := {"raid", "spam", "trusted_users", "trusted_roles", "guild_prefixes", "default_prefix"}

  /** A feature switch read as `if not config.get(key, True): return`: an absent
      key means on, a stored boolean is the switch itself, and any other value
      counts by its truthiness. */
  function FeatureEnabled(d: Document, key: string): (on: bool)
    ensures key !in d ==> on
    ensures key in d && d[key].Bool? ==> (on <==> d[key].b)
    ensures key in d && d[key] == Null ==> !on
  {
    Truthy(Get(d, key, Bool(true)))
  }

  /** Whether alerts reach a log channel: `log_channel_id` is set to a truthy value
      and the platform's channel lookup (`bot.get_channel`) found a channel. */
  function LogsTo(d: Document, channelFound: bool): (logging: bool)
    ensures !channelFound ==> !logging
    ensures "log_channel_id" !in d || d["log_channel_id"] == Null ==> !logging
    ensures "log_channel_id" in d && d["log_channel_id"].Num? && d["log_channel_id"].n != 0 ==> (logging <==> channelFound)
  {
    "log_channel_id" in d && Truthy(d["log_channel_id"]) && channelFound
  }

  /** The `on`/`off` argument of the `antiraid` and `antispam` commands:
      the new flag, or `None` when the argument is missing or anything else. */
  function SwitchValue(mode: Option<string>): (r: Option<bool>)
    ensures r.Some? <==> mode == Some("on") || mode == Some("off")
    ensures r == Some(true) <==> mode == Some("on")
  {
    match mode
    case Some(m) => if m == "on" then Some(true) else if m == "off" then Some(false) else None
    case None => None
  }

  function DigitChar(d: nat): char
    requires d < 10
  {
    (48 + d) as char
  }

  /** `str(n)` for a non-negative integer: its decimal digits, no leading zeros. */
  function NatText(n: nat): (s: string)
    ensures 1 <= |s|
    ensures n >= 10 ==> 2 <= |s|
    ensures forall i :: 0 <= i < |s| ==> '0' <= s[i] <= '9'
  {
    if n < 10 then [DigitChar(n)] else NatText(n / 10) + [DigitChar(n % 10)]
  }

  /** `str(i)` for any integer. */
  function IntText(i: int): string {
    if i < 0 then "-" + NatText(-i) else NatText(i)
  }

  /** Distinct numbers have distinct decimal texts, so keying a dict by
      `str(guild.id)` keeps guilds apart. */
  lemma {:induction false} NatTextInjective(a: nat, b: nat)
    requires NatText(a) == NatText(b)
    ensures a == b
  {
    var s := NatText(a);
    if a < 10 && b < 10 {
      assert s[0] == DigitChar(a) && s[0] == DigitChar(b);
    } else if 10 <= a && 10 <= b {
      var n := |s|;
      assert s[n - 1] == DigitChar(a % 10) && s[n - 1] == DigitChar(b % 10);
      assert s[..n - 1] == NatText(a / 10) && s[..n - 1] == NatText(b / 10);
      NatTextInjective(a / 10, b / 10);
    }
  }

  /** The dict key under which a guild is stored: `str(guild.id)`. */
  function GuildKey(guild: nat): string {
    NatText(guild)
  }

  /** Distinct guilds are stored under distinct keys. */
  lemma GuildKeysDistinct(a: nat, b: nat)
    requires a != b
    ensures GuildKey(a) != GuildKey(b)
  {
    if GuildKey(a) == GuildKey(b) {
      NatTextInjective(a, b);
    }
  }

  /** The bot object that every cog reaches as `self.bot`. */
  class Bot {
    /** `bot.config`, the dict shared by `main.py` and all cogs. */
    var config: Document
    /** How many times `save_config()` has been awaited. */
    var saves: nat

    constructor (initial: Document)
      ensures config == initial && saves == 0
    {
      config := initial;
      saves := 0;
    }

    /** `await self.bot.save_config()`; writing the file is not modelled. */
    method Save()
      modifies this
      ensures config == old(config) && saves == old(saves) + 1
    {
      saves := saves + 1;
    }

    /** The body shared by `toggle_antiraid` and `toggle_antispam`: any argument
        other than `on`/`off` leaves the config alone and saves nothing; otherwise
        `config[key] = (mode == "on")` followed by a save. */
    method Toggle(key: string, mode: Option<string>) returns (applied: bool)
      modifies this
      ensures applied <==> SwitchValue(mode).Some?
      ensures applied ==> config == old(config)[key := Bool(mode == Some("on"))] && saves == old(saves) + 1
      ensures !applied ==> config == old(config) && saves == old(saves)
      ensures applied ==> (FeatureEnabled(config, key) <==> mode == Some("on"))
      ensures key !in WellFormedKeys && WellFormed(old(config)) ==> WellFormed(config)
    {
      var flag := SwitchValue(mode);
      if flag.None? {
        return false;
      }
      config := config[key := Bool(flag.value)];
      Save();
      applied := true;
    }
  }
}
