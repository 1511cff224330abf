# Moderation core of the MetaSonic chat bot, in Dafny

This project models the parts of the MetaSonic bot that keep moderation state and
proves what they do with it:

- **AntiRaid** (`Cogs/anitraid.py`). It keeps a per-guild list of join timestamps.
  On each join it evicts timestamps older than the window and appends the current
  time. If the count then exceeds the limit, it raises the guild's verification
  level and kicks the member who just joined.
- **AntiSpam** (`Cogs/antispam.py`). It keeps a per-author list of message
  timestamps under the same sliding-window rule. When the limit is exceeded it
  deletes the message and posts a warning that deletes itself after three seconds.
- **Whitelist** of the AntiNuke cog (`Cogs/antinuke.py`). It holds two lists of
  trusted ids in the shared config. Adding and removing are idempotent, and a save
  is requested only when a list changes. A listing command shows both lists.
- **`main.py`**. This covers the per-guild command prefix (`get_prefix`,
  `setprefix`, `resetprefix`), the amount check and count arithmetic of `clear`,
  and `DEFAULT_CONFIG`.

Modules, one per source file, plus three shared ones:

| file | module | models |
|---|---|---|
| `config.dfy` | `Config` | the JSON config dict (`map<string, Value>`), Python truthiness, `str()` of ids, the `Bot` object carrying `config` and a count of `save_config` calls |
| `sliding_window.dfy` | `SlidingWindow` | the eviction comprehension (`Recent`) and the `Tracker` class holding the `defaultdict(list)` that both rate cogs use |
| `actions.dfy` | `Actions` | platform calls, their answers (`Ok`, `Forbidden`, `Failed`) and the `try … except discord.Forbidden` blocks around them |
| `anti_raid.dfy` | `AntiRaidCog` | `on_member_join`, `toggle_antiraid` |
| `anti_spam.dfy` | `AntiSpamCog` | `on_message`, `toggle_antispam` |
| `anti_nuke.dfy` | `AntiNukeCog` | `whitelist`, `adduser`, `removeuser`, `addrole`, `removerole` |
| `prefixes.dfy` | `MainCommands` | `get_prefix`, `set_prefix`, `reset_prefix`, `clear_messages`, `DEFAULT_CONFIG` |

Event handlers and cog commands that change state are methods of classes
(`AntiRaid`, `AntiSpam`, `AntiNuke`, `Tracker`, `Bot`). The module-level commands
of `main.py` (`setprefix`, `resetprefix`) are module-level methods that take the
`Bot`. Every such method's `ensures` give the whole new state in terms of the
old one. The properties are proved as lemmas about the
specification functions that those `ensures` use.

The platform is never called. A handler gets a `platform: Action -> Outcome`
parameter that gives the answer each call would receive, and it returns the `Trace`
of calls it made, in order. Three things match the Python:

- A `Forbidden` answer is swallowed by the surrounding `try`.
- Any other failure (`Failed`) escapes every handler and ends it.
- A call made outside any `try` ends the handler on either kind of failure.

The clock (`time.time()`) and the result of `bot.get_channel` are also parameters.

### The config

The config is one JSON dict. Each member requires a shape only of the keys it
reads, and only on the path where it reads them:
- `RaidShape` / `SpamShape`: `raid` / `spam` is absent or a dict whose limit fields are numbers or booleans.
  The handlers require it only once the flag check passes (and, for messages, once the author and guild filter passes).
  Ignored messages and a switched-off feature leave the config unread, whatever it holds.
- `WhitelistShape`: a whitelist is absent or a list. The add commands require it.
- `Listable`: a whitelist is absent, a list, or a falsy value, which the listing skips. The `whitelist` listing requires it.
- `RemovableShape`: a whitelist is absent, a list or a dict. The remove commands require it; on a dict they change nothing, as in the Python.
- `PrefixShape`: `guild_prefixes` is absent or a dict. The prefix lookup requires it only inside a guild.

`Config.WellFormed` is stronger. It holds the shapes the bot itself writes:
whitelists of numeric ids, a prefix table of strings, and a string default
prefix. `DEFAULT_CONFIG` satisfies it (`DefaultConfigBehaviour`), and every
command that writes the config keeps it.

### Behaviour worth knowing

- **Full rescan.** Eviction rebuilds the whole list with a comprehension; it does not drop stale entries from the front.
  `RecentIsOrderedFilter` proves that this keeps exactly the in-window timestamps, in order.
- **Global flags.** The `antiraid` and `antispam` flags are single global config keys, not per-guild settings.
  The commands' docstrings say "per guild" (`Cogs/anitraid.py:58`, `Cogs/antispam.py:55`).
  The flags are read before any history changes.
- **Per-author spam history.** Spam history is keyed by author id alone. One author's messages in different guilds share one list.
- **Firing from the fifth join.** With window 10 and maximum 4, the raid branch already fires at the fifth join.
  It fires again at every later join while the count stays above 4 (`DefaultBurstFiresFromFifthJoin`).
- **Refused raid alert.** The raid alert to the log channel is sent outside any `try`.
  If the log channel refuses it, the handler ends before the verification raise and before the kick (`RefusedAlertStopsCountermeasures`).
  Later log notices are inside the `try` blocks, and a refused notice there is swallowed.
- **Unused whitelist.** Nothing checks the whitelist before acting. The cog only stores the two lists and shows them.

## Model

| member | source | states |
|---|---|---|
| `Config.SwitchValue` | Cogs/anitraid.py:61-64 | only `on` and `off` are accepted, and the flag is true exactly for `on` |
| `Config.NatText` | main.py:53 | `str(n)` is a non-empty string of decimal digits, with at least two digits from 10 upwards |
| `Config.NatTextInjective` | main.py:53 | distinct ids have distinct `str()` texts |
| `Config.GuildKeysDistinct` | Cogs/anitraid.py:20 | distinct guilds are stored under distinct `str(guild.id)` keys |
| `Config.FeatureEnabled` | Cogs/anitraid.py:13 | the `config.get(key, True)` switch: an absent key means on, a stored boolean decides, null means off; proved for the defaults by `DefaultConfigBehaviour` and for a toggle by `Config.Bot.Toggle` |
| `Config.LogsTo` | Cogs/anitraid.py:30-33 | alerts go out only when `log_channel_id` is set to a truthy value and the channel lookup finds it; a nonzero numeric id logs exactly when the channel is found |
| `Config.Bot.constructor` | main.py:64-65 | the bot carries the loaded config, and nothing has been saved yet |
| `Config.Bot.Save` | main.py:42-47 | a save leaves the config as it is and is counted |
| `Config.Bot.Toggle` | Cogs/anitraid.py:61-65 | a mode other than on/off changes nothing and saves nothing; otherwise `config[key] = (mode == "on")`, one save, the feature then reads as on exactly for `on`, and the config invariant is kept |
| `SlidingWindow.Recent` | Cogs/anitraid.py:24-26 | the comprehension never lengthens the list |
| `SlidingWindow.RecentMembers` | Cogs/anitraid.py:24-26 | a timestamp survives eviction iff it was in the list and `now - t <= window` |
| `SlidingWindow.RecentIsOrderedFilter` | Cogs/anitraid.py:24-26 | the retained list is the in-window subsequence of the old list: every in-window position is kept exactly once, in the original order |
| `SlidingWindow.RecentKeepsAllInWindow` | Cogs/anitraid.py:24-26 | when every timestamp is within the window, nothing is evicted |
| `SlidingWindow.RecentDropsStalePrefix` | Cogs/antispam.py:28 | when the first k timestamps are stale and the rest are fresh, eviction drops exactly the first k |
| `SlidingWindow.RecentSorted` | Cogs/anitraid.py:24-26 | eviction keeps a time-ordered list time-ordered |
| `SlidingWindow.RecordBounds` | Cogs/anitraid.py:24-27 | after an event the list ends with `now` and every retained old timestamp satisfies `now - t <= window`; with a non-negative window the whole list does; with a clock that does not run backwards the list stays sorted |
| `SlidingWindow.Replay` | Cogs/anitraid.py:24-27 | after a run of events, the last timestamp is the last event's time |
| `SlidingWindow.BurstCountedInFull` | Cogs/anitraid.py:24-29 | events that all fall within one window are all counted |
| `SlidingWindow.BurstTriggersFromThreshold` | Cogs/anitraid.py:29 | inside such a burst, `count > max` holds at the k-th event iff k > max: the check fires at every event after the max-th, and an earlier trigger does not suppress it |
| `SlidingWindow.Tracker.constructor` | Cogs/anitraid.py:9 | the history starts empty |
| `SlidingWindow.Tracker.Record` | Cogs/anitraid.py:24-29 | the key's list becomes its in-window timestamps plus `now`, every other key is unchanged, and the returned count is the new length |
| `Actions.Unguarded` | Cogs/anitraid.py:31-38 | a call outside any `try` is attempted, and any failure ends the handler |
| `Actions.Caught` | Cogs/antispam.py:32-35 | a call in `try/except Forbidden` is attempted, and only a non-Forbidden failure ends the handler |
| `Actions.Guarded` | Cogs/anitraid.py:40-45 | the action is attempted; its log notice is sent iff logging is on and the action succeeded; the block ends the handler iff the action or the notice fails other than Forbidden |
| `Actions.Then` | Cogs/anitraid.py:40-52 | the second block runs iff the first did not end the handler |
| `AntiRaidCog.Limits` | Cogs/anitraid.py:16-18 | window and maximum default to 10 and 4 when `raid` is missing, and each defaults on its own when its field is missing; a stored boolean counts as 1 or 0 |
| `AntiRaidCog.Alert` | Cogs/anitraid.py:30-37 | with logging off no call is made; with logging on the alert is sent outside any `try`, so any failure ends the handler |
| `AntiRaidCog.Response` | Cogs/anitraid.py:29-52 | the raid branch sends the alert exactly when logging is on; its order and failure handling are stated by `VerificationAttempted`, `KickAttempted`, `ResponseCallsOnly` and `RefusedAlertStopsCountermeasures` |
| `AntiRaidCog.VerificationAttempted` | Cogs/anitraid.py:29-45 | the raid branch attempts the verification raise iff the log alert went through or logging is off |
| `AntiRaidCog.KickAttempted` | Cogs/anitraid.py:40-52 | the joiner is kicked iff the alert went through and the verification block did not end the handler; a Forbidden verification raise does not prevent the kick |
| `AntiRaidCog.ResponseCallsOnly` | Cogs/anitraid.py:29-52 | the raid branch makes only the alert, the verification raise, the kick of the joiner, and their notices |
| `AntiRaidCog.RefusedAlertStopsCountermeasures` | Cogs/anitraid.py:31-41 | a Forbidden raid alert ends the handler with neither the verification raise nor the kick |
| `AntiRaidCog.OtherGuildUntouched` | Cogs/anitraid.py:20-27 | updating one guild's entry leaves every other guild's entry as it was |
| `AntiRaidCog.DefaultBurstFiresFromFifthJoin` | Cogs/anitraid.py:16-29 | with the defaults, seven joins within four seconds fire the raid branch at joins 5, 6 and 7 and not before |
| `AntiRaidCog.WindowSlides` | Cogs/anitraid.py:24-29 | joins at 0, 1, 2, 3 and 11 give a count of 4 at the fifth join, which does not exceed the default maximum |
| `AntiRaidCog.AntiRaid.constructor` | Cogs/anitraid.py:7-9 | the join history starts empty |
| `AntiRaidCog.AntiRaid.OnMemberJoin` | Cogs/anitraid.py:12-52 | flag off: no calls and no history change, whatever `raid` holds; otherwise the guild's list becomes its in-window joins plus `now`, other guilds are unchanged, and the raid response runs iff the new count exceeds `max_joins` |
| `AntiRaidCog.AntiRaid.ToggleAntiRaid` | Cogs/anitraid.py:56-66 | an invalid mode changes nothing and saves nothing; on/off sets the global `antiraid` flag and saves once |
| `AntiSpamCog.Limits` | Cogs/antispam.py:20-22 | window and maximum default to 7 and 5 when `spam` is missing, and each defaults on its own when its field is missing; a stored boolean counts as 1 or 0 |
| `AntiSpamCog.Watched` | Cogs/antispam.py:14-15 | messages from bots and messages outside a guild are ignored |
| `AntiSpamCog.Response` | Cogs/antispam.py:31-49 | the log alert is sent iff logging is on and neither the delete nor the warning failed other than `Forbidden`; `DeleteThenWarn` and `ResponseCallsOnly` state the rest |
| `AntiSpamCog.DeleteThenWarn` | Cogs/antispam.py:32-43 | the delete is always attempted, and the warning is posted iff the delete did not fail other than Forbidden |
| `AntiSpamCog.ResponseCallsOnly` | Cogs/antispam.py:31-49 | the spam branch makes only the delete, the warning and the alert; it never kicks or raises verification |
| `AntiSpamCog.DefaultFloodFiresFromSixthMessage` | Cogs/antispam.py:20-31 | with the defaults, seven messages within seven seconds fire at messages 6 and 7 and not before |
| `AntiSpamCog.AntiSpam.constructor` | Cogs/antispam.py:8-10 | the message history starts empty |
| `AntiSpamCog.AntiSpam.OnMessage` | Cogs/antispam.py:13-49 | bot authors, messages outside a guild, or the flag off: no calls and no history change, whatever `spam` holds; otherwise the author's list (keyed by author alone) becomes its in-window messages plus `now`, other authors are unchanged, and the spam response runs iff the count exceeds `max_messages` |
| `AntiSpamCog.AntiSpam.ToggleAntiSpam` | Cogs/antispam.py:53-63 | an invalid mode changes nothing and saves nothing; on/off sets the global `antispam` flag and saves once |
| `AntiNukeCog.RemoveFirst` | Cogs/antinuke.py:40 | `list.remove` shortens a list that holds the id by one, leaves a list without it unchanged, and adds no new element |
| `AntiNukeCog.RemoveFirstMultiset` | Cogs/antinuke.py:40 | removal takes out exactly one copy of the id |
| `AntiNukeCog.RemoveFirstAt` | Cogs/antinuke.py:40 | removal deletes the first occurrence and keeps the order of the rest |
| `AntiNukeCog.RemoveKeepsIdList` | Cogs/antinuke.py:38-41 | removing from a list of ids leaves a list of ids |
| `AntiNukeCog.StoreKeepsWellFormed` | Cogs/antinuke.py:27-29 | storing a list of ids under a whitelist key keeps the config well formed |
| `AntiNukeCog.AddKeepsDuplicateFree` | Cogs/antinuke.py:28-29 | the membership guard keeps a duplicate-free whitelist duplicate-free |
| `AntiNukeCog.RemoveFromDuplicateFree` | Cogs/antinuke.py:39-40 | on a duplicate-free whitelist, the removed id is afterwards absent and the list stays duplicate-free |
| `AntiNukeCog.RemoveUndoesAdd` | Cogs/antinuke.py:27-41 | appending an unlisted id and then removing it restores the list |
| `AntiNukeCog.WhitelistText` | Cogs/antinuke.py:12-22 | the text the `whitelist` command sends; its properties are stated by `WhitelistListing` |
| `AntiNukeCog.WhitelistListing` | Cogs/antinuke.py:12-22 | for whitelists of numeric or string ids, the listing is "Whitelist is empty." iff both lists are empty; otherwise it is the Users line, the Roles line, or the Users line, a newline and the Roles line |
| `AntiNukeCog.FalsyWhitelistsListAsEmpty` | Cogs/antinuke.py:13-20 | whitelists stored as null, false, 0, `""` or `{}` are skipped by `if users:` / `if roles:`, and the listing is the empty notice |
| `AntiNukeCog.AntiNuke.constructor` | Cogs/antinuke.py:8-9 | the cog holds the bot |
| `AntiNukeCog.AntiNuke.Trust` | Cogs/antinuke.py:26-33 | `setdefault` then append: an unlisted id is appended and saved once; a listed id changes nothing and saves nothing; only that key can change; the config invariant is kept |
| `AntiNukeCog.AntiNuke.Distrust` | Cogs/antinuke.py:37-44 | `setdefault` then remove: a listed id loses its first occurrence and is saved once; an unlisted id changes nothing and saves nothing; a whitelist stored as a dict is left alone; only that key can change; the config invariant is kept |
| `AntiNukeCog.AntiNuke.AddUser` | Cogs/antinuke.py:26-33 | an idempotent add on `trusted_users` that saves only on change and leaves `trusted_roles` unchanged |
| `AntiNukeCog.AntiNuke.RemoveUser` | Cogs/antinuke.py:37-44 | an idempotent remove on `trusted_users` that saves only on change and leaves `trusted_roles` unchanged |
| `AntiNukeCog.AntiNuke.AddRole` | Cogs/antinuke.py:48-55 | an idempotent add on `trusted_roles` that saves only on change and leaves `trusted_users` unchanged |
| `AntiNukeCog.AntiNuke.RemoveRole` | Cogs/antinuke.py:59-66 | an idempotent remove on `trusted_roles` that saves only on change and leaves `trusted_users` unchanged |
| `AntiNukeCog.AntiNuke.AddThenRemoveUser` | Cogs/antinuke.py:26-44 | `adduser` of an unlisted user followed by `removeuser` of that user restores both whitelists, with two saves; the config differs from before at most by the `trusted_users` list that `setdefault` creates |
| `MainCommands.GetPrefix` | main.py:50-53 | outside a guild the stored default prefix (and nothing else is read); in a guild its own entry if present, else the default; `>` when there is no `default_prefix` |
| `MainCommands.WithPrefix` | main.py:91 | the config after `setprefix`: only `guild_prefixes` changes (and is created when missing), and its keys gain the guild's key; `SetPrefixEffect` states the lookups after it |
| `MainCommands.WithoutPrefix` | main.py:100 | the config after `resetprefix`: only `guild_prefixes` changes, and its keys lose the guild's key; `ResetPrefixEffect` states the lookups after it |
| `MainCommands.SetPrefixEffect` | main.py:91 | after `setprefix p`, that guild's prefix is `p`, while every other guild and the no-guild prefix keep theirs; the config invariant is kept |
| `MainCommands.ResetPrefixEffect` | main.py:98-100 | after the entry is deleted, that guild uses the default prefix, while every other guild and the no-guild prefix keep theirs; the config invariant is kept |
| `MainCommands.SetPrefix` | main.py:90-92 | the guild's entry is stored, `guild_prefixes` is created if missing, and one save follows |
| `MainCommands.ResetPrefix` | main.py:97-104 | an existing entry is deleted and saved once; no entry means no change and no save; either way the guild then uses the default prefix |
| `MainCommands.Clear` | main.py:108-113 | an amount below 1 purges nothing; otherwise the purge limit is amount + 1; a purge that raises ends the command without a count; otherwise the reported count is the deleted count minus 1, and it never exceeds the amount |
| `MainCommands.ClearCountsOtherMessages` | main.py:112-113 | when the purge removes the newest messages up to its limit, the reported count is the number of messages other than the command removed: the amount, or everything else in the channel if that is fewer |
| `MainCommands.DefaultConfigBehaviour` | main.py:24-31 | the first config is well formed, gives prefix `>` everywhere, leaves both features on, sets no log channel, and has empty whitelists |

## Left out

- `AntiRaidCog.AntiRaid.OnMemberJoin` and `AntiRaidCog.Limits`: require `RaidShape` once the flag is on. A `raid` that is not a dict makes `cfg.get` raise. Limits that are strings or null make the comparisons raise. With an empty history the window is never compared, so the Python survives the first join on such a config. That partial run is not modelled.
- `AntiSpamCog.AntiSpam.OnMessage` and `AntiSpamCog.Limits`: require `SpamShape` once a watched message meets the flag, for the same reason.
- JSON numbers are integers (`Value` has no float). A fractional `window` or `max_joins`, which the Python accepts, is not modelled.
- `AntiNukeCog.AntiNuke.Trust`, `AddUser` and `AddRole`: require `WhitelistShape`, because a non-list makes `in` or `append` raise. `Distrust`, `RemoveUser` and `RemoveRole` require `RemovableShape`: a dict whitelist is a no-op there. A string, number or null whitelist makes `in` raise. Entries may be any JSON value; a string id never equals a numeric id, as in Python. Python's `True == 1` across types is not modelled.
- `AntiNukeCog.WhitelistText` and `WhitelistListing`: require `Listable` and numeric or string ids. The Python also handles other truthy whitelists that are not lists. It lists the keys of a non-empty dict and the characters of a non-empty string. It raises when iterating a nonzero number or `true`. It also formats entries of other types (null, nested lists). None of these is modelled.
- `MainCommands.GetPrefix` and `SetPrefix`: require `PrefixShape` in a guild. A `guild_prefixes` that is not a dict makes `.get` or item assignment raise. Prefix values are returned as stored.
- `MainCommands.ResetPrefix`: requires `PrefixShape`. It therefore excludes a `guild_prefixes` list or string that does not contain the guild's key. On such a value the Python's membership test is False and the reset is a silent no-op. When the list or string does contain the key, the `del` raises.
- `MainCommands.Clear`: the purge is a parameter that gives the number of messages deleted, or `None` when it raises; the reason for a failure is not distinguished.
- `MainCommands.SetPrefix` and `ResetPrefix` take a guild id, so a direct message has no counterpart. There the `administrator` permission check fails before the body runs, and `on_command_error` replies instead. The error handler is not modelled.
- Timestamps are integers. `time.time()` returns a float, and sub-second precision is not modelled.
- The clock is a parameter. The model cannot show that a switched-off handler returns before it reads the clock; it does show that no history changes.
- `bot.get_channel(int(log_channel_id))` is a boolean parameter (`channelFound`). An `int()` conversion failure is not modelled.
- `warn_msg.delete(delay=3)` is part of the warning action (`TransientWarning`). discord.py schedules that deletion in the background and swallows its errors.
- The wording of replies (`ctx.send`/`ctx.reply` texts such as "Usage: …" or "✅ Added …") is not modelled. The whitelist listing is modelled because it is the command's output.
- `save_config` is a counter: the temporary-file write, the rename and the `asyncio.Lock` are I/O and are not modelled.
- The config bootstrap (`CONFIG_PATH`, `json.load`), `load_dotenv`, `load_all_cogs`, `on_ready`, `on_command_error` and `bot.start` are not modelled. They are I/O and start-up.
- Permission decorators (`has_permissions`) are not modelled. They are enforced by the command framework before a command body runs.
- Concurrency between event handlers (await points) is not modelled. Each handler runs as one atomic step.
- `Cogs/music.py`, `Cogs/help.py` and the `Logs` cog in `Cogs/antilink.py` are not part of this model. They are streaming, UI, and log forwarding.
