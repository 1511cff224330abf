/** The whitelist commands of the AntiNuke cog (`Cogs/antinuke.py`): two lists of
    trusted ids, `trusted_users` and `trusted_roles`, kept in the shared config,
    changed by idempotent add and remove commands and shown by a listing. The cog
    only stores and lists them; nothing in it consults them. */
module AntiNukeCog {
  import opened Config

  const UsersKey := "trusted_users"
  const RolesKey := "trusted_roles"

  /** `config.get(key, [])`: the ids a whitelist holds, in insertion order. */
  function Trusted(config: Document, key: string): seq<Value> {
    if key in config && config[key].List? then config[key].items else []
  }

  /** `list.remove(x)` behind an `x in list` guard: drops the first occurrence. */
  function RemoveFirst(xs: seq<Value>, x: Value): (r: seq<Value>)
    ensures x in xs ==> |r| == |xs| - 1
    ensures x !in xs ==> r == xs
    ensures forall v :: v in r ==> v in xs
  {
    if xs == [] then []
    else
      assert xs == [xs[0]] + xs[1..];
      if xs[0] == x then xs[1..] else [xs[0]] + RemoveFirst(xs[1..], x)
  }

  /** Removing takes out one copy of the id and nothing else. */
  lemma {:induction false} RemoveFirstMultiset(xs: seq<Value>, x: Value)
    ensures multiset(RemoveFirst(xs, x)) == multiset(xs) - multiset{x}
  {
    if xs != [] {
      assert xs == [xs[0]] + xs[1..];
      if xs[0] != x {
        RemoveFirstMultiset(xs[1..], x);
      }
    }
  }

  /** Removing takes out exactly the first occurrence and keeps the order of
      everything else. */
  lemma {:induction false} RemoveFirstAt(xs: seq<Value>, x: Value, i: nat)
    requires i < |xs| && xs[i] == x && x !in xs[..i]
    ensures RemoveFirst(xs, x) == xs[..i] + xs[i + 1..]
  {
    if i > 0 {
      assert xs[1..][..i - 1] == xs[..i][1..];
      RemoveFirstAt(xs[1..], x, i - 1);
      assert xs[..i] == [xs[0]] + xs[1..][..i - 1];
    }
  }

  /** Removing from a list of numeric ids leaves a list of numeric ids. */
  lemma RemoveKeepsIdList(xs: seq<Value>, x: Value)
    requires IdList(List(xs))
    ensures IdList(List(RemoveFirst(xs, x)))
  {
    var r := RemoveFirst(xs, x);
    forall i | 0 <= i < |r| ensures r[i].Num? {
      assert r[i] in r;
      var j :| 0 <= j < |xs| && xs[j] == r[i];
    }
  }

  /** Storing a list of numeric ids under a whitelist key keeps the config well formed. */
  lemma StoreKeepsWellFormed(config: Document, key: string, xs: seq<Value>)
    requires WellFormed(config) && (key == UsersKey || key == RolesKey) && IdList(List(xs))
    ensures WellFormed(config[key := List(xs)])
  {
  }

  ghost predicate DuplicateFree(xs: seq<Value>) {
    forall i, j :: 0 <= i < j < |xs| ==> xs[i] != xs[j]
  }

  /** The add command's guard keeps a duplicate-free whitelist duplicate-free. */
  lemma AddKeepsDuplicateFree(xs: seq<Value>, x: Value)
    requires DuplicateFree(xs)
    ensures DuplicateFree(if x in xs then xs else xs + [x])
  {
    if x !in xs {
      var ys := xs + [x];
      forall i, j | 0 <= i < j < |ys| ensures ys[i] != ys[j] {
        if j == |xs| {
          assert ys[i] == xs[i] && xs[i] in xs;
        }
      }
    }
  }

  /** On a duplicate-free whitelist, removing an id leaves no copy of it. */
  lemma {:induction false} RemoveFromDuplicateFree(xs: seq<Value>, x: Value)
    requires DuplicateFree(xs)
    ensures x !in RemoveFirst(xs, x) && DuplicateFree(RemoveFirst(xs, x))
  {
    if xs != [] {
      var tail := xs[1..];
      assert DuplicateFree(tail) by {
        forall i, j | 0 <= i < j < |tail| ensures tail[i] != tail[j] {
          assert tail[i] == xs[i + 1] && tail[j] == xs[j + 1];
        }
      }
      if xs[0] == x {
        forall i | 0 <= i < |tail| ensures tail[i] != x {
          assert tail[i] == xs[i + 1];
        }
      } else {
        RemoveFromDuplicateFree(tail, x);
        var r := RemoveFirst(tail, x);
        forall i, j | 0 <= i < j < |[xs[0]] + r| ensures ([xs[0]] + r)[i] != ([xs[0]] + r)[j] {
          if i == 0 {
            assert ([xs[0]] + r)[j] == r[j - 1] && r[j - 1] in r;
            forall k | 0 <= k < |tail| ensures tail[k] != xs[0] {
              assert tail[k] == xs[k + 1];
            }
          }
        }
      }
    }
  }

  /** Adding an id that is not listed and then removing it restores the list. */
  lemma {:induction false} RemoveUndoesAdd(xs: seq<Value>, x: Value)
    requires x !in xs
    ensures RemoveFirst(xs + [x], x) == xs
  {
    if xs != [] {
      assert (xs + [x])[1..] == xs[1..] + [x];
      RemoveUndoesAdd(xs[1..], x);
    }
  }

  /** The listing's parts. */
  const EmptyNotice := "\U{26A0}\U{FE0F} Whitelist is empty."
  const UsersHeading := "\U{1F464} Users: "
  const RolesHeading := "\U{1F4CC} Roles: "

  /** `", ".join(parts)` */
  function Join(sep: string, parts: seq<string>): string {
    if parts == [] then "" else if |parts| == 1 then parts[0] else parts[0] + sep + Join(sep, parts[1..])
  }

  /** Whitelist entries that an f-string turns into their own text: numeric ids
      (as the commands store them) and ids written as strings. */
  predicate Mentionable(ids: seq<Value>) {
    forall i :: 0 <= i < |ids| ==> ids[i].Num? || ids[i].Str?
  }

  /** `f"{u}"` for a numeric or string id. */
  function IdText(v: Value): string
    requires v.Num? || v.Str?
  {
    if v.Num? then IntText(v.n) else v.s
  }

  /** `[f"<@{u}>" for u in ids]`, with `<@&` for roles. */
  function Mentions(open: string, ids: seq<Value>): seq<string>
    requires Mentionable(ids)
  {
    if ids == [] then [] else [open + IdText(ids[0]) + ">"] + Mentions(open, ids[1..])
  }

  function UsersLine(users: seq<Value>): string
    requires Mentionable(users)
  {
    UsersHeading + Join(", ", Mentions("<@", users))
  }

  function RolesLine(roles: seq<Value>): string
    requires Mentionable(roles)
  {
    RolesHeading + Join(", ", Mentions("<@&", roles))
  }

  /** What `if users:` needs to list a whitelist read by `config.get(key, [])`:
      it is absent, a list, or a falsy value (null, false, 0, `""`, `{}`),
      which the listing skips like an empty list. */
  predicate Listable(config: Document, key: string) {
    key in config && !config[key].List? ==> !Truthy(config[key])
  }

  /** The text `whitelist` sends: a Users line when there are trusted users, then
      a Roles line when there are trusted roles, joined by newlines, or the empty
      notice when there is neither. */
  function WhitelistText(config: Document): string
    requires Listable(config, UsersKey) && Listable(config, RolesKey)
    requires Mentionable(Trusted(config, UsersKey)) && Mentionable(Trusted(config, RolesKey))
  {
    var users, roles := Trusted(config, UsersKey), Trusted(config, RolesKey);
    var lines := (if users != [] then [UsersLine(users)] else []) + (if roles != [] then [RolesLine(roles)] else []);
    Join("\n", if lines == [] then [EmptyNotice] else lines)
  }

  /** The listing is the empty notice exactly when both whitelists are empty;
      otherwise it is the Users line, the Roles line, or the Users line before
      the Roles line. */
  lemma WhitelistListing(config: Document)
    requires Listable(config, UsersKey) && Listable(config, RolesKey)
    requires Mentionable(Trusted(config, UsersKey)) && Mentionable(Trusted(config, RolesKey))
    ensures var users, roles := Trusted(config, UsersKey), Trusted(config, RolesKey);
      && (WhitelistText(config) == EmptyNotice <==> users == [] && roles == [])
      && (users != [] && roles == [] ==> WhitelistText(config) == UsersLine(users))
      && (users == [] && roles != [] ==> WhitelistText(config) == RolesLine(roles))
      && (users != [] && roles != [] ==> WhitelistText(config) == UsersLine(users) + "\n" + RolesLine(roles))
  {
    var users, roles := Trusted(config, UsersKey), Trusted(config, RolesKey);
    var text := WhitelistText(config);
    if users != [] {
      if roles != [] {
        var lines := [UsersLine(users), RolesLine(roles)];
        assert lines[1..] == [RolesLine(roles)];
        assert text == Join("\n", lines);
        assert Join("\n", lines) == lines[0] + "\n" + Join("\n", lines[1..]);
      }
      assert text[0] == UsersHeading[0] != EmptyNotice[0];
    } else if roles != [] {
      assert text[0] == RolesHeading[0] != EmptyNotice[0];
    }
  }

  /** Whitelists stored as falsy values that are not lists (null, false, 0,
      `""`, `{}`) are skipped by the listing, which then shows the empty notice. */
  lemma FalsyWhitelistsListAsEmpty(config: Document)
    requires UsersKey in config && !config[UsersKey].List? && !Truthy(config[UsersKey])
    requires RolesKey in config && !config[RolesKey].List? && !Truthy(config[RolesKey])
    ensures WhitelistText(config) == EmptyNotice
  {
    WhitelistListing(config);
  }

  class AntiNuke {
    const bot: Bot

    constructor (bot: Bot)
      ensures this.bot == bot
    {
      this.bot := bot;
    }

    /** The body of `adduser` and `addrole`: `wl = config.setdefault(key, [])`,
        then, when `id` is not listed, `wl.append(id)` and a save. A listed id
        leaves the list as it was and nothing is saved; only `key` can change. */
    method Trust(key: string, id: int) returns (added: bool)
      requires key == UsersKey || key == RolesKey
      requires WhitelistShape(bot.config, key)
      modifies bot
      ensures var before := Trusted(old(bot.config), key);
        && added == (Num(id) !in before)
        && bot.config == old(bot.config)[key := List(if added then before + [Num(id)] else before)]
        && bot.saves == old(bot.saves) + (if added then 1 else 0)
      ensures WellFormed(old(bot.config)) ==> WellFormed(bot.config)
    {
      ghost var keeps := WellFormed(bot.config);
      var wl := Trusted(bot.config, key);
      if keeps {
        StoreKeepsWellFormed(bot.config, key, wl);
      }
      bot.config := bot.config[key := List(wl)];
      if Num(id) !in wl {
        ghost var config0 := bot.config;
        wl := wl + [Num(id)];
        if keeps {
          StoreKeepsWellFormed(config0, key, wl);
        }
        bot.config := bot.config[key := List(wl)];
        bot.Save();
        added := true;
      } else {
        added := false;
      }
    }

    /** The body of `removeuser` and `removerole`: `wl = config.setdefault(key, [])`,
        then, when `id` is listed, `wl.remove(id)` and a save. An unlisted id
        leaves the list as it was and nothing is saved; only `key` can change.
        A whitelist stored as a dict never holds a numeric id, so it is left
        alone. */
    method Distrust(key: string, id: int) returns (removed: bool)
      requires key == UsersKey || key == RolesKey
      requires RemovableShape(bot.config, key)
      modifies bot
      ensures var before := Trusted(old(bot.config), key);
        && removed == (Num(id) in before)
        && bot.saves == old(bot.saves) + (if removed then 1 else 0)
      ensures WhitelistShape(old(bot.config), key) ==>
        bot.config == old(bot.config)[key := List(RemoveFirst(Trusted(old(bot.config), key), Num(id)))]
      ensures !WhitelistShape(old(bot.config), key) ==> bot.config == old(bot.config)
      ensures WellFormed(old(bot.config)) ==> WellFormed(bot.config)
    {
      if !WhitelistShape(bot.config, key) {
        return false;
      }
      ghost var keeps := WellFormed(bot.config);
      var wl := Trusted(bot.config, key);
      if keeps {
        StoreKeepsWellFormed(bot.config, key, wl);
      }
      bot.config := bot.config[key := List(wl)];
      if Num(id) in wl {
        ghost var config0 := bot.config;
        if keeps {
          RemoveKeepsIdList(wl, Num(id));
        }
        wl := RemoveFirst(wl, Num(id));
        if keeps {
          StoreKeepsWellFormed(config0, key, wl);
        }
        bot.config := bot.config[key := List(wl)];
        bot.Save();
        removed := true;
      } else {
        removed := false;
      }
    }

    /** `whitelist adduser` */
    method AddUser(user: nat) returns (added: bool)
      requires WhitelistShape(bot.config, UsersKey)
      modifies bot
      ensures var before := Trusted(old(bot.config), UsersKey);
        && added == (Num(user) !in before)
        && Trusted(bot.config, UsersKey) == (if added then before + [Num(user)] else before)
        && bot.saves == old(bot.saves) + (if added then 1 else 0)
      ensures bot.config == old(bot.config)[UsersKey := List(Trusted(bot.config, UsersKey))]
      ensures Trusted(bot.config, RolesKey) == Trusted(old(bot.config), RolesKey)
      ensures WellFormed(old(bot.config)) ==> WellFormed(bot.config)
    {
      added := Trust(UsersKey, user);
    }

    /** `whitelist removeuser` */
    method RemoveUser(user: nat) returns (removed: bool)
      requires RemovableShape(bot.config, UsersKey)
      modifies bot
      ensures var before := Trusted(old(bot.config), UsersKey);
        && removed == (Num(user) in before)
        && Trusted(bot.config, UsersKey) == RemoveFirst(before, Num(user))
        && bot.saves == old(bot.saves) + (if removed then 1 else 0)
      ensures WhitelistShape(old(bot.config), UsersKey) ==> bot.config == old(bot.config)[UsersKey := List(Trusted(bot.config, UsersKey))]
      ensures !WhitelistShape(old(bot.config), UsersKey) ==> bot.config == old(bot.config)
      ensures Trusted(bot.config, RolesKey) == Trusted(old(bot.config), RolesKey)
      ensures WellFormed(old(bot.config)) ==> WellFormed(bot.config)
    {
      removed := Distrust(UsersKey, user);
    }

    /** `whitelist addrole` */
    method AddRole(role: nat) returns (added: bool)
      requires WhitelistShape(bot.config, RolesKey)
      modifies bot
      ensures var before := Trusted(old(bot.config), RolesKey);
        && added == (Num(role) !in before)
        && Trusted(bot.config, RolesKey) == (if added then before + [Num(role)] else before)
        && bot.saves == old(bot.saves) + (if added then 1 else 0)
      ensures bot.config == old(bot.config)[RolesKey := List(Trusted(bot.config, RolesKey))]
      ensures Trusted(bot.config, UsersKey) == Trusted(old(bot.config), UsersKey)
      ensures WellFormed(old(bot.config)) ==> WellFormed(bot.config)
    {
      added := Trust(RolesKey, role);
    }

    /** `whitelist removerole` */
    method RemoveRole(role: nat) returns (removed: bool)
      requires RemovableShape(bot.config, RolesKey)
      modifies bot
      ensures var before := Trusted(old(bot.config), RolesKey);
        && removed == (Num(role) in before)
        && Trusted(bot.config, RolesKey) == RemoveFirst(before, Num(role))
        && bot.saves == old(bot.saves) + (if removed then 1 else 0)
      ensures WhitelistShape(old(bot.config), RolesKey) ==> bot.config == old(bot.config)[RolesKey := List(Trusted(bot.config, RolesKey))]
      ensures !WhitelistShape(old(bot.config), RolesKey) ==> bot.config == old(bot.config)
      ensures Trusted(bot.config, UsersKey) == Trusted(old(bot.config), UsersKey)
      ensures WellFormed(old(bot.config)) ==> WellFormed(bot.config)
    {
      removed := Distrust(RolesKey, role);
    }

    /** Adding a user who is not listed and removing them again leaves the users
        whitelist as it was, with one save for each of the two changes. The only
        trace left in the config is the `trusted_users` list that `setdefault`
        creates when the key was missing. */
    method AddThenRemoveUser(user: nat)
      requires WhitelistShape(bot.config, UsersKey)
      requires Num(user) !in Trusted(bot.config, UsersKey)
      modifies bot
      ensures bot.config == old(bot.config)[UsersKey := List(Trusted(old(bot.config), UsersKey))]
      ensures Trusted(bot.config, UsersKey) == Trusted(old(bot.config), UsersKey)
      ensures Trusted(bot.config, RolesKey) == Trusted(old(bot.config), RolesKey)
      ensures bot.saves == old(bot.saves) + 2
    {
      ghost var before := Trusted(bot.config, UsersKey);
      var added := AddUser(user);
      var removed := RemoveUser(user);
      RemoveUndoesAdd(before, Num(user));
    }
  }
}
