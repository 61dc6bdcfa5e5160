/**
 * The guild-registration gate (`Client.handleInteraction`): for an interaction inside a
 * guild whose cache key is absent, upsert the guild row and only then mark the key.
 *
 * `Handle` is the gate as a function of the state before the call and of whether the
 * database accepted the upsert; `Client.HandleInteraction` performs the same steps on the
 * client's fields and is proved to agree with it.
 */
module GuildRegistration {
  import opened Wrappers

  /** The namespace of the "guild is known" markers in the key-value cache. */
  const CacheKeyPrefix: string := "cache/known/guild:"

  /** The cache key of a guild: the fixed prefix followed by the guild id. */
  function CacheKey(guildId: string): (key: string)
    ensures |key| == |CacheKeyPrefix| + |guildId|
    ensures key[..|CacheKeyPrefix|] == CacheKeyPrefix && key[|CacheKeyPrefix|..] == guildId
  {
    CacheKeyPrefix + guildId
  }

  /** Different guilds never share a cache key. */
  lemma CacheKeyInjective(a: string, b: string)
    ensures CacheKey(a) == CacheKey(b) <==> a == b
  {
    if CacheKey(a) == CacheKey(b) {
      assert a == CacheKey(a)[|CacheKeyPrefix|..];
    }
  }

  /** `locales.find(locale => locale === preferred)`: the supported locale equal to the preferred one, if any. */
  function FindLocale(locales: seq<string>, preferred: string): (found: Option<string>)
    ensures found.Some? <==> preferred in locales
    ensures found.Some? ==> found.value == preferred
    decreases |locales|
  {
    if locales == [] then None
    else if locales[0] == preferred then Some(locales[0])
    else FindLocale(locales[1..], preferred)
  }

  /** A guild row; a `None` locale is an unset column. */
  datatype GuildRow = GuildRow(locale: Option<string>)

  /** The guild an interaction comes from, when it comes from one. */
  datatype GuildContext = GuildContext(id: string, preferredLocale: string)
  datatype Interaction = Interaction(guild: Option<GuildContext>)

  /** How a call of the gate ended. `UpsertFailed` stands for the rejected promise. */
  datatype Outcome = NotInGuild | AlreadyKnown | Registered | UpsertFailed

  /** `guild.upsert({create, update: {}, where: {id}})`: create the row if absent, change nothing otherwise. */
  function UpsertGuild(guilds: map<string, GuildRow>, id: string, create: GuildRow): (r: map<string, GuildRow>)
    ensures r.Keys == guilds.Keys + {id}
    ensures id !in guilds ==> r[id] == create
    ensures forall g :: g in guilds ==> r[g] == guilds[g]
  {
    if id in guilds then guilds else guilds[id := create]
  }

  /** The row created for a new guild: its locale only when it is a supported one. */
  function NewGuildRow(locales: seq<string>, preferred: string): (row: GuildRow)
    ensures row.locale == if preferred in locales then Some(preferred) else None
  {
    GuildRow(FindLocale(locales, preferred))
  }

  /**
   * The observable state: the cache's keys, the guild table, and the number of upserts
   * issued so far.
   */
  datatype Registry = Registry(cache: set<string>, guilds: map<string, GuildRow>, upserts: nat)

  /** One call of the gate; `upsertSucceeds` is the database's answer if an upsert is issued. */
  function Handle(st: Registry, locales: seq<string>, i: Interaction, upsertSucceeds: bool): (r: Registry)
    ensures st.cache <= r.cache && st.guilds.Keys <= r.guilds.Keys
    ensures forall g :: g in st.guilds ==> r.guilds[g] == st.guilds[g]
    ensures i.guild.None? ==> r == st
    ensures i.guild.Some? ==>
              r.cache <= st.cache + {CacheKey(i.guild.value.id)}
              && r.guilds.Keys <= st.guilds.Keys + {i.guild.value.id}
              && (CacheKey(i.guild.value.id) in r.cache
                  <==> CacheKey(i.guild.value.id) in st.cache || upsertSucceeds)
              && (r.upserts == st.upserts + 1 <==> CacheKey(i.guild.value.id) !in st.cache)
              && (r.upserts == st.upserts <==> CacheKey(i.guild.value.id) in st.cache)
  {
    match i.guild
    case None => st
    case Some(g) =>
      var key := CacheKey(g.id);
      if key in st.cache then st
      else if !upsertSucceeds then st.(upserts := st.upserts + 1)
      else Registry(st.cache + {key}, UpsertGuild(st.guilds, g.id, NewGuildRow(locales, g.preferredLocale)),
                    st.upserts + 1)
  }

  /** Every guild marked in the cache has a row. */
  ghost predicate Consistent(st: Registry) {
    forall id :: CacheKey(id) in st.cache ==> id in st.guilds
  }

  lemma HandlePreservesConsistent(st: Registry, locales: seq<string>, i: Interaction, upsertSucceeds: bool)
    requires Consistent(st)
    ensures Consistent(Handle(st, locales, i, upsertSucceeds))
  {
    var r := Handle(st, locales, i, upsertSucceeds);
    forall id | CacheKey(id) in r.cache
      ensures id in r.guilds
    {
      if CacheKey(id) !in st.cache {
        CacheKeyInjective(id, i.guild.value.id);
      }
    }
  }

  /** An interaction outside a guild changes nothing. */
  lemma OutsideGuildIgnored(st: Registry, locales: seq<string>, i: Interaction, upsertSucceeds: bool)
    requires i.guild.None?
    ensures Handle(st, locales, i, upsertSucceeds) == st
  {
  }

  /** A guild already marked in the cache is the fast path: no upsert, nothing changes. */
  lemma KnownGuildFastPath(st: Registry, locales: seq<string>, i: Interaction, upsertSucceeds: bool)
    requires i.guild.Some? && CacheKey(i.guild.value.id) in st.cache
    ensures Handle(st, locales, i, upsertSucceeds) == st
  {
  }

  /**
   * A new guild whose upsert succeeds: exactly one upsert, its key is the only key added,
   * a row absent before is created with the supported preferred locale or none, and a row
   * present before is left as it was.
   */
  lemma NewGuildRegistered(st: Registry, locales: seq<string>, i: Interaction)
    requires i.guild.Some? && CacheKey(i.guild.value.id) !in st.cache
    ensures var r := Handle(st, locales, i, true);
            var g := i.guild.value;
            && r.upserts == st.upserts + 1
            && r.cache == st.cache + {CacheKey(g.id)}
            && g.id in r.guilds
            && (g.id !in st.guilds ==>
                  r.guilds == st.guilds[g.id := GuildRow(if g.preferredLocale in locales then Some(g.preferredLocale) else None)])
            && (g.id in st.guilds ==> r.guilds == st.guilds)
  {
  }

  /** A failed upsert leaves the cache unmarked, so the next call for the guild upserts again. */
  lemma FailedUpsertIsRetried(st: Registry, locales: seq<string>, i: Interaction, nextSucceeds: bool)
    requires i.guild.Some? && CacheKey(i.guild.value.id) !in st.cache
    ensures var failed := Handle(st, locales, i, false);
            && failed.cache == st.cache && failed.guilds == st.guilds
            && Handle(failed, locales, i, nextSucceeds).upserts == st.upserts + 2
            && Handle(failed, locales, i, nextSucceeds).cache == Handle(st, locales, i, nextSucceeds).cache
            && Handle(failed, locales, i, nextSucceeds).guilds == Handle(st, locales, i, nextSucceeds).guilds
  {
  }

  /** After a successful call, a second call for the same guild issues no upsert and changes nothing. */
  lemma RegistrationIdempotent(st: Registry, locales: seq<string>, i: Interaction, secondSucceeds: bool)
    ensures var once := Handle(st, locales, i, true);
            Handle(once, locales, i, secondSucceeds) == once
  {
  }

  /**
   * The bot client's registration state: its in-memory key-value cache, the guild table it
   * writes through the database client, and the supported locales it loaded at start.
   */
  class Client {
    const locales: seq<string>
    var cache: set<string>
    var guilds: map<string, GuildRow>
    ghost var upserts: nat

    ghost function State(): Registry
      reads this
    {
      Registry(cache, guilds, upserts)
    }

    ghost predicate Valid()
      reads this
    {
      Consistent(State())
    }

    /** A fresh process: an empty cache over an existing guild table. */
    constructor (locales: seq<string>, guilds: map<string, GuildRow>)
      ensures Valid()
      ensures this.locales == locales && State() == Registry({}, guilds, 0)
    {
      this.locales := locales;
      this.cache := {};
      this.guilds := guilds;
      this.upserts := 0;
    }

    /** The database upsert, which may fail; a failed upsert leaves the table as it was. */
    method Upsert(id: string, create: GuildRow) returns (ok: bool)
      modifies this`guilds, this`upserts
      ensures upserts == old(upserts) + 1
      ensures guilds == if ok then UpsertGuild(old(guilds), id, create) else old(guilds)
    {
      upserts := upserts + 1;
      ok :| true;
      if ok {
        guilds := UpsertGuild(guilds, id, create);
      }
    }

    /** `handleInteraction`: check the cache, upsert the guild, then mark the cache. */
    method HandleInteraction(i: Interaction) returns (outcome: Outcome)
      requires Valid()
      modifies this`cache, this`guilds, this`upserts
      ensures Valid()
      ensures State() == Handle(old(State()), locales, i, outcome != UpsertFailed)
      ensures outcome == NotInGuild <==> i.guild.None?
      ensures outcome == AlreadyKnown <==> i.guild.Some? && CacheKey(i.guild.value.id) in old(cache)
      ensures outcome == UpsertFailed ==> cache == old(cache)
    {
      HandlePreservesConsistent(State(), locales, i, true);
      HandlePreservesConsistent(State(), locales, i, false);
      if i.guild.None? {
        return NotInGuild;
      }
      var id := i.guild.value.id;
      var key := CacheKey(id);
      if key in cache {
        return AlreadyKnown;
      }
      var ok := Upsert(id, NewGuildRow(locales, i.guild.value.preferredLocale));
      if !ok {
        return UpsertFailed;
      }
      cache := cache + {key};
      return Registered;
    }
  }
}
