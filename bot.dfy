/** The bot object (core/bot.py) as far as the guild cache goes: `guilds` caches each
    guild's settings (its prefix and, once set, its starboard channel), the `guilds`
    table of the store holds the prefixes, and the prefix resolver and the DM check
    read the cache. */
module CoreBot {
  import opened Common
  import opened Sql
  import opened Store

  /** One entry of `bot.guilds`: `{"prefix": p}` plus `"starboard"` once it is set. */
  datatype GuildEntry = GuildEntry(prefix: string, starboard: Option<int>)

  /** What `resolve_prefix` produces: a prefix, or the NameError of its line that
      names the undefined `_id`. */
  datatype PrefixResult = Prefix(p: string) | NameErr

  /** `_dm_command`: true exactly when the message came from a guild, whatever its
      name says. It is installed as a global check, so prefix commands run in guilds only. */
  function DmCommand(guildId: Option<int>): bool
  {
    guildId.Some?
  }

  /** The rows `on_starting` would cache are well formed: an integer id and a text prefix. */
  predicate GuildRecord(r: Row)
  {
    |r| >= 2 && r[0].Int? && r[1].Text?
  }

  /** The cache after `guilds[id] = {"prefix": p}` for every record, in order. */
  function Fill(m: map<int, GuildEntry>, records: seq<Row>): map<int, GuildEntry>
    requires forall i :: 0 <= i < |records| ==> GuildRecord(records[i])
  {
    if records == [] then m
    else
      var n := |records| - 1;
      assert GuildRecord(records[n]);
      Fill(m, records[..n])[records[n][0].i := GuildEntry(records[n][1].s, None)]
  }

  /** Filling from the full `SELECT GuildID, Prefix` result caches every stored guild
      with its stored prefix (and no starboard), and keeps every other entry. */
  lemma {:induction false} FillCachesEveryRow(m: map<int, GuildEntry>, ids: seq<int>, prefixes: map<int, string>)
    requires forall i :: 0 <= i < |ids| ==> ids[i] in prefixes
    ensures forall i :: 0 <= i < |ids| ==> GuildRecord(GuildRows(ids, prefixes)[i])
    ensures var f := Fill(m, GuildRows(ids, prefixes));
      && (forall g :: g in f <==> g in m || g in ids)
      && (forall g :: g in ids ==> f[g] == GuildEntry(prefixes[g], None))
      && (forall g :: g in m && g !in ids ==> f[g] == m[g])
  {
    var rows := GuildRows(ids, prefixes);
    if ids != [] {
      var n := |ids| - 1;
      FillCachesEveryRow(m, ids[..n], prefixes);
      assert rows[..n] == GuildRows(ids[..n], prefixes);
      var before := Fill(m, rows[..n]);
      assert rows[n] == [Int(ids[n]), Text(prefixes[ids[n]])];
      assert Fill(m, rows) == before[ids[n] := GuildEntry(prefixes[ids[n]], None)];
      assert forall g :: g in ids <==> g in ids[..n] || g == ids[n];
    }
  }

  class Bot {
    var guilds: map<int, GuildEntry>
    /** `_invokes`: completed commands. */
    var invokes: nat
    const db: Database
    const guildTable: GuildTable

    constructor (db: Database, guildTable: GuildTable)
      ensures guilds == map[] && invokes == 0 && this.db == db && this.guildTable == guildTable
    {
      guilds := map[];
      invokes := 0;
      this.db := db;
      this.guildTable := guildTable;
    }

    /** Every cached prefix is the stored one. */
    ghost predicate CacheAgrees()
      reads this, guildTable
    {
      forall g :: g in guilds ==> g in guildTable.rows && guildTable.rows[g] == guilds[g].prefix
    }

    /** `resolve_prefix` for a message from `guildId` (None in a direct message). */
    function ResolvePrefix(guildId: Option<int>): PrefixResult
      reads this
    {
      if guildId.Some? && guildId.value in guilds then Prefix(guilds[guildId.value].prefix)
      else if !DmCommand(guildId) then NameErr
      else Prefix("$")
    }

    /** `on_guild_available`: only an uncached guild gets an `INSERT OR IGNORE`, which
        keeps an existing row; the cache itself is not touched. */
    method OnGuildAvailable(guild: int)
      modifies db, guildTable
      ensures guild in guilds ==> guildTable.rows == old(guildTable.rows) && db.calls == old(db.calls)
      ensures guild !in guilds ==>
        && guildTable.rows == (if guild in old(guildTable.rows) then old(guildTable.rows)
                               else old(guildTable.rows)[guild := guildTable.defaultPrefix])
        && db.calls == old(db.calls) + 1
      ensures old(CacheAgrees()) ==> CacheAgrees()
    {
      if guild !in guilds {
        var cur := guildTable.InsertOrIgnore(guild);
        var count := db.Execute(cur);
      }
    }

    /** The loop of `on_starting`: each record replaces its guild's cache entry. */
    method CacheRecords(records: seq<Row>)
      requires forall i :: 0 <= i < |records| ==> GuildRecord(records[i])
      modifies this
      ensures guilds == Fill(old(guilds), records)
      ensures invokes == old(invokes)
    {
      var i := 0;
      while i < |records|
        invariant 0 <= i <= |records|
        invariant guilds == Fill(old(guilds), records[..i])
        invariant invokes == old(invokes)
      {
        assert records[..i + 1][..i] == records[..i];
        guilds := guilds[records[i][0].i := GuildEntry(records[i][1].s, None)];
        i := i + 1;
      }
      assert records[..|records|] == records;
    }

    /** `on_starting`: connect (two counted calls; a build script that raises ends the
        handler there), then the cache fill as written: `records` hands back an empty
        list (it returns a second `fetchall` of a drained cursor), so nothing is cached. */
    method OnStarting(scriptRaises: bool) returns (started: bool)
      modifies this, db
      ensures started == !scriptRaises
      ensures guilds == old(guilds) && invokes == old(invokes)
      ensures db.calls == old(db.calls) + (if started then 3 else 1)
    {
      started := db.Connect(scriptRaises);
      if !started {
        return;
      }
      var cur, order := guildTable.SelectAll();
      var records := db.Records(cur);
      CacheRecords(records);
    }
  }

  /** The resolver against the store: while the cache agrees with the guild table, a
      cached guild resolves to the prefix stored for it; an uncached guild gets "$",
      and only a direct message raises the NameError. */
  lemma ResolvePrefixAgreesWithStore(bot: Bot, guildId: Option<int>)
    ensures bot.CacheAgrees() && guildId.Some? && guildId.value in bot.guilds ==>
      guildId.value in bot.guildTable.rows
      && bot.ResolvePrefix(guildId) == Prefix(bot.guildTable.rows[guildId.value])
    ensures guildId.Some? && guildId.value !in bot.guilds ==> bot.ResolvePrefix(guildId) == Prefix("$")
    ensures bot.ResolvePrefix(guildId) == NameErr <==> !DmCommand(guildId)
  {
    if bot.CacheAgrees() && guildId.Some? && guildId.value in bot.guilds {
      var g := guildId.value;
      assert g in bot.guildTable.rows && bot.guildTable.rows[g] == bot.guilds[g].prefix;
    }
  }

  /** Had `records` returned the selected rows, a fresh cache filled from the store
      would agree with it on every guild. */
  lemma FillFromStoreAgrees(ids: seq<int>, prefixes: map<int, string>)
    requires Enumerates(ids, prefixes.Keys)
    ensures forall i :: 0 <= i < |ids| ==> GuildRecord(GuildRows(ids, prefixes)[i])
    ensures var f := Fill(map[], GuildRows(ids, prefixes));
      f.Keys == prefixes.Keys && forall g :: g in f ==> f[g].prefix == prefixes[g]
  {
    FillCachesEveryRow(map[], ids, prefixes);
    var f := Fill(map[], GuildRows(ids, prefixes));
    assert forall g :: g in f.Keys <==> g in prefixes.Keys;
  }
}
