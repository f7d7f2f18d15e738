/** The SQLite store as the core sees it: the `tags` and `guilds` tables as maps, and
    one method per SQL statement the core issues. A statement changes its table as the
    SQL text says and returns the cursor the driver would hand back (its result rows
    and its row count). */
module Store {
  import opened Common
  import opened Sql
  import opened TagRules

  datatype TagColumn = ContentColumn | OwnerColumn

  function ColumnValue(tag: Tag, col: TagColumn): Value
  {
    match col
    case ContentColumn => Text(tag.content)
    case OwnerColumn => Int(tag.owner)
  }

  /** The rows a SELECT of TagName yields, in the order the engine lists them. */
  function NameRows(names: seq<string>): (rows: seq<Row>)
    ensures |rows| == |names|
    ensures forall i :: 0 <= i < |names| ==> rows[i] == [Text(names[i])]
  {
    seq(|names|, i requires 0 <= i < |names| => [Text(names[i])])
  }

  /** The rows a SELECT of GuildID, Prefix yields for the listed guilds. */
  function GuildRows(ids: seq<int>, prefixes: map<int, string>): (rows: seq<Row>)
    requires forall i :: 0 <= i < |ids| ==> ids[i] in prefixes
    ensures |rows| == |ids|
    ensures forall i :: 0 <= i < |ids| ==> rows[i] == [Int(ids[i]), Text(prefixes[ids[i]])]
  {
    seq(|ids|, i requires 0 <= i < |ids| => [Int(ids[i]), Text(prefixes[ids[i]])])
  }

  /** The `tags` table: (GuildID, TagName) -> (TagOwner, TagContent, Uses). */
  class TagTable {
    var rows: Table
    /** The schema's default for Uses on insert (the build script is not modelled). */
    const usesDefault: int

    constructor (usesDefault: int)
      ensures rows == map[] && this.usesDefault == usesDefault
    {
      rows := map[];
      this.usesDefault := usesDefault;
    }

    /** UPDATE tags SET Uses = Uses + 1 WHERE GuildID = ? AND TagName = ? RETURNING <col> */
    method BumpUsesReturning(k: TagKey, col: TagColumn) returns (cur: Cursor)
      modifies this
      ensures fresh(cur)
      ensures rows == Bumped(old(rows), k)
      ensures cur.pending == if k in old(rows) then [[ColumnValue(old(rows)[k], col)]] else []
    {
      if k in rows {
        cur := new Cursor([[ColumnValue(rows[k], col)]], 1);
        rows := Bumped(rows, k);
      } else {
        cur := new Cursor([], 0);
      }
    }

    /** SELECT TagOwner FROM tags WHERE GuildID = ? AND TagName = ? */
    method SelectOwner(k: TagKey) returns (cur: Cursor)
      ensures fresh(cur)
      ensures cur.pending == if k in rows then [[Int(rows[k].owner)]] else []
    {
      cur := new Cursor(if k in rows then [[Int(rows[k].owner)]] else [], -1);
    }

    /** UPDATE tags SET TagContent = ? WHERE TagName = ? AND GuildID = ? */
    method UpdateContent(k: TagKey, content: string) returns (cur: Cursor)
      modifies this
      ensures fresh(cur)
      ensures rows == WithContent(old(rows), k, content)
      ensures cur.rowcount == if k in old(rows) then 1 else 0
    {
      cur := new Cursor([], if k in rows then 1 else 0);
      rows := WithContent(rows, k, content);
    }

    /** UPDATE tags SET TagOwner = ? WHERE GuildID = ? and TagName = ? */
    method UpdateOwner(k: TagKey, owner: UserId) returns (cur: Cursor)
      modifies this
      ensures fresh(cur)
      ensures rows == WithOwner(old(rows), k, owner)
      ensures cur.rowcount == if k in old(rows) then 1 else 0
    {
      cur := new Cursor([], if k in rows then 1 else 0);
      rows := WithOwner(rows, k, owner);
    }

    /** DELETE FROM tags WHERE GuildID = ? and TagName = ? */
    method DeleteRow(k: TagKey) returns (cur: Cursor)
      modifies this
      ensures fresh(cur)
      ensures rows == Without(old(rows), k)
      ensures cur.rowcount == if k in old(rows) then 1 else 0
    {
      cur := new Cursor([], if k in rows then 1 else 0);
      rows := Without(rows, k);
    }

    /** INSERT INTO tags (GuildID, TagOwner, TagName, TagContent) VALUES (?, ?, ?, ?);
        (GuildID, TagName) is taken to be unique, so the row must be new. */
    method Insert(k: TagKey, owner: UserId, content: string) returns (cur: Cursor)
      requires k !in rows
      modifies this
      ensures fresh(cur)
      ensures rows == Inserted(old(rows), k, owner, content, usesDefault)
      ensures cur.rowcount == 1
    {
      cur := new Cursor([], 1);
      rows := Inserted(rows, k, owner, content, usesDefault);
    }

    /** SELECT TagName from tags WHERE GuildID = ?; without ORDER BY the engine picks
        the order, which `order` reports. */
    method SelectNames(guild: int) returns (cur: Cursor, ghost order: seq<string>)
      ensures fresh(cur)
      ensures Enumerates(order, GuildNames(rows, guild))
      ensures cur.pending == NameRows(order)
    {
      var names := Enumerate(GuildNames(rows, guild));
      order := names;
      cur := new Cursor(NameRows(names), -1);
    }
  }

  /** The `guilds` table: GuildID -> Prefix. */
  class GuildTable {
    var rows: map<int, string>
    /** The schema's default Prefix for a row inserted with only its GuildID. */
    const defaultPrefix: string

    constructor (defaultPrefix: string)
      ensures rows == map[] && this.defaultPrefix == defaultPrefix
    {
      rows := map[];
      this.defaultPrefix := defaultPrefix;
    }

    /** INSERT OR IGNORE INTO guilds (GuildID) VALUES (?): an existing row is kept. */
    method InsertOrIgnore(guild: int) returns (cur: Cursor)
      modifies this
      ensures fresh(cur)
      ensures rows == if guild in old(rows) then old(rows) else old(rows)[guild := defaultPrefix]
      ensures cur.rowcount == if guild in old(rows) then 0 else 1
    {
      cur := new Cursor([], if guild in rows then 0 else 1);
      if guild !in rows {
        rows := rows[guild := defaultPrefix];
      }
    }

    /** UPDATE guilds SET Prefix = ? WHERE GuildID = ? */
    method UpdatePrefix(guild: int, prefix: string) returns (cur: Cursor)
      modifies this
      ensures fresh(cur)
      ensures rows == if guild in old(rows) then old(rows)[guild := prefix] else old(rows)
      ensures cur.rowcount == if guild in old(rows) then 1 else 0
    {
      cur := new Cursor([], if guild in rows then 1 else 0);
      if guild in rows {
        rows := rows[guild := prefix];
      }
    }

    /** SELECT GuildID, Prefix FROM guilds, in the engine's order. */
    method SelectAll() returns (cur: Cursor, ghost order: seq<int>)
      ensures fresh(cur)
      ensures Enumerates(order, rows.Keys)
      ensures |cur.pending| == |order|
      ensures forall i :: 0 <= i < |order| ==> cur.pending[i] == [Int(order[i]), Text(rows[order[i]])]
    {
      var ids := Enumerate(rows.Keys);
      order := ids;
      cur := new Cursor(GuildRows(ids, rows), -1);
    }
  }
}
