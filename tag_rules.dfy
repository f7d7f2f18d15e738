/** The tag table and the rules both tag front ends (core/plugins/tags.py with prefix
    commands, core/modules/tags_.py with slash commands) apply to it. Each rule gives
    the table after the command and the reply; the command methods in PrefixTags and
    SlashTags are proved to follow them, and the lemmas below state what the rules
    promise. */
module TagRules {
  import opened Common

  /** Chat-platform user ids (snowflakes) are positive, hence always truthy. */
  type UserId = x: int | x > 0 witness 1

  /** A row of the `tags` table is addressed by (GuildID, TagName). */
  datatype TagKey = TagKey(guild: int, name: string)

  datatype Tag = Tag(owner: UserId, content: string, uses: int)

  type Table = map<TagKey, Tag>

  // ---------------------------------------------------------------------------
  // Effects of the SQL statements the commands issue
  // ---------------------------------------------------------------------------

  /** UPDATE tags SET Uses = Uses + 1 WHERE GuildID = ? AND TagName = ? */
  function Bumped(t: Table, k: TagKey): Table
  {
    if k in t then t[k := t[k].(uses := t[k].uses + 1)] else t
  }

  /** UPDATE tags SET TagContent = ? WHERE TagName = ? AND GuildID = ? */
  function WithContent(t: Table, k: TagKey, content: string): Table
  {
    if k in t then t[k := t[k].(content := content)] else t
  }

  /** UPDATE tags SET TagOwner = ? WHERE GuildID = ? and TagName = ? */
  function WithOwner(t: Table, k: TagKey, owner: UserId): Table
  {
    if k in t then t[k := t[k].(owner := owner)] else t
  }

  /** DELETE FROM tags WHERE GuildID = ? and TagName = ? */
  function Without(t: Table, k: TagKey): Table
  {
    t - {k}
  }

  /** INSERT INTO tags (GuildID, TagOwner, TagName, TagContent); Uses takes the
      schema's default. */
  function Inserted(t: Table, k: TagKey, owner: UserId, content: string, usesDefault: int): Table
  {
    t[k := Tag(owner, content, usesDefault)]
  }

  /** SELECT TagName from tags WHERE GuildID = ? */
  function GuildNames(t: Table, guild: int): set<string>
  {
    set k | k in t && k.guild == guild :: k.name
  }

  /** Every command addresses the row by the lower-cased name. */
  function KeyOf(guild: int, name: string): TagKey
  {
    TagKey(guild, Lower(name))
  }

  /** Every stored name is already lower-case. */
  ghost predicate Folded(t: Table)
  {
    forall k :: k in t ==> Lower(k.name) == k.name
  }

  // ---------------------------------------------------------------------------
  // Front ends, confirmations, replies
  // ---------------------------------------------------------------------------

  datatype FrontEnd = PrefixCommands | SlashCommands

  /** `Tags.reserved` of the prefix plugin. */
  const PrefixReserved: seq<string> := ["create", "delete", "edit", "info", "list", "transfer"]

  /** `RESERVED_TAGS` of the slash component: the same names plus "get". */
  const SlashReserved: seq<string> := ["create", "delete", "edit", "info", "list", "transfer", "get"]

  function Reserved(fe: FrontEnd): seq<string>
  {
    match fe
    case PrefixCommands => PrefixReserved
    case SlashCommands => SlashReserved
  }

  /** How the 30-second wait after "would you like to create it now?" ended. */
  datatype Confirmation = Confirmed | Declined | TimedOut

  datatype Reply =
    | TagText(content: string)                 // the tag's content
    | NotValidTag(typed: string)               // "`name` is not a valid tag." (name as typed)
    | NoTags                                   // "No tags for this guild yet, make one!"
    | TagList(text: string)                    // "```a, b, c```"
    | ReservedName(names: string)              // "That tag name is reserved. All of these are: ..."
    | AlreadyCreated(name: string, mention: UserId)
    | Created(name: string, creator: UserId)
    | Edited(name: string, editor: UserId)
    | NotOwner(name: string, ownerMention: int) // "<mention> owns the `name` tag, not you."
    | ConfirmTimeout(name: string)             // "TIMEOUT FAILURE"
    | CreationAborted(name: string)            // "ABORTED"
    | Transferred(name: string, giver: UserId, receiver: UserId)
    | Deleted(name: string, remover: UserId)
    | NoSuchTag(name: string)                  // "No `name` tag exists."
    | GuildOnly                                // the slash group's guild check refused the call

  datatype Outcome = Outcome(table: Table, reply: Reply)

  // ---------------------------------------------------------------------------
  // The command rules
  // ---------------------------------------------------------------------------

  /** `tag <name>` / `tag get`: the UPDATE ... RETURNING TagContent counts the use
      whenever the row exists; `field` then hides an empty content. */
  function GetRule(t: Table, guild: int, name: string): Outcome
  {
    var k := KeyOf(guild, name);
    if k in t && t[k].content != "" then Outcome(Bumped(t, k), TagText(t[k].content))
    else Outcome(Bumped(t, k), NotValidTag(name))
  }

  /** The reply of `tag list` for the names the query returned, in its order. */
  function ListReply(names: seq<string>): Reply
  {
    if |names| == 0 then NoTags else TagList(Join(", ", names))
  }

  /** `tag create`: reserved names are refused before the store is touched; an
      existing name only counts a use; otherwise the author's tag is inserted. */
  function CreateRule(fe: FrontEnd, t: Table, guild: int, author: UserId, name: string,
                      content: string, usesDefault: int): Outcome
  {
    var k := KeyOf(guild, name);
    if k.name in Reserved(fe) then Outcome(t, ReservedName(Join(", ", Reserved(fe))))
    else if k in t then Outcome(Bumped(t, k), AlreadyCreated(k.name, author))
    else Outcome(Inserted(t, k, author, content, usesDefault), Created(k.name, author))
  }

  /** Who the "owns the tag, not you" reply of `tag edit` mentions: the prefix plugin
      names the stored owner, the slash command names the caller. */
  function EditRefusalMention(fe: FrontEnd, owner: UserId, author: UserId): UserId
  {
    match fe
    case PrefixCommands => owner
    case SlashCommands => author
  }

  /** `tag edit`: the owner rewrites the content; anyone else is refused; a missing
      tag is created only when the author confirms within the wait. */
  function EditRule(fe: FrontEnd, t: Table, guild: int, author: UserId, name: string,
                    content: string, answer: Confirmation, usesDefault: int): Outcome
  {
    var k := KeyOf(guild, name);
    if k in t then
      if t[k].owner == author then Outcome(WithContent(t, k, content), Edited(k.name, author))
      else Outcome(t, NotOwner(k.name, EditRefusalMention(fe, t[k].owner, author)))
    else
      match answer
      case Confirmed => Outcome(Inserted(t, k, author, content, usesDefault), Created(k.name, author))
      case Declined => Outcome(t, CreationAborted(k.name))
      case TimedOut => Outcome(t, ConfirmTimeout(k.name))
  }

  /** `tag transfer` (prefix commands only). */
  function TransferRule(t: Table, guild: int, author: UserId, name: string, member: UserId): Outcome
  {
    var k := KeyOf(guild, name);
    if k !in t then Outcome(t, NoSuchTag(k.name))
    else if t[k].owner == author then Outcome(WithOwner(t, k, member), Transferred(k.name, author, member))
    else Outcome(t, NotOwner(k.name, t[k].owner))
  }

  /** `tag delete` (prefix commands only). */
  function DeleteRule(t: Table, guild: int, author: UserId, name: string): Outcome
  {
    var k := KeyOf(guild, name);
    if k !in t then Outcome(t, NoSuchTag(k.name))
    else if t[k].owner == author then Outcome(Without(t, k), Deleted(k.name, author))
    else Outcome(t, NotOwner(k.name, t[k].owner))
  }

  // ---------------------------------------------------------------------------
  // What the rules promise
  // ---------------------------------------------------------------------------

  /** "Foo" and "foo" address the same row: every command does the same to the table. */
  lemma {:induction false} CaseInsensitiveCommands(fe: FrontEnd, t: Table, guild: int, author: UserId,
                                                   a: string, b: string, content: string,
                                                   answer: Confirmation, usesDefault: int, member: UserId)
    requires |a| == |b|
    requires forall i :: 0 <= i < |a| ==> LowerChar(a[i]) == LowerChar(b[i])
    ensures GetRule(t, guild, a).table == GetRule(t, guild, b).table
    ensures CreateRule(fe, t, guild, author, a, content, usesDefault)
         == CreateRule(fe, t, guild, author, b, content, usesDefault)
    ensures EditRule(fe, t, guild, author, a, content, answer, usesDefault)
         == EditRule(fe, t, guild, author, b, content, answer, usesDefault)
    ensures TransferRule(t, guild, author, a, member) == TransferRule(t, guild, author, b, member)
    ensures DeleteRule(t, guild, author, a) == DeleteRule(t, guild, author, b)
  {
    LowerIgnoresCase(a, b);
  }

  /** Every command writes lower-cased names only, so the table stays folded. */
  lemma CommandsKeepNamesFolded(fe: FrontEnd, t: Table, guild: int, author: UserId, name: string,
                                content: string, answer: Confirmation, usesDefault: int, member: UserId)
    requires Folded(t)
    ensures Folded(GetRule(t, guild, name).table)
    ensures Folded(CreateRule(fe, t, guild, author, name, content, usesDefault).table)
    ensures Folded(EditRule(fe, t, guild, author, name, content, answer, usesDefault).table)
    ensures Folded(TransferRule(t, guild, author, name, member).table)
    ensures Folded(DeleteRule(t, guild, author, name).table)
  {
    LowerIdempotent(name);
  }

  /** A successful get counts exactly one use and touches no other row; a tag with
      empty content is still counted but reported as not valid; an absent tag
      changes nothing. */
  lemma GetCountsOneUse(t: Table, guild: int, name: string)
    ensures var k, o := KeyOf(guild, name), GetRule(t, guild, name);
      && (k in t ==> k in o.table && o.table[k] == t[k].(uses := t[k].uses + 1))
      && (k in t && t[k].content == "" ==> o.reply == NotValidTag(name))
      && (k in t && t[k].content != "" ==> o.reply == TagText(t[k].content))
      && (k !in t ==> o.table == t && o.reply == NotValidTag(name))
      && o.table.Keys == t.Keys
      && (forall j :: j in t && j != k ==> o.table[j] == t[j])
  {
  }

  /** Uses are not idempotent: two gets of an existing tag count two uses. */
  lemma GetTwiceCountsTwo(t: Table, guild: int, name: string)
    requires KeyOf(guild, name) in t
    ensures var k, t2 := KeyOf(guild, name), GetRule(GetRule(t, guild, name).table, guild, name).table;
      k in t2 && t2[k].uses == t[k].uses + 2 && t2[k].content == t[k].content && t2[k].owner == t[k].owner
  {
  }

  /** A reserved name is refused with the table unchanged, on both front ends. */
  lemma ReservedNamesRefused(fe: FrontEnd, t: Table, guild: int, author: UserId, name: string,
                             content: string, usesDefault: int)
    requires Lower(name) in Reserved(fe)
    ensures CreateRule(fe, t, guild, author, name, content, usesDefault).table == t
    ensures CreateRule(fe, t, guild, author, name, content, usesDefault).reply.ReservedName?
  {
  }

  /** The two reserved sets differ in "get": the prefix plugin creates a tag "get"
      (typed "Get"), the slash command refuses it. */
  lemma GetReservedOnlyForSlash(t: Table, guild: int, author: UserId, content: string, usesDefault: int)
    requires TagKey(guild, "get") !in t
    ensures CreateRule(PrefixCommands, t, guild, author, "Get", content, usesDefault).table
         == t[TagKey(guild, "get") := Tag(author, content, usesDefault)]
    ensures CreateRule(SlashCommands, t, guild, author, "Get", content, usesDefault).table == t
  {
    assert Lower("Get") == "get";
    assert "get" !in PrefixReserved;
    assert SlashReserved[6] == "get";
  }

  /** Creating an existing name inserts nothing and counts exactly one use; creating
      a new name inserts exactly the author's tag. */
  lemma CreateExistingOnlyCounts(fe: FrontEnd, t: Table, guild: int, author: UserId, name: string,
                                 content: string, usesDefault: int)
    requires Lower(name) !in Reserved(fe)
    ensures var k, o := KeyOf(guild, name), CreateRule(fe, t, guild, author, name, content, usesDefault);
      && (k in t ==> o.table == t[k := t[k].(uses := t[k].uses + 1)])
      && (k !in t ==> o.table == t[k := Tag(author, content, usesDefault)] && o.table.Keys == t.Keys + {k})
  {
  }

  /** Edit, transfer and delete by anyone but the stored owner leave the table as it was. */
  lemma NonOwnerChangesNothing(fe: FrontEnd, t: Table, guild: int, author: UserId, name: string,
                               content: string, answer: Confirmation, usesDefault: int, member: UserId)
    requires KeyOf(guild, name) in t && t[KeyOf(guild, name)].owner != author
    ensures EditRule(fe, t, guild, author, name, content, answer, usesDefault).table == t
    ensures TransferRule(t, guild, author, name, member).table == t
    ensures DeleteRule(t, guild, author, name).table == t
  {
  }

  /** The owner's edit changes only TagContent, the owner's transfer only TagOwner, and
      the owner's delete removes only that row. */
  lemma OwnerChangesOneThing(fe: FrontEnd, t: Table, guild: int, author: UserId, name: string,
                             content: string, answer: Confirmation, usesDefault: int, member: UserId)
    requires KeyOf(guild, name) in t && t[KeyOf(guild, name)].owner == author
    ensures var k := KeyOf(guild, name);
      && EditRule(fe, t, guild, author, name, content, answer, usesDefault).table
         == t[k := Tag(t[k].owner, content, t[k].uses)]
      && TransferRule(t, guild, author, name, member).table == t[k := Tag(member, t[k].content, t[k].uses)]
      && DeleteRule(t, guild, author, name).table.Keys == t.Keys - {k}
      && (forall j :: j in t && j != k ==> DeleteRule(t, guild, author, name).table[j] == t[j])
  {
  }

  /** Editing a missing tag writes only when the author confirms. */
  lemma EditMissingNeedsConfirmation(fe: FrontEnd, t: Table, guild: int, author: UserId, name: string,
                                     content: string, answer: Confirmation, usesDefault: int)
    requires KeyOf(guild, name) !in t
    ensures var o := EditRule(fe, t, guild, author, name, content, answer, usesDefault);
      && (answer == Confirmed ==> o.table == t[KeyOf(guild, name) := Tag(author, content, usesDefault)])
      && (answer != Confirmed ==> o.table == t)
  {
  }

  /** Transfer or delete of a missing tag fails and changes nothing. */
  lemma MissingTagFails(t: Table, guild: int, author: UserId, name: string, member: UserId)
    requires KeyOf(guild, name) !in t
    ensures TransferRule(t, guild, author, name, member) == Outcome(t, NoSuchTag(Lower(name)))
    ensures DeleteRule(t, guild, author, name) == Outcome(t, NoSuchTag(Lower(name)))
  {
  }

  /** The life of one tag: absent, created by `a`, edited by `a`, transferred to `b`,
      deleted by `b`; afterwards the row is gone and every other row is as before. */
  lemma {:induction false} TagLifecycle(t: Table, guild: int, a: UserId, b: UserId, name: string,
                                        c1: string, c2: string, usesDefault: int)
    requires Lower(name) !in PrefixReserved
    requires KeyOf(guild, name) !in t
    ensures var t1 := CreateRule(PrefixCommands, t, guild, a, name, c1, usesDefault).table;
      var t2 := EditRule(PrefixCommands, t1, guild, a, name, c2, TimedOut, usesDefault).table;
      var t3 := TransferRule(t2, guild, a, name, b).table;
      var t4 := DeleteRule(t3, guild, b, name).table;
      && t2[KeyOf(guild, name)] == Tag(a, c2, usesDefault)
      && t3[KeyOf(guild, name)] == Tag(b, c2, usesDefault)
      && t4 == t
  {
    var k := KeyOf(guild, name);
    var t1 := CreateRule(PrefixCommands, t, guild, a, name, c1, usesDefault).table;
    assert t1 == t[k := Tag(a, c1, usesDefault)];
    var t2 := EditRule(PrefixCommands, t1, guild, a, name, c2, TimedOut, usesDefault).table;
    assert t2 == t[k := Tag(a, c2, usesDefault)];
    var t3 := TransferRule(t2, guild, a, name, b).table;
    assert t3 == t[k := Tag(b, c2, usesDefault)];
    var t4 := DeleteRule(t3, guild, b, name).table;
    assert t4 == t[k := Tag(b, c2, usesDefault)] - {k};
    assert t4 == t;
  }
}
