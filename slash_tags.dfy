/** The slash-command tag component (core/modules/tags_.py): `/tag get`, `/tag list`,
    `/tag create` and `/tag edit`. The group's check refuses every call made outside a
    guild; inside one, each command follows the same rule of TagRules as its prefix
    counterpart, with the slash front end's reserved names and refusal mention. */
module SlashTags {
  import opened Common
  import opened Sql
  import opened TagRules
  import opened Store

  /** A message posted in some guild channel while the edit prompt waits. */
  datatype GuildMessage = GuildMessage(authorId: int, channelId: int, guildId: int, content: string)

  /** The text the confirming message must start with: `"y" or "Y"` evaluates to "y". */
  const ConfirmPrefix: string := OrText(Some("y"), "Y")

  /** The `wait_for` predicate: any message by the author, in any channel of any guild. */
  predicate FromAuthor(m: GuildMessage, author: UserId)
  {
    m.authorId == author
  }

  /** How the 30-second wait ends, given the guild messages posted before the timeout. */
  function MessageAnswer(messages: seq<GuildMessage>, author: UserId): Confirmation
  {
    match FirstMatch(messages, m => FromAuthor(m, author))
    case None => TimedOut
    case Some(i) => if StartsWith(messages[i].content, ConfirmPrefix) then Confirmed else Declined
  }

  /** The author's first message decides: it confirms exactly when it begins with a
      lower-case "y"; an upper-case "Y", as in "Yes", declines. */
  lemma MessageAnswerMeaning(messages: seq<GuildMessage>, author: UserId)
    ensures MessageAnswer(messages, author) == TimedOut <==>
      forall j :: 0 <= j < |messages| ==> messages[j].authorId != author
    ensures MessageAnswer(messages, author) == Confirmed <==>
      exists i :: 0 <= i < |messages| && messages[i].authorId == author &&
        |messages[i].content| > 0 && messages[i].content[0] == 'y' &&
        forall j :: 0 <= j < i ==> messages[j].authorId != author
  {
    var p := m => FromAuthor(m, author);
    var r := FirstMatch(messages, p);
    assert ConfirmPrefix == "y";
    if r.Some? {
      var i := r.value;
      if MessageAnswer(messages, author) != Confirmed {
        forall i' | 0 <= i' < |messages| && messages[i'].authorId == author &&
            |messages[i'].content| > 0 && messages[i'].content[0] == 'y'
          ensures exists j :: 0 <= j < i' && messages[j].authorId == author
        {
          assert p(messages[i']);
          assert messages[i'].content[..1] == "y";
          assert i' != i;
          assert FromAuthor(messages[i], author);
        }
      } else {
        assert messages[i].content[..1] == "y";
        assert messages[i].content[0] == 'y';
      }
    }
  }

  /** Answering "Yes" does not create the tag, and an answer in an unrelated channel
      or guild is taken as the answer. */
  lemma YesDeclines(author: UserId, channel: int, guild: int)
    ensures MessageAnswer([GuildMessage(author, channel, guild, "Yes")], author) == Declined
    ensures MessageAnswer([GuildMessage(author, channel, guild, "yes")], author) == Confirmed
  {
    assert ConfirmPrefix == "y";
    assert "Yes"[..1] == "Y";
    var yes := [GuildMessage(author, channel, guild, "yes")];
    assert yes[0].content[..1] == "y";
  }

  /** `/tag get name`. */
  method TagGet(db: Database, table: TagTable, guildId: Option<int>, name: string) returns (reply: Reply)
    modifies db, table
    ensures guildId.None? ==> reply == GuildOnly && table.rows == old(table.rows) && db.calls == old(db.calls)
    ensures guildId.Some? ==> Outcome(table.rows, reply) == GetRule(old(table.rows), guildId.value, name)
    ensures guildId.Some? ==> db.calls == old(db.calls) + 1
  {
    if guildId.None? {
      reply := GuildOnly;
      return;
    }
    var cur := table.BumpUsesReturning(KeyOf(guildId.value, name), ContentColumn);
    var content := db.Field(cur);
    if content.Some? {
      reply := TagText(Str(content.value));
    } else {
      reply := NotValidTag(name);
    }
  }

  /** `/tag list`: the guild's names in the order the query returns them. */
  method TagList(db: Database, table: TagTable, guildId: Option<int>) returns (reply: Reply, ghost order: seq<string>)
    modifies db
    ensures guildId.None? ==> reply == GuildOnly && db.calls == old(db.calls)
    ensures guildId.Some? ==> Enumerates(order, GuildNames(table.rows, guildId.value)) && reply == ListReply(order)
    ensures guildId.Some? ==> db.calls == old(db.calls) + 1
  {
    order := [];
    if guildId.None? {
      reply := GuildOnly;
      return;
    }
    var cur;
    cur, order := table.SelectNames(guildId.value);
    var tags := db.Column(cur);
    if |tags| == 0 {
      reply := NoTags;
      return;
    }
    var names := seq(|tags|, i requires 0 <= i < |tags| => if tags[i].Text? then tags[i].s else "");
    assert names == order;
    reply := TagRules.TagList(Join(", ", names));
  }

  /** `/tag create name content`. */
  method TagCreate(db: Database, table: TagTable, guildId: Option<int>, author: UserId,
                   name: string, content: string) returns (reply: Reply)
    modifies db, table
    ensures guildId.None? ==> reply == GuildOnly && table.rows == old(table.rows) && db.calls == old(db.calls)
    ensures guildId.Some? ==>
      Outcome(table.rows, reply)
      == CreateRule(SlashCommands, old(table.rows), guildId.value, author, name, content, table.usesDefault)
    ensures guildId.Some? && Lower(name) in SlashReserved ==> db.calls == old(db.calls)
    ensures guildId.Some? && Lower(name) !in SlashReserved ==>
      db.calls == old(db.calls) + (if KeyOf(guildId.value, name) in old(table.rows) then 1 else 2)
  {
    if guildId.None? {
      reply := GuildOnly;
      return;
    }
    var n := Lower(name);
    if n in SlashReserved {
      reply := ReservedName(Join(", ", SlashReserved));
      return;
    }
    var k := TagKey(guildId.value, n);
    var cur := table.BumpUsesReturning(k, OwnerColumn);
    var owner := db.Field(cur);
    if owner.Some? {
      reply := AlreadyCreated(n, author);
      return;
    }
    var ins := table.Insert(k, author, content);
    var count := db.Execute(ins);
    reply := Created(n, author);
  }

  /** `/tag edit name content`; when the tag is missing, the wait sees `messages`. */
  method TagEdit(db: Database, table: TagTable, guildId: Option<int>, author: UserId,
                 name: string, content: string, messages: seq<GuildMessage>) returns (reply: Reply)
    modifies db, table
    ensures guildId.None? ==> reply == GuildOnly && table.rows == old(table.rows) && db.calls == old(db.calls)
    ensures guildId.Some? ==>
      Outcome(table.rows, reply)
      == EditRule(SlashCommands, old(table.rows), guildId.value, author, name, content,
                  MessageAnswer(messages, author), table.usesDefault)
    ensures guildId.Some? ==>
      db.calls == old(db.calls) + (if KeyOf(guildId.value, name) in old(table.rows)
                                   then (if old(table.rows)[KeyOf(guildId.value, name)].owner == author then 2 else 1)
                                   else (if MessageAnswer(messages, author).Confirmed? then 2 else 1))
  {
    if guildId.None? {
      reply := GuildOnly;
      return;
    }
    var n := Lower(name);
    var k := TagKey(guildId.value, n);
    var cur := table.SelectOwner(k);
    var owner := db.Field(cur);
    if owner.Some? {
      if owner.value == Int(author) {
        var upd := table.UpdateContent(k, content);
        var count := db.Execute(upd);
        reply := Edited(n, author);
      } else {
        reply := NotOwner(n, author);
      }
      return;
    }
    var answer := MessageAnswer(messages, author);
    match answer {
      case TimedOut =>
        reply := ConfirmTimeout(n);
      case Confirmed =>
        var ins := table.Insert(k, author, content);
        var count := db.Execute(ins);
        reply := Created(n, author);
      case Declined =>
        reply := CreationAborted(n);
    }
  }
}
