/** The prefix-command tag plugin (core/plugins/tags.py): `tag <name>`, `tag list`,
    `tag create`, `tag edit` (with a reaction prompt when the tag is missing),
    `tag transfer` and `tag delete`. Each command goes through the database wrapper
    and is proved to follow the matching rule of TagRules. Prefix commands only run in
    guilds (the bot's global check refuses direct messages), so the guild id is given. */
module PrefixTags {
  import opened Common
  import opened Sql
  import opened TagRules
  import opened Store

  /** The custom emoji ids the edit prompt offers. */
  const YesEmoji: int := 853792470651502603
  const NoEmoji: int := 853792496118267954

  datatype ReactionEvent = ReactionEvent(messageId: int, userId: int, emojiId: int)

  /** The `wait_for` predicate: the author's yes or no reaction on the prompt message. */
  predicate PromptReaction(e: ReactionEvent, prompt: int, author: UserId)
  {
    e.messageId == prompt && e.userId == author && (e.emojiId == YesEmoji || e.emojiId == NoEmoji)
  }

  /** How the 30-second wait ends, given the reactions that arrive before the timeout. */
  function ReactionAnswer(reactions: seq<ReactionEvent>, prompt: int, author: UserId): Confirmation
  {
    match FirstMatch(reactions, e => PromptReaction(e, prompt, author))
    case None => TimedOut
    case Some(i) => if reactions[i].emojiId == NoEmoji then Declined else Confirmed
  }

  /** The first yes or no of the author on the prompt decides; reactions by anyone
      else, on other messages, or with other emoji are ignored. */
  lemma ReactionAnswerMeaning(reactions: seq<ReactionEvent>, prompt: int, author: UserId)
    ensures ReactionAnswer(reactions, prompt, author) == TimedOut <==>
      forall j :: 0 <= j < |reactions| ==> !PromptReaction(reactions[j], prompt, author)
    ensures ReactionAnswer(reactions, prompt, author) == Confirmed <==>
      exists i :: 0 <= i < |reactions| && reactions[i] == ReactionEvent(prompt, author, YesEmoji) &&
        forall j :: 0 <= j < i ==> !PromptReaction(reactions[j], prompt, author)
  {
    var p := e => PromptReaction(e, prompt, author);
    var m := FirstMatch(reactions, p);
    if m.Some? {
      var i := m.value;
      if ReactionAnswer(reactions, prompt, author) != Confirmed {
        forall i' | 0 <= i' < |reactions| && reactions[i'] == ReactionEvent(prompt, author, YesEmoji)
          ensures exists j :: 0 <= j < i' && PromptReaction(reactions[j], prompt, author)
        {
          assert p(reactions[i']);
          assert i' != i;
          assert PromptReaction(reactions[i], prompt, author);
        }
      }
    }
  }

  /** A reaction by any other member, at any point of the wait, changes nothing:
      the answer is the one the author's reactions alone give. */
  lemma OtherMembersCannotConfirm(reactions: seq<ReactionEvent>, j: nat, e: ReactionEvent, prompt: int, author: UserId)
    requires j <= |reactions| && e.userId != author
    ensures ReactionAnswer(reactions[..j] + [e] + reactions[j..], prompt, author) == ReactionAnswer(reactions, prompt, author)
  {
    var p := e => PromptReaction(e, prompt, author);
    FirstMatchSkips(reactions, j, e, p);
  }

  /** The plugin object; `db` is `bot.db` and `table` the store's `tags` table. */
  class Tags {
    const db: Database
    const table: TagTable

    constructor (db: Database, table: TagTable)
      ensures this.db == db && this.table == table
    {
      this.db := db;
      this.table := table;
    }

    /** `tag <name>`. */
    method TagGroup(guild: int, name: string) returns (reply: Reply)
      modifies db, table
      ensures Outcome(table.rows, reply) == GetRule(old(table.rows), guild, name)
      ensures db.calls == old(db.calls) + 1
    {
      var cur := table.BumpUsesReturning(KeyOf(guild, name), ContentColumn);
      var content := db.Field(cur);
      if content.Some? {
        reply := TagText(Str(content.value));
      } else {
        reply := NotValidTag(name);
      }
    }

    /** `tag list`: the guild's names in the order the query returns them. */
    method TagListCmd(guild: int) returns (reply: Reply, ghost order: seq<string>)
      modifies db
      ensures Enumerates(order, GuildNames(table.rows, guild))
      ensures reply == ListReply(order)
      ensures db.calls == old(db.calls) + 1
    {
      var cur;
      cur, order := table.SelectNames(guild);
      var tags := db.Column(cur);
      if |tags| == 0 {
        reply := NoTags;
        return;
      }
      var names := seq(|tags|, i requires 0 <= i < |tags| => Str(tags[i]));
      assert names == order;
      reply := TagList(Join(", ", names));
    }

    /** `tag create <name> <content>`. */
    method TagCreateCmd(guild: int, author: UserId, name: string, content: string) returns (reply: Reply)
      modifies db, table
      ensures Outcome(table.rows, reply)
           == CreateRule(PrefixCommands, old(table.rows), guild, author, name, content, table.usesDefault)
      ensures Lower(name) in PrefixReserved ==> db.calls == old(db.calls)
      ensures Lower(name) !in PrefixReserved ==>
        db.calls == old(db.calls) + (if KeyOf(guild, name) in old(table.rows) then 1 else 2)
    {
      var n := Lower(name);
      if n in PrefixReserved {
        reply := ReservedName(Join(", ", PrefixReserved));
        return;
      }
      var k := TagKey(guild, n);
      var cur := table.BumpUsesReturning(k, OwnerColumn);
      var owner := db.Field(cur);
      if owner.Some? {
        reply := AlreadyCreated(n, author);
        return;
      }
      var ins := table.Insert(k, author, content);
      var count := db.Execute(ins);
      reply := Created(n, author);
    }

    /** `tag edit <name> <content>`; when the tag is missing, the prompt message
        `prompt` waits for `reactions`. */
    method TagEditCmd(guild: int, author: UserId, name: string, content: string,
                   prompt: int, reactions: seq<ReactionEvent>) returns (reply: Reply)
      modifies db, table
      ensures Outcome(table.rows, reply)
           == EditRule(PrefixCommands, old(table.rows), guild, author, name, content,
                       ReactionAnswer(reactions, prompt, author), table.usesDefault)
      ensures db.calls == old(db.calls) + (if KeyOf(guild, name) in old(table.rows)
                                           then (if old(table.rows)[KeyOf(guild, name)].owner == author then 2 else 1)
                                           else (if ReactionAnswer(reactions, prompt, author).Confirmed? then 2 else 1))
    {
      var n := Lower(name);
      var k := TagKey(guild, n);
      var cur := table.SelectOwner(k);
      var owner := db.Field(cur);
      if owner.Some? {
        if owner.value == Int(author) {
          var upd := table.UpdateContent(k, content);
          var count := db.Execute(upd);
          reply := Edited(n, author);
        } else {
          reply := NotOwner(n, owner.value.i);
        }
        return;
      }
      var answer := ReactionAnswer(reactions, prompt, author);
      match answer {
        case TimedOut =>
          reply := ConfirmTimeout(n);
        case Declined =>
          reply := CreationAborted(n);
        case Confirmed =>
          var ins := table.Insert(k, author, content);
          var count := db.Execute(ins);
          reply := Created(n, author);
      }
    }

    /** `tag transfer <name> <member>`. */
    method TagTransferCmd(guild: int, author: UserId, name: string, member: UserId) returns (reply: Reply)
      modifies db, table
      ensures Outcome(table.rows, reply) == TransferRule(old(table.rows), guild, author, name, member)
      ensures db.calls == old(db.calls)
        + (if KeyOf(guild, name) in old(table.rows) && old(table.rows)[KeyOf(guild, name)].owner == author then 2 else 1)
    {
      var n := Lower(name);
      var k := TagKey(guild, n);
      var cur := table.SelectOwner(k);
      var owner := db.Field(cur);
      if owner.Some? {
        if owner.value == Int(author) {
          var upd := table.UpdateOwner(k, member);
          var count := db.Execute(upd);
          reply := Transferred(n, author, member);
        } else {
          reply := NotOwner(n, owner.value.i);
        }
        return;
      }
      reply := NoSuchTag(n);
    }

    /** `tag delete <name>`. */
    method TagDeleteCmd(guild: int, author: UserId, name: string) returns (reply: Reply)
      modifies db, table
      ensures Outcome(table.rows, reply) == DeleteRule(old(table.rows), guild, author, name)
      ensures db.calls == old(db.calls)
        + (if KeyOf(guild, name) in old(table.rows) && old(table.rows)[KeyOf(guild, name)].owner == author then 2 else 1)
    {
      var n := Lower(name);
      var k := TagKey(guild, n);
      var cur := table.SelectOwner(k);
      var owner := db.Field(cur);
      if owner.Some? {
        if owner.value == Int(author) {
          var del := table.DeleteRow(k);
          var count := db.Execute(del);
          reply := Deleted(n, author);
        } else {
          reply := NotOwner(n, owner.value.i);
        }
        return;
      }
      reply := NoSuchTag(n);
    }
  }
}
