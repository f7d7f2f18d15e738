/** The event listeners (core/plugins/events.py): the command counter, the two error
    listeners, and the star reaction that posts a starred message to the guild's
    starboard channel, caching that channel on first use. */
module Events {
  import opened Common
  import opened CoreBot
  import Errors

  /** The star emoji the listener reacts to: U+2B50 and U+1F31F. */
  const Stars: seq<string> := ["\U{2B50}", "\U{1F31F}"]

  /** The channel stored as the starboard when a guild has none yet. */
  const DefaultStarboard: int := 825219011796533249

  datatype User = User(id: int, isBot: bool)

  /** The reacted-to message: its id, its author and its guild (None in a DM). */
  datatype Message = Message(id: int, author: User, guildId: Option<int>)

  datatype StarResult =
    | Ignored                // not a star
    | ReactionRemoved        // the star does not qualify and is taken off
    | GuildKeyError          // the message's guild is not in `bot.guilds`
    | ChannelMissing         // the starboard channel is not in the cache (AttributeError on None)
    | Posted(channel: int)   // the notice was sent to this channel

  /** A star counts when neither side is a bot and nobody stars their own message. */
  predicate Qualifies(reactor: User, message: Message)
  {
    !message.author.isBot && !reactor.isBot && reactor.id != message.author.id
  }

  /** What a star reaction does to the cache, and what it results in; `channels` are the
      guild channels the bot's cache can find. */
  function StarRule(guilds: map<int, GuildEntry>, emoji: string, reactor: User, message: Message,
                    channels: set<int>): (map<int, GuildEntry>, StarResult)
  {
    if emoji !in Stars then (guilds, Ignored)
    else if !Qualifies(reactor, message) then (guilds, ReactionRemoved)
    else if message.guildId.None? || message.guildId.value !in guilds then (guilds, GuildKeyError)
    else
      var g := message.guildId.value;
      match guilds[g].starboard
      case Some(c) => (guilds, if c in channels then Posted(c) else ChannelMissing)
      case None =>
        if DefaultStarboard in channels then
          (guilds[g := guilds[g].(starboard := Some(DefaultStarboard))], Posted(DefaultStarboard))
        else (guilds, ChannelMissing)
  }

  /** Reactions other than the two stars, and stars that do not qualify, change nothing. */
  lemma OnlyQualifyingStarsAct(guilds: map<int, GuildEntry>, emoji: string, reactor: User, message: Message,
                               channels: set<int>)
    ensures emoji !in Stars ==> StarRule(guilds, emoji, reactor, message, channels) == (guilds, Ignored)
    ensures emoji in Stars && !Qualifies(reactor, message) ==>
      StarRule(guilds, emoji, reactor, message, channels) == (guilds, ReactionRemoved)
    ensures emoji in Stars && (reactor.id == message.author.id || reactor.isBot || message.author.isBot) ==>
      StarRule(guilds, emoji, reactor, message, channels).1 == ReactionRemoved
  {
  }

  /** A guild with a starboard keeps its cache entry and gets the post; one without
      stores the hard-coded channel (and nothing else changes) before posting there. */
  lemma StarboardCaching(guilds: map<int, GuildEntry>, emoji: string, reactor: User, message: Message,
                         channels: set<int>)
    requires emoji in Stars && Qualifies(reactor, message)
    requires message.guildId.Some? && message.guildId.value in guilds
    ensures var g, r := message.guildId.value, StarRule(guilds, emoji, reactor, message, channels);
      && (guilds[g].starboard.Some? ==> r.0 == guilds)
      && (guilds[g].starboard.Some? && guilds[g].starboard.value in channels ==> r.1 == Posted(guilds[g].starboard.value))
      && (guilds[g].starboard.None? && DefaultStarboard in channels ==>
            r.0 == guilds[g := GuildEntry(guilds[g].prefix, Some(825219011796533249))]
            && r.1 == Posted(825219011796533249))
      && r.0.Keys == guilds.Keys
      && (forall h :: h in guilds && h != g ==> r.0[h] == guilds[h])
      && r.0[g].prefix == guilds[g].prefix
  {
  }

  /** After one qualifying star has cached the starboard, later stars in that guild go
      to the same channel and leave the cache as it is. */
  lemma StarboardSettles(guilds: map<int, GuildEntry>, emoji: string, reactor: User, message: Message,
                         emoji2: string, reactor2: User, message2: Message, channels: set<int>)
    requires StarRule(guilds, emoji, reactor, message, channels).1.Posted?
    requires emoji2 in Stars && Qualifies(reactor2, message2) && message2.guildId == message.guildId
    ensures var after := StarRule(guilds, emoji, reactor, message, channels);
      StarRule(after.0, emoji2, reactor2, message2, channels) == after
  {
  }

  /** A guild missing from the cache, or a message outside any guild, raises the KeyError. */
  lemma UncachedGuildRaises(guilds: map<int, GuildEntry>, emoji: string, reactor: User, message: Message,
                            channels: set<int>)
    requires emoji in Stars && Qualifies(reactor, message)
    requires message.guildId.None? || message.guildId.value !in guilds
    ensures StarRule(guilds, emoji, reactor, message, channels) == (guilds, GuildKeyError)
  {
  }

  /** The listeners plugin. */
  class Events {
    const bot: Bot

    constructor (bot: Bot)
      ensures this.bot == bot
    {
      this.bot := bot;
    }

    /** `on_cmd`: one more completed command. */
    method OnCmd()
      modifies bot
      ensures bot.invokes == old(bot.invokes) + 1
      ensures bot.guilds == old(bot.guilds)
    {
      bot.invokes := bot.invokes + 1;
    }

    /** `on_cmd_exc`: the command error goes to `parse` with the command's context. */
    function OnCmdExc(exc: Errors.Exc, ctx: Errors.Ctx): Errors.ParseOutcome
    {
      Errors.Parse(exc, Some(ctx))
    }

    /** `on_exc`: any other exception goes to `parse` without a context. */
    function OnExc(exc: Errors.Exc): Errors.ParseOutcome
    {
      Errors.Parse(exc, None)
    }

    /** `on_reaction_add`. */
    method OnReactionAdd(emoji: string, reactor: User, message: Message, channels: set<int>)
      returns (result: StarResult)
      modifies bot
      ensures (bot.guilds, result) == StarRule(old(bot.guilds), emoji, reactor, message, channels)
      ensures bot.invokes == old(bot.invokes)
    {
      if emoji !in Stars {
        return Ignored;
      }
      if !(!message.author.isBot && !reactor.isBot && reactor.id != message.author.id) {
        return ReactionRemoved;
      }
      if message.guildId.None? || message.guildId.value !in bot.guilds {
        return GuildKeyError;
      }
      var g := message.guildId.value;
      var entry := bot.guilds[g];
      if entry.starboard.Some? {
        result := if entry.starboard.value in channels then Posted(entry.starboard.value) else ChannelMissing;
        return;
      }
      if DefaultStarboard !in channels {
        return ChannelMissing;
      }
      bot.guilds := bot.guilds[g := entry.(starboard := Some(DefaultStarboard))];
      result := Posted(DefaultStarboard);
    }
  }

  /** Command errors reach the context-dependent replies; the generic listener, which
      passes no context, fails with an AttributeError on the three command errors and
      re-raises everything else. */
  lemma ErrorListeners(events: Events, exc: Errors.Exc, ctx: Errors.Ctx)
    ensures exc.NotEnoughArguments? || exc.MissingRequiredPermission? || exc.ConverterFailure? ==>
      events.OnExc(exc) == Errors.AttributeErrorOnNone && events.OnCmdExc(exc, ctx).Raised?
    ensures exc.KeyErr? || exc.OtherException? ==>
      events.OnExc(exc) == events.OnCmdExc(exc, ctx) == Errors.Raised(exc, None, Some(Errors.ExcText(exc)))
  {
    Errors.KeyErrorBranchUnreachable(exc);
  }
}
