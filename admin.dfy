/** The admin and owner commands (core/plugins/admin.py): `prefix` views or sets the
    guild's prefix in the cache and the store; `load` loads a plugin and reports the
    result as embed fields. */
module Admin {
  import opened Common
  import opened Store
  import opened CoreBot
  import opened Embeds

  /** The replies of `prefix`, and the KeyError of a guild missing from the cache. */
  datatype PrefixReply = CurrentPrefix(p: string) | TooLong | Updated(p: string) | KeyErr(guild: int)

  /** The longest prefix `prefix` accepts. */
  const MaxPrefixLength: nat := 3

  class Admin {
    const bot: Bot

    constructor (bot: Bot)
      ensures this.bot == bot
    {
      this.bot := bot;
    }

    /** `prefix [new]` in `guild`: without a (non-empty) argument, report the cached
        prefix; a prefix over three characters is refused; otherwise the cache entry
        and then the store row get the new prefix. */
    method PrefixCmd(guild: int, arg: Option<string>) returns (reply: PrefixReply)
      modifies bot, bot.db, bot.guildTable
      ensures bot.invokes == old(bot.invokes)
      ensures arg == None || arg == Some("") ==>
        && reply == (if guild in old(bot.guilds) then CurrentPrefix(old(bot.guilds)[guild].prefix) else KeyErr(guild))
        && bot.guilds == old(bot.guilds) && bot.guildTable.rows == old(bot.guildTable.rows)
        && bot.db.calls == old(bot.db.calls)
      ensures arg.Some? && |arg.value| > MaxPrefixLength ==>
        && reply == TooLong
        && bot.guilds == old(bot.guilds) && bot.guildTable.rows == old(bot.guildTable.rows)
        && bot.db.calls == old(bot.db.calls)
      ensures arg.Some? && 0 < |arg.value| <= MaxPrefixLength && guild !in old(bot.guilds) ==>
        && reply == KeyErr(guild)
        && bot.guilds == old(bot.guilds) && bot.guildTable.rows == old(bot.guildTable.rows)
        && bot.db.calls == old(bot.db.calls)
      ensures arg.Some? && 0 < |arg.value| <= MaxPrefixLength && guild in old(bot.guilds) ==>
        && reply == Updated(arg.value)
        && bot.guilds == old(bot.guilds)[guild := old(bot.guilds)[guild].(prefix := arg.value)]
        && bot.guildTable.rows == (if guild in old(bot.guildTable.rows)
                                   then old(bot.guildTable.rows)[guild := arg.value]
                                   else old(bot.guildTable.rows))
        && bot.db.calls == old(bot.db.calls) + 1
      ensures reply.Updated? ==> bot.ResolvePrefix(Some(guild)) == Prefix(reply.p)
      ensures old(bot.CacheAgrees()) ==> bot.CacheAgrees()
    {
      if arg.None? || arg.value == "" {
        if guild !in bot.guilds {
          return KeyErr(guild);
        }
        return CurrentPrefix(bot.guilds[guild].prefix);
      }
      var p := arg.value;
      if |p| > MaxPrefixLength {
        return TooLong;
      }
      if guild !in bot.guilds {
        return KeyErr(guild);
      }
      bot.guilds := bot.guilds[guild := bot.guilds[guild].(prefix := p)];
      var cur := bot.guildTable.UpdatePrefix(guild, p);
      var count := bot.db.Execute(cur);
      reply := Updated(p);
    }
  }

  /** How `load_extension` ended. */
  datatype LoadOutcome = LoadOk | AlreadyLoaded(text: string) | OtherLoadError(className: string)

  /** `plugin_path` of the owner plugin. */
  const PluginPath: string := "jonxhikari.core.plugins."

  /** The extension `load <name>` loads: the module name is lower-cased first. */
  function LoadTarget(name: string): string
  {
    PluginPath + Lower(name)
  }

  /** The fields `load <name>` reports, or None when an exception other than
      ExtensionAlreadyLoaded leaves `fields` unbound in the `finally` block (an
      UnboundLocalError). */
  function LoadFields(name: string, outcome: LoadOutcome): Option<seq<Field>>
  {
    var m := Lower(name);
    match outcome
    case LoadOk => Some([
      Field("Loaded:", "```" + m + ".py```", true),
      Field("Status:", "```SuccessfulSync```", true),
      Field("Info:", "```Establishing connection..\nAwaiting tasks..```", false)])
    case AlreadyLoaded(text) => Some([
      Field("Failed:", "```" + m + ".py```", true),
      Field("Status:", "```ExtensionAlreadyLoaded```", true),
      Field("Info:", "```" + text + "```", false)])
    case OtherLoadError(_) => None
  }

  /** What the owner sees: three fields headed Loaded/Failed, Status and Info, inline
      True, True, False, naming the lower-cased module; a failure carries the
      exception's class name and text; any other exception reports nothing. */
  lemma LoadFieldsMeaning(name: string, outcome: LoadOutcome)
    ensures var f := LoadFields(name, outcome);
      && (f.Some? <==> !outcome.OtherLoadError?)
      && (f.Some? ==>
            && |f.value| == 3
            && f.value[0].name == (if outcome.LoadOk? then "Loaded:" else "Failed:")
            && f.value[0].value == "```" + Lower(name) + ".py```"
            && f.value[1].name == "Status:" && f.value[2].name == "Info:"
            && f.value[0].inline && f.value[1].inline && !f.value[2].inline)
      && (outcome.AlreadyLoaded? ==>
            f.value[1].value == "```ExtensionAlreadyLoaded```" && f.value[2].value == "```" + outcome.text + "```")
  {
  }

  /** Loading "Tags" and "tags" is the same command. */
  lemma {:induction false} LoadIgnoresCase(a: string, b: string, outcome: LoadOutcome)
    requires |a| == |b|
    requires forall i :: 0 <= i < |a| ==> LowerChar(a[i]) == LowerChar(b[i])
    ensures LoadTarget(a) == LoadTarget(b)
    ensures LoadFields(a, outcome) == LoadFields(b, outcome)
  {
    LowerIgnoresCase(a, b);
  }
}
