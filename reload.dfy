/** The test plugin's `reload` command (bot/plugins/test.py): it reloads an extension,
    falls back to loading it when it was not loaded, and reports the result as embed
    fields chosen by `reload_embed`. */
module Reload {
  import opened Common
  import opened Embeds

  /** An exception instance: its class name and `str(e)`. */
  datatype ExtError = ExtError(className: string, text: string)

  /** `reload_embed(mod, e)`. An exception instance is always truthy, and `e is
      ExtensionNotLoaded` compares the instance with the class, so every exception
      gives the failure fields. */
  function ReloadEmbed(mod: string, e: Option<ExtError>): seq<Field>
  {
    if e.None? then [
      Field("Loaded:", "```" + mod + ".py```", true),
      Field("Status:", "```SuccessfulSync```", true),
      Field("Info:", "```Establishing connection..\nAwaiting tasks..```", false)]
    else [
      Field("Failed:", "```" + mod + ".py```", true),
      Field("Status:", "```" + e.value.className + "```", true),
      Field("Info:", "```" + e.value.text + " is not a real module.```", false)]
  }

  /** Three fields with inline flags True, True, False; "Loaded:" exactly when no
      exception is passed, otherwise "Failed:" with the exception's class and text. */
  lemma ReloadEmbedMeaning(mod: string, e: Option<ExtError>)
    ensures var f := ReloadEmbed(mod, e);
      && |f| == 3 && f[0].inline && f[1].inline && !f[2].inline
      && (f[0].name == "Loaded:" <==> e.None?)
      && (f[0].name == "Failed:" <==> e.Some?)
      && f[0].value == "```" + mod + ".py```"
      && (e.Some? ==> f[1].value == "```" + e.value.className + "```")
  {
  }

  /** How `reload_extension` ended: success, a KeyError, ExtensionNotLoaded (after which
      `load_extension` runs and succeeds or raises), or any other exception. */
  datatype ReloadOutcome =
    | Reloaded
    | KeyErrorRaised(e: ExtError)
    | NotLoaded(e: ExtError, loadRaises: bool)
    | OtherRaised(e: ExtError)

  datatype ReloadReply =
    | NoModule                   // "Sorry you have to include a module to reload."
    | Respond(embed: Embed)      // the embed with the chosen fields
    | UnboundFields              // `fields` unbound in `finally`: UnboundLocalError

  /** `plugin_path` of the test plugin. */
  const TestPluginPath: string := "jonxhikari.bot.plugins."

  /** The fields the `finally` block finds bound, if any. */
  function ReloadFields(mod: string, outcome: ReloadOutcome): Option<seq<Field>>
  {
    match outcome
    case Reloaded => Some(ReloadEmbed(mod, None))
    case KeyErrorRaised(e) => Some(ReloadEmbed(mod, Some(e)))
    case NotLoaded(e, loadRaises) => if loadRaises then None else Some(ReloadEmbed(mod, Some(e)))
    case OtherRaised(_) => None
  }

  /** A reload that had to fall back to loading still reports "Failed:", and only a
      clean reload reports "Loaded:". */
  lemma FallbackLoadReportsFailure(mod: string, e: ExtError)
    ensures ReloadFields(mod, NotLoaded(e, false)).Some?
    ensures ReloadFields(mod, NotLoaded(e, false)).value[0].name == "Failed:"
    ensures forall o :: ReloadFields(mod, o).Some? && ReloadFields(mod, o).value[0].name == "Loaded:" <==> o == Reloaded
  {
    forall o
      ensures ReloadFields(mod, o).Some? && ReloadFields(mod, o).value[0].name == "Loaded:" <==> o == Reloaded
    {
      if ReloadFields(mod, o).Some? {
        ReloadEmbedMeaning(mod, if o.Reloaded? then None else Some(o.e));
      }
    }
  }

  /** `reload <mod>`: `target` is the extension it reloads (the name is not lower-cased). */
  method ReloadCmd(mod: string, outcome: ReloadOutcome) returns (reply: ReloadReply, target: string)
    ensures mod == "" ==> reply == NoModule
    ensures mod != "" ==> target == TestPluginPath + mod
    ensures mod != "" && ReloadFields(mod, outcome).None? ==> reply == UnboundFields
    ensures mod != "" && ReloadFields(mod, outcome).Some? ==>
      && reply.Respond? && fresh(reply.embed)
      && reply.embed.View() == EmbedView(None, None, None, ReloadFields(mod, outcome).value, None, "", None, "", None, None)
  {
    target := "";
    if mod == "" {
      return NoModule, target;
    }
    var embed := new Embed(None, None, None);
    target := TestPluginPath + mod;
    var fields := ReloadFields(mod, outcome);
    if fields.None? {
      return UnboundFields, target;
    }
    var fs := fields.value;
    var i := 0;
    while i < |fs|
      invariant 0 <= i <= |fs|
      invariant embed.View() == EmbedView(None, None, None, fs[..i], None, "", None, "", None, None)
    {
      assert fs[..i + 1] == fs[..i] + [fs[i]];
      embed.AddField(fs[i].name, fs[i].value, fs[i].inline);
      i := i + 1;
    }
    assert fs[..|fs|] == fs;
    reply := Respond(embed);
  }
}
