# Jonxhikari core, modelled in Dafny

Jonxhikari is a Discord bot. Most of it is glue between a gateway SDK, two command
frameworks and an SQLite driver. This project models the bot's own logic and proves
properties of it:

- **The per-guild tag store** (`TagRules`, `Store`, `PrefixTags`, `SlashTags`):
  - The store is a table keyed by (GuildID, lower-cased TagName). Each row holds
    TagOwner, TagContent and a Uses counter.
  - The pure rules in `TagRules` state what get, list, create, edit, transfer and
    delete do to that table, and what they reply.
  - The prefix plugin (`PrefixTags.Tags`) and the slash commands (`SlashTags`) run
    these commands by issuing statements against `Store.TagTable`, through
    `Sql.Database`. Each command method is proved to have the effect its rule
    states.
  - The two front ends differ in their reserved names and in how they confirm
    creating a tag on a missing edit. The prefix plugin waits for a reaction on its
    prompt. The slash command waits for the author's next guild message.
- **The guild prefix cache** (`CoreBot`, `Admin`):
  - `Bot.guilds` maps a guild to its prefix and starboard channel.
  - `resolve_prefix` reads this cache. `_dm_command` only tests whether a message has a guild id.
  - `on_guild_available` writes the guild table only for uncached guilds.
  - `on_starting` fills the cache with the rows `records` returns, which as written is none.
  - The `prefix` command reads the cache or updates it, keeping the cache and the
    store in agreement.
- **`Config.get`** (`Config`): the typed `"type:value"` environment parser and its
  error outcomes.
- **The database wrapper** (`Sql`): `field`, `record`, `records`, `column`,
  `execute`, `executemany`, `executescript` and the `_calls` counter. The cursor is
  modelled as a sequence of rows that fetching consumes.
- **The `run` command** (`Compile`):
  - the code-block regular expression, with its greedy match semantics;
  - the language cache;
  - the execute request;
  - the choice of result fields and colour.
- **Small rule tables:**
  - embed defaulting (`Embeds`);
  - the exception dispatch in `Errors.parse` (`Errors`);
  - the star reaction and starboard cache (`Events`);
  - the test plugin's reload reporting (`Reload`);
  - the owner `load` command's fields (`Admin`).

The code is modelled as written, except for the points listed under "## Left out".
Several behaviours look unintended.
They are modelled faithfully and stated by lemmas:

- `records` returns the rows left after a first `fetchall`, so it always returns
  nothing. As a result, `on_starting` caches no guild.
- `startswith("y" or "Y")` accepts only a lower-case `y`.
- `e is ExtensionNotLoaded` compares an instance with its class, so every reload
  exception reports failure.
- `color` is unbound when a program prints nothing, and `fields` is unbound on
  other reload exceptions.
- `resolve_prefix` refers to the undefined name `_id`.
- The `KeyError` branch of `parse` is unreachable.

Network replies, reaction and message events, the bot's channel cache and the SQL
engine's schema defaults are parameters of the model.

## Model

| member | source | states |
|---|---|---|
| `Sql.FieldNoneCases` | jonxhikari/core/db/db.py:43-46 | `field` gives None exactly when there is no row or the first column is falsy (NULL, 0 or the empty string) |
| `Sql.ColumnOf` | jonxhikari/core/db/db.py:65 | one entry per row, in cursor order, each the row's first column |
| `Sql.Cursor.FetchOne` | jonxhikari/core/db/db.py:43 | returns the first pending row and consumes it, or None when none is left |
| `Sql.Cursor.FetchAll` | jonxhikari/core/db/db.py:57-59 | returns every pending row and leaves none |
| `Sql.Database.Field` | jonxhikari/core/db/db.py:39-46 | one more call; the result is the first column of the first row when it is truthy, else None |
| `Sql.Database.Record` | jonxhikari/core/db/db.py:48-52 | one more call; the first row, or None when there is none |
| `Sql.Database.Records` | jonxhikari/core/db/db.py:54-59 | one more call; the second `fetchall` after a draining one returns no rows |
| `Sql.Database.Column` | jonxhikari/core/db/db.py:61-65 | one more call; the first column of every row, in order, draining the cursor |
| `Sql.Database.Execute` | jonxhikari/core/db/db.py:67-71 | one more call; returns the cursor's rowcount |
| `Sql.Database.ExecuteMany` | jonxhikari/core/db/db.py:73-77 | one more call; returns the cursor's rowcount |
| `Sql.Database.ExecuteScript` | jonxhikari/core/db/db.py:79-83 | the counter moves only when the script ran without raising |
| `Sql.Database.Connect` | jonxhikari/core/db/db.py:19-27 | the WAL pragma and the build script add two calls; a script that raises stops after the first |
| `Sql.FieldOf` | jonxhikari/core/db/db.py:43-46 | what `field` returns for a cursor's rows: the first row's first column if it is truthy, else None (its cases are `Sql.FieldNoneCases`) |
| `Store.NameRows` | jonxhikari/core/plugins/tags.py:31 | the rows of `SELECT TagName`: one single-column row per name, in order; a definition, used by `Store.TagTable.SelectNames` and `PrefixTags.Tags.TagListCmd` |
| `Store.GuildRows` | jonxhikari/core/bot.py:69 | the rows of `SELECT GuildID, Prefix`: one (id, prefix) row per guild, in order; a definition, whose fill is proved in `CoreBot.FillFromStoreAgrees` |
| `Store.TagTable.BumpUsesReturning` | jonxhikari/core/plugins/tags.py:19-21 | `UPDATE … Uses = Uses + 1 … RETURNING`: only the addressed row's Uses grows by one; the cursor holds the requested column of that row, or nothing when the row is absent |
| `Store.TagTable.SelectOwner` | jonxhikari/core/plugins/tags.py:71-74 | the owner of the addressed row, or no row |
| `Store.TagTable.UpdateContent` | jonxhikari/core/plugins/tags.py:79-82 | only TagContent of the addressed row changes; rowcount 1 when the row exists, else 0 |
| `Store.TagTable.UpdateOwner` | jonxhikari/core/plugins/tags.py:138-141 | only TagOwner of the addressed row changes; rowcount 1 when the row exists, else 0 |
| `Store.TagTable.DeleteRow` | jonxhikari/core/plugins/tags.py:168-170 | only the addressed row is removed; rowcount 1 when it existed, else 0 |
| `Store.TagTable.Insert` | jonxhikari/core/plugins/tags.py:62-65 | a row with the given owner, content and the schema's Uses default is added; nothing else changes |
| `Store.TagTable.SelectNames` | jonxhikari/core/plugins/tags.py:31-33 | the cursor holds exactly the guild's tag names, each once, in some order |
| `Store.GuildTable.InsertOrIgnore` | jonxhikari/core/bot.py:58-61 | `INSERT OR IGNORE`: an existing row is kept; a new guild gets the default prefix |
| `Store.GuildTable.UpdatePrefix` | jonxhikari/core/plugins/admin.py:35 | only the guild's Prefix changes; an absent guild changes nothing |
| `Store.GuildTable.SelectAll` | jonxhikari/core/bot.py:69 | every stored guild once, with its prefix |
| `Common.Lower` | jonxhikari/core/plugins/tags.py:21 | `str.lower` on ASCII: same length, each character lower-cased |
| `Common.LowerIdempotent` | jonxhikari/core/plugins/tags.py:44 | lower-casing twice is lower-casing once |
| `Common.LowerIgnoresCase` | jonxhikari/core/plugins/tags.py:44 | names differing only in letter case lower-case to the same name |
| `Common.IndexOf` | jonxhikari/config.py:15 | the first occurrence of a character, or None exactly when it does not occur |
| `Common.IndexOfAfter` | jonxhikari/config.py:15 | a split with `maxsplit=1` finds the first separator even when the rest contains more |
| `Common.SplitJoin` | jonxhikari/core/utils/errors.py:16 | the `"\n".join` of newline-free parts can be read back: splitting it at newlines gives the parts |
| `Common.Replace` | jonxhikari/core/utils/errors.py:21 | `str.replace` of one character: same length, every occurrence replaced, none left |
| `Common.NatDigits` | jonxhikari/config.py:21 | the decimal digits of a natural number: non-empty, digits only |
| `Common.FirstMatch` | jonxhikari/core/utils/errors.py:15-35 | the first element satisfying a test, or None exactly when none does |
| `Common.FirstMatchSkips` | jonxhikari/core/plugins/tags.py:101-105 | an event the `wait_for` predicate rejects, inserted anywhere, changes neither whether an event is taken nor which one |
| `Common.Enumerate` | jonxhikari/core/plugins/tags.py:33 | an order of a set that lists every element once |
| `TagRules.CaseInsensitiveCommands` | jonxhikari/core/plugins/tags.py:16-182 | names differing only in letter case give the same effect under get, create, edit, transfer and delete |
| `TagRules.CommandsKeepNamesFolded` | jonxhikari/core/plugins/tags.py:44 | every stored tag name stays lower-case after any command |
| `TagRules.GetCountsOneUse` | jonxhikari/core/plugins/tags.py:16-26 | get counts exactly one use on an existing tag and touches no other row; an empty content is counted but reported as not a valid tag; an absent tag changes nothing |
| `TagRules.GetTwiceCountsTwo` | jonxhikari/core/plugins/tags.py:19-22 | two gets count two uses |
| `TagRules.ReservedNamesRefused` | jonxhikari/core/plugins/tags.py:41-48 | a name in the reserved set (line 12) is refused with the table unchanged |
| `TagRules.GetReservedOnlyForSlash` | jonxhikari/core/modules/tags_.py:22-30 | "get" can be created through the prefix plugin but is refused by the slash command |
| `TagRules.CreateExistingOnlyCounts` | jonxhikari/core/plugins/tags.py:51-65 | creating an existing name inserts nothing and counts one use; a new name is inserted with the author as owner and the given content |
| `TagRules.NonOwnerChangesNothing` | jonxhikari/core/plugins/tags.py:68-182 | edit, transfer and delete by anyone but the stored owner leave the table unchanged |
| `TagRules.OwnerChangesOneThing` | jonxhikari/core/plugins/tags.py:68-172 | the owner's edit changes only TagContent, the owner's transfer only TagOwner, and the owner's delete removes only that row |
| `TagRules.EditMissingNeedsConfirmation` | jonxhikari/core/plugins/tags.py:92-126 | editing a missing tag inserts it exactly when the answer is a confirmation; a refusal or a timeout writes nothing |
| `TagRules.MissingTagFails` | jonxhikari/core/plugins/tags.py:128-182 | transfer or delete of a missing tag fails and changes nothing |
| `TagRules.TagLifecycle` | jonxhikari/core/plugins/tags.py:41-182 | create, edit, transfer, delete of one tag leaves the rest of the table as it was |
| `PrefixTags.ReactionAnswerMeaning` | jonxhikari/core/plugins/tags.py:101-117 | a timeout exactly when the author never reacts on the prompt; a confirmation exactly when the author's first reaction there is the yes emoji |
| `PrefixTags.OtherMembersCannotConfirm` | jonxhikari/core/plugins/tags.py:101-102 | another member's yes on the prompt is ignored |
| `PrefixTags.Tags.TagGroup` | jonxhikari/core/plugins/tags.py:16-26 | table and reply are those of the get rule; one database call |
| `PrefixTags.Tags.TagListCmd` | jonxhikari/core/plugins/tags.py:28-39 | replies with exactly the guild's tag names joined by ", ", or the no-tags reply when there are none |
| `PrefixTags.Tags.TagCreateCmd` | jonxhikari/core/plugins/tags.py:41-66 | table and reply are those of the create rule with the prefix plugin's reserved names; no database call for a reserved name |
| `PrefixTags.Tags.TagEditCmd` | jonxhikari/core/plugins/tags.py:68-126 | table and reply are those of the edit rule, with the answer read from the reactions; two database calls when it writes, one otherwise |
| `PrefixTags.Tags.TagTransferCmd` | jonxhikari/core/plugins/tags.py:128-156 | table and reply are those of the transfer rule; two database calls for the owner's transfer, one otherwise |
| `PrefixTags.Tags.TagDeleteCmd` | jonxhikari/core/plugins/tags.py:158-182 | table and reply are those of the delete rule; two database calls for the owner's delete, one otherwise |
| `SlashTags.MessageAnswerMeaning` | jonxhikari/core/modules/tags_.py:128-140 | the author's first guild message decides, from any channel; it confirms exactly when it starts with a lower-case `y`; with no such message the wait times out |
| `SlashTags.YesDeclines` | jonxhikari/core/modules/tags_.py:140 | "Yes" declines and "yes" confirms, since `"y" or "Y"` is `"y"` |
| `SlashTags.TagGet` | jonxhikari/core/modules/tags_.py:38-49 | outside a guild (the group's check at line 35) nothing happens; inside one, the get rule and one database call |
| `SlashTags.TagList` | jonxhikari/core/modules/tags_.py:52-63 | outside a guild nothing happens; inside one, the guild's names joined, or the no-tags reply, with one database call |
| `SlashTags.TagCreate` | jonxhikari/core/modules/tags_.py:66-94 | outside a guild nothing happens; inside one, the create rule with the slash reserved names |
| `SlashTags.TagEdit` | jonxhikari/core/modules/tags_.py:97-155 | outside a guild nothing happens; inside one, the edit rule with the answer read from the author's messages; two database calls when it writes, one otherwise |
| `Config.DigitsRoundTrip` | jonxhikari/config.py:21 | reading back the decimal digits of a natural number gives that number |
| `Config.ParseDecimal` | jonxhikari/config.py:21 | `int()` of any integer's decimal text gives the integer |
| `Config.ParseRejects` | jonxhikari/config.py:21 | an empty payload, a lone sign, or any non-digit after the first character is not an integer |
| `Config.SplitsAtFirstColon` | jonxhikari/config.py:15 | the type tag ends at the first colon and the payload keeps any later colons |
| `Config.GetStr` | jonxhikari/config.py:17-18 | `str:` returns the payload unchanged |
| `Config.GetInt` | jonxhikari/config.py:20-21 | `int:` returns the payload's integer, or the ValueError for a payload that is not one |
| `Config.GetBool` | jonxhikari/config.py:23-36 | `bool:` gives True exactly for "True"/"true", False exactly for "False"/"false", and the invalid-boolean error otherwise |
| `Config.GetUnknownType` | jonxhikari/config.py:41 | any other type tag gives the invalid-type error |
| `Config.GetWithoutTypeTag` | jonxhikari/config.py:15-39 | the not-defined error exactly for a missing variable; a value with no colon raises the unpacking ValueError |
| `Embeds.BuildDefaults` | jonxhikari/core/utils/embeds.py:50-78 | colour #713dc7 when none or a falsy one is given; thumbnail the bot's avatar; author "Jonxhikari"; footer "Invoked by: <username>" with the author's avatar, else the bot's; title, description, fields and image unchanged |
| `Embeds.GivenValuesWin` | jonxhikari/core/utils/embeds.py:66-74 | a given non-empty thumbnail, header or footer is used as given |
| `Embeds.Embed.AddField` | jonxhikari/core/utils/embeds.py:62 | appends one field and changes nothing else |
| `Embeds.Embeds.Build` | jonxhikari/core/utils/embeds.py:13-48 | with fields, the finished embed is exactly the defaulted view; without, a TypeError after only the primed embed was made |
| `Embeds.Embeds.Prime` | jonxhikari/core/utils/embeds.py:50-57 | a new embed with title, description and the defaulted colour |
| `Embeds.Embeds.PlusFields` | jonxhikari/core/utils/embeds.py:59-62 | every field, in the given order, with its name, value and inline flag |
| `Embeds.Embeds.Extras` | jonxhikari/core/utils/embeds.py:64-78 | thumbnail, author, footer and image set with their defaults |
| `Errors.Bulleted` | jonxhikari/core/utils/errors.py:16 | one " > " line per element, in order; a definition, whose read-back is proved in `Errors.MissingArgsLines` |
| `Errors.KeyErrorBranchUnreachable` | jonxhikari/core/utils/errors.py:15-35 | the KeyError branch never runs; each command error takes its own branch, and every other Exception the generic one |
| `Errors.ParseNeverSwallows` | jonxhikari/core/utils/errors.py:15-31 | `parse` returns normally exactly for non-Exceptions; with a context, every Exception is re-raised unchanged after the reply or print; with none, the three command errors fail with an AttributeError before any reply or re-raise |
| `Errors.ReplaceAppend` | jonxhikari/core/utils/errors.py:21 | replacing characters distributes over concatenation |
| `Errors.Spaced` | jonxhikari/core/utils/errors.py:21 | each permission name with its underscores turned into spaces; a definition, related to the joined block by `Errors.PermissionLines` |
| `Errors.PermissionLines` | jonxhikari/core/utils/errors.py:21 | replacing underscores in the joined block is the same as listing each name with underscores replaced, one " > " line each |
| `Errors.MissingArgsLines` | jonxhikari/core/utils/errors.py:16-17 | the missing-arguments block splits back into exactly one " > " line per argument, in order |
| `Errors.PermissionsWithoutUnderscores` | jonxhikari/core/utils/errors.py:21 | no underscore is left in the permission block |
| `Events.OnlyQualifyingStarsAct` | jonxhikari/core/plugins/events.py:30-59 | a reaction that is not a star does nothing; a star from a bot, on a bot's message, or on one's own message is removed |
| `Events.StarboardCaching` | jonxhikari/core/plugins/events.py:42-56 | a cached starboard gets the post and the cache is unchanged; otherwise channel 825219011796533249 is stored for that guild only, then posted to |
| `Events.StarboardSettles` | jonxhikari/core/plugins/events.py:42-56 | after one post, later qualifying stars in that guild post to the same channel and leave the cache as is |
| `Events.UncachedGuildRaises` | jonxhikari/core/plugins/events.py:42 | a guild missing from the cache raises the KeyError and changes nothing |
| `Events.Events.OnCmd` | jonxhikari/core/plugins/events.py:12-15 | the invoke counter grows by exactly one |
| `Events.Events.OnReactionAdd` | jonxhikari/core/plugins/events.py:28-59 | cache and result are those of the star rule |
| `Events.ErrorListeners` | jonxhikari/core/plugins/events.py:17-25 | the command listener passes the context; the generic one passes None, so the command errors fail with an AttributeError and other exceptions are re-raised by both |
| `Reload.ReloadEmbedMeaning` | jonxhikari/bot/plugins/test.py:6-18 | three fields flagged inline, inline, not inline; "Loaded:" exactly when no exception is given, "Failed:" with the class name for any exception |
| `Reload.FallbackLoadReportsFailure` | jonxhikari/bot/plugins/test.py:42-50 | a reload that falls back to loading still reports "Failed:"; only a clean reload reports "Loaded:" |
| `Reload.ReloadCmd` | jonxhikari/bot/plugins/test.py:32-56 | an empty name only replies; an unbound `fields` raises; otherwise the embed holds exactly the chosen fields, in order |
| `CoreBot.FillCachesEveryRow` | jonxhikari/core/bot.py:69-73 | filling the cache from (id, prefix) rows caches each row's prefix and keeps every other entry |
| `CoreBot.FillFromStoreAgrees` | jonxhikari/core/bot.py:69-73 | filling an empty cache from the whole guild table caches exactly the stored guilds with their prefixes |
| `CoreBot.ResolvePrefixAgreesWithStore` | jonxhikari/core/bot.py:91-104 | while cache and guild table agree, a cached guild resolves to the prefix stored for it; an uncached guild gets "$"; only a message outside any guild raises the NameError |
| `CoreBot.Bot.OnGuildAvailable` | jonxhikari/core/bot.py:55-61 | only an uncached guild reaches `INSERT OR IGNORE`; existing rows and the cache are left intact |
| `CoreBot.Bot.CacheRecords` | jonxhikari/core/bot.py:69-73 | the cache after the loop is the fill of the old cache with the records |
| `CoreBot.Bot.OnStarting` | jonxhikari/core/bot.py:63-73 | `connect` adds two calls and `records` one, three in all; a build script that raises ends the handler after one; since `records` returns no rows, the cache is unchanged |
| `Admin.Admin.PrefixCmd` | jonxhikari/core/plugins/admin.py:20-36 | no or an empty prefix only reports the cached one; more than 3 characters is refused; an uncached guild raises the KeyError; otherwise cache and store get the same prefix, a later `resolve_prefix` returns it, and cache/store agreement is kept |
| `Admin.LoadFieldsMeaning` | jonxhikari/core/plugins/admin.py:57-81 | success gives Loaded/SuccessfulSync, ExtensionAlreadyLoaded gives Failed with the class name and text, both naming the lower-cased module; any other error leaves `fields` unbound |
| `Admin.LoadIgnoresCase` | jonxhikari/core/plugins/admin.py:57-60 | module names differing in letter case load the same extension and report the same fields |
| `Compile.WordRun` | jonxhikari/core/plugins/compile.py:48 | `\w+` taken greedily: the longest run of word characters |
| `Compile.LastFence` | jonxhikari/core/plugins/compile.py:48 | the last three backticks at or after a position, or None when there are none |
| `Compile.ParseSound` | jonxhikari/core/plugins/compile.py:48-57 | a parse result is a match of the pattern, and the groups are the matched text |
| `Compile.ParseComplete` | jonxhikari/core/plugins/compile.py:48-57 | whenever the pattern matches, the parse succeeds with the same language and a source reaching at least as far, up to the last backticks |
| `Compile.FenceInPrefix` | jonxhikari/core/plugins/compile.py:48 | appending text keeps every fence that lies wholly before it |
| `Compile.TrailingTextIgnored` | jonxhikari/core/plugins/compile.py:48 | text after the last backticks does not change the parse |
| `Compile.LangNamesMembership` | jonxhikari/core/plugins/compile.py:34-38 | a name is cached exactly when some runtime has it as its language or as an alias |
| `Compile.Title` | jonxhikari/core/plugins/compile.py:77 | `str.title` on ASCII: each character is lower-cased when it follows a letter and upper-cased otherwise; the length is kept |
| `Compile.TitleIdempotent` | jonxhikari/core/plugins/compile.py:77 | title-casing twice is title-casing once |
| `Compile.ResultMeaning` | jonxhikari/core/plugins/compile.py:76-89 | Language and Version first, then Output exactly when stdout is non-empty and Errors exactly when stderr is; red whenever there is stderr, green for stdout alone, unbound for neither |
| `TagRules.GetRule` | jonxhikari/core/plugins/tags.py:16-26 | get: one more use on the lower-cased name's row and its content as the reply, or "not a valid tag" when the row is absent or its content is empty |
| `TagRules.ListReply` | jonxhikari/core/plugins/tags.py:28-39 | list: the names joined by ", ", or the no-tags reply for none |
| `TagRules.CreateRule` | jonxhikari/core/plugins/tags.py:41-66 | create: a reserved name is refused untouched; an existing name gets one more use and the already-created reply; otherwise the author's row is inserted |
| `TagRules.EditRule` | jonxhikari/core/plugins/tags.py:68-126 | edit: the owner's edit replaces the content; anyone else is refused; a missing tag is inserted on a confirmation, and left absent on a refusal or a timeout |
| `TagRules.TransferRule` | jonxhikari/core/plugins/tags.py:128-156 | transfer: the owner's transfer replaces the owner; anyone else is refused; a missing tag fails |
| `TagRules.DeleteRule` | jonxhikari/core/plugins/tags.py:158-182 | delete: the owner's delete removes the row; anyone else is refused; a missing tag fails |
| `PrefixTags.ReactionAnswer` | jonxhikari/core/plugins/tags.py:101-118 | the wait's outcome: the author's first yes or no reaction on the prompt, or a timeout when there is none (its meaning is `PrefixTags.ReactionAnswerMeaning`) |
| `SlashTags.MessageAnswer` | jonxhikari/core/modules/tags_.py:128-140 | the wait's outcome: the author's first guild message, confirming when it starts with `"y" or "Y"`, or a timeout when there is none (its meaning is `SlashTags.MessageAnswerMeaning`) |
| `Config.ParseInt` | jonxhikari/config.py:21 | `int()` on an optional sign followed by decimal digits, None for anything else (round trip in `Config.ParseDecimal`) |
| `Config.Get` | jonxhikari/config.py:13-41 | `Config.get`: the variable's type tag and payload decide a str, int or bool setting, or one of the five errors (cases in the `Config.Get*` lemmas) |
| `CoreBot.DmCommand` | jonxhikari/core/bot.py:102-104 | `_dm_command` is true exactly when the message has a guild id |
| `CoreBot.Fill` | jonxhikari/core/bot.py:69-73 | each (GuildID, Prefix) record, in order, replaces its guild's cache entry with that prefix |
| `CoreBot.Bot.ResolvePrefix` | jonxhikari/core/bot.py:91-99 | the cached prefix for a cached guild, "$" for an uncached one, and the NameError for a message outside any guild |
| `Admin.LoadFields` | jonxhikari/core/plugins/admin.py:57-81 | the fields the `finally` block sends: Loaded on success, Failed on ExtensionAlreadyLoaded, unbound for any other error |
| `Compile.ParseCodeBlock` | jonxhikari/core/plugins/compile.py:48-57 | `re.match` of the code-block pattern: the greedy word run after the backticks, one whitespace character, and the source up to the last backticks |
| `Compile.LangNames` | jonxhikari/core/plugins/compile.py:34-38 | the names `resolve_langs` appends: each language, then its aliases, in order |
| `Compile.ResultFields` | jonxhikari/core/plugins/compile.py:76-89 | Language and Version, then Output for a non-empty stdout, then Errors for a non-empty stderr |
| `Compile.ResultColor` | jonxhikari/core/plugins/compile.py:81-89 | red when there is stderr, green for stdout alone, unbound for neither |
| `Embeds.Expected` | jonxhikari/core/utils/embeds.py:13-78 | the embed `build` returns when fields are given, with every default applied |
| `Errors.Parse` | jonxhikari/core/utils/errors.py:14-35 | the first class of the isinstance chain decides: a reply and a re-raise for the three command errors when there is a context (with none, they fail with an AttributeError), a print and a re-raise for any other Exception |
| `Events.StarRule` | jonxhikari/core/plugins/events.py:28-59 | a star reaction: ignored, removed, the KeyError, the missing channel, or a post, with the starboard cached on first use |
| `Reload.ReloadEmbed` | jonxhikari/bot/plugins/test.py:6-18 | `reload_embed`: Loaded fields without an exception, Failed fields with any exception |
| `Reload.ReloadFields` | jonxhikari/bot/plugins/test.py:39-53 | the fields the `finally` block finds: set by a clean reload, a KeyError or a successful fallback load; unbound otherwise |
| `Compile.Compile.ResolveLangs` | jonxhikari/core/plugins/compile.py:34-38 | appends each runtime's language then its aliases, in order, keeping earlier entries |
| `Compile.Compile.GetLangs` | jonxhikari/core/plugins/compile.py:21-32 | only a 2xx reply with a non-empty list reaches the cache |
| `Compile.Compile.RunCmd` | jonxhikari/core/plugins/compile.py:41-96 | languages are fetched only while the cache is empty; a failed parse gives the format error and an unsupported language its reply, both without a request; a supported one posts (language, "*", source) and replies with the results, nothing, or the unbound-colour error |

## Left out

- Unicode: `str.lower`, `str.title` and `\w` are modelled on ASCII letters and digits only. `\s` is modelled on the ASCII whitespace `str.isspace` accepts (including U+001C to U+001F); non-ASCII whitespace such as U+0085 or U+00A0 is not modelled.
- `Config.ParseInt`: Python's `int()` also accepts surrounding whitespace, digit-separating underscores and non-ASCII decimal digits (such as Arabic-Indic or full-width digits), which the model rejects.
- The network: the code-execution service's runtime and execute calls, and fetching users and messages, are not modelled. Their results are parameters: `RuntimesResponse`, `ExecResponse`, and the `User` and `Message` records.
- The 30-second `wait_for` is not modelled. The reactions or guild messages that arrive within it are an input sequence, and an empty answer stands for the timeout.
- The SQL engine, the schema, the build script's effect and the commit and close steps are not modelled. `connect` is modelled only for its two counted calls and whether the build script raised. The tag and guild tables are maps. The schema's default for Uses and for a new guild's Prefix are parameters.
- `Store.TagTable.Insert`: requires the key to be absent, as the primary key on (GuildID, TagName) is assumed. Every caller inserts only after seeing the row missing.
- Concurrency between commands is not modelled; each command runs alone.
- Reply texts are constructors carrying the values they interpolate, not formatted strings. Message mentions, timestamps and `print` output other than what `parse` prints are not modelled.
- The format-error reply's example line calls `resolve_prefix` only to build its text. It is not modelled.
- The slash edit reads `e.content`, which is None for a message without text and would raise. The model treats such a message as empty content, which declines.
- Tag owners (`UserId`) are positive integers, as Discord ids are. An owner id of 0, which `field` would read as falsy, cannot occur in the model.
- Uses and all ids are unbounded integers; SQLite's 64-bit integers are not modelled.
- The owner `unload`, `reload` and `shutdown` commands only print or close the process, and are not modelled.
- The SDK's channel cache is a set of channel ids the bot can find. The message sent to the starboard is not modelled.
- The permission checks (`has_guild_permissions`, `owner_only`) and the command frameworks' dispatch are not modelled.
- `TagRules.ListReply`: the order of tag names in the list follows the database's row order, which the model leaves unspecified beyond "each name once".
- `Sql.Database.ExecuteScript`: reading the script file and formatting it are not modelled. Only whether it raised is.
