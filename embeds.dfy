/** The embed builder (core/utils/embeds.py): `build` records its keyword arguments,
    primes an embed with title, description and colour, adds the fields in order and
    then fills thumbnail, author, footer and image, each with its default. */
module Embeds {
  import opened Common

  /** One `(name, value, inline)` field. */
  datatype Field = Field(name: string, value: string, inline: bool)

  /** `hikari.Color.from_hex_code("#713dc7")`. */
  const DefaultColor: int := 0x713DC7

  /** The author name used when no header is given. */
  const DefaultHeader: string := "Jonxhikari"

  /** The keyword arguments of `build` other than `ctx`; an absent one is None. */
  datatype BuildArgs = BuildArgs(
    fields: Option<seq<Field>>,
    title: Option<string>,
    description: Option<string>,
    footer: Option<string>,
    header: Option<string>,
    headerIcon: Option<string>,
    thumbnail: Option<string>,
    image: Option<string>,
    color: Option<int>)

  /** What `build` reads from `ctx`: the invoking user and the bot's own avatar. */
  datatype EmbedCtx = EmbedCtx(authorUsername: string, authorAvatar: Option<string>, botAvatar: Option<string>)

  /** Python's `a or b` when both are optional strings. */
  function OrMaybe(a: Option<string>, b: Option<string>): Option<string>
  {
    if a.Some? && a.value != "" then a else b
  }

  /** Python's `a or b` when `a` is an optional integer. */
  function OrInt(a: Option<int>, b: int): int
  {
    if a.Some? && a.value != 0 then a.value else b
  }

  /** Everything an embed shows, as a value (the timestamp is left out). */
  datatype EmbedView = EmbedView(
    title: Option<string>,
    description: Option<string>,
    color: Option<int>,
    fields: seq<Field>,
    thumbnail: Option<string>,
    authorName: string,
    authorIcon: Option<string>,
    footerText: string,
    footerIcon: Option<string>,
    image: Option<string>)

  /** The embed right after `_prime`. */
  function Primed(args: BuildArgs): EmbedView
  {
    EmbedView(args.title, args.description, Some(OrInt(args.color, DefaultColor)), [], None, "", None, "", None, None)
  }

  /** The embed `build` returns when `fields` is given. */
  function Expected(args: BuildArgs, ctx: EmbedCtx): EmbedView
    requires args.fields.Some?
  {
    EmbedView(
      args.title, args.description, Some(OrInt(args.color, DefaultColor)), args.fields.value,
      OrMaybe(args.thumbnail, ctx.botAvatar),
      OrText(args.header, DefaultHeader), args.headerIcon,
      OrText(args.footer, "Invoked by: " + ctx.authorUsername),
      OrMaybe(ctx.authorAvatar, ctx.botAvatar),
      args.image)
  }

  /** The defaults `build` applies, and what it passes through untouched. */
  lemma BuildDefaults(args: BuildArgs, ctx: EmbedCtx)
    requires args.fields.Some?
    ensures var e := Expected(args, ctx);
      && (args.color == None || args.color == Some(0) ==> e.color == Some(0x713DC7))
      && (args.color.Some? && args.color.value != 0 ==> e.color == args.color)
      && (args.thumbnail == None || args.thumbnail == Some("") ==> e.thumbnail == ctx.botAvatar)
      && (args.header == None || args.header == Some("") ==> e.authorName == "Jonxhikari")
      && (args.footer == None || args.footer == Some("") ==> e.footerText == "Invoked by: " + ctx.authorUsername)
      && (ctx.authorAvatar.Some? && ctx.authorAvatar.value != "" ==> e.footerIcon == ctx.authorAvatar)
      && (ctx.authorAvatar == None || ctx.authorAvatar == Some("") ==> e.footerIcon == ctx.botAvatar)
      && e.title == args.title && e.description == args.description && e.image == args.image
      && e.fields == args.fields.value
  {
  }

  /** A given, non-empty value always wins over the default. */
  lemma GivenValuesWin(args: BuildArgs, ctx: EmbedCtx)
    requires args.fields.Some?
    requires args.thumbnail.Some? && args.thumbnail.value != ""
    requires args.header.Some? && args.header.value != ""
    requires args.footer.Some? && args.footer.value != ""
    ensures var e := Expected(args, ctx);
      e.thumbnail == args.thumbnail && e.authorName == args.header.value && e.footerText == args.footer.value
  {
  }

  /** `hikari.Embed`, as far as the builder uses it. */
  class Embed {
    var title: Option<string>
    var description: Option<string>
    var color: Option<int>
    var fields: seq<Field>
    var thumbnail: Option<string>
    var authorName: string
    var authorIcon: Option<string>
    var footerText: string
    var footerIcon: Option<string>
    var image: Option<string>

    function View(): EmbedView
      reads this
    {
      EmbedView(title, description, color, fields, thumbnail, authorName, authorIcon, footerText, footerIcon, image)
    }

    constructor (title: Option<string>, description: Option<string>, color: Option<int>)
      ensures View() == EmbedView(title, description, color, [], None, "", None, "", None, None)
    {
      this.title := title;
      this.description := description;
      this.color := color;
      fields := [];
      thumbnail := None;
      authorName := "";
      authorIcon := None;
      footerText := "";
      footerIcon := None;
      image := None;
    }

    method AddField(name: string, value: string, inline: bool)
      modifies this
      ensures View() == old(View()).(fields := old(fields) + [Field(name, value, inline)])
    {
      fields := fields + [Field(name, value, inline)];
    }

    method SetThumbnail(url: Option<string>)
      modifies this
      ensures View() == old(View()).(thumbnail := url)
    {
      thumbnail := url;
    }

    method SetAuthor(name: string, icon: Option<string>)
      modifies this
      ensures View() == old(View()).(authorName := name, authorIcon := icon)
    {
      authorName := name;
      authorIcon := icon;
    }

    method SetFooter(text: string, icon: Option<string>)
      modifies this
      ensures View() == old(View()).(footerText := text, footerIcon := icon)
    {
      footerText := text;
      footerIcon := icon;
    }

    method SetImage(url: Option<string>)
      modifies this
      ensures View() == old(View()).(image := url)
    {
      image := url;
    }
  }

  /** The `TypeError` raised by iterating over a missing `fields` argument. */
  datatype BuildError = FieldsNotIterable

  /** The builder object (`bot.embeds`): `build` stores its arguments on the object and
      leaves the embed it is assembling in `embed`. */
  class Embeds {
    var args: BuildArgs
    var ctx: EmbedCtx
    var embed: Embed?

    constructor ()
      ensures embed == null
    {
      args := BuildArgs(None, None, None, None, None, None, None, None, None);
      ctx := EmbedCtx("", None, None);
      embed := null;
    }

    /** `build(ctx=ctx, **args)`: the finished embed, or the TypeError when `fields` is
        missing, in which case only the primed embed was made. */
    method Build(args: BuildArgs, ctx: EmbedCtx) returns (r: Result<Embed, BuildError>)
      modifies this
      ensures this.args == args && this.ctx == ctx && embed != null && fresh(embed)
      ensures r.Ok? <==> args.fields.Some?
      ensures r.Ok? ==> r.value == embed && embed.View() == Expected(args, ctx)
      ensures r.Err? ==> r.error == FieldsNotIterable && embed.View() == Primed(args)
    {
      this.args := args;
      this.ctx := ctx;
      Prime();
      if args.fields.None? {
        return Err(FieldsNotIterable);
      }
      PlusFields();
      Extras();
      r := Ok(embed);
    }

    /** `_prime`: a new embed with title, description and colour. */
    method Prime()
      modifies this
      ensures args == old(args) && ctx == old(ctx)
      ensures embed != null && fresh(embed) && embed.View() == Primed(args)
    {
      embed := new Embed(args.title, args.description, Some(OrInt(args.color, DefaultColor)));
    }

    /** `_plus_fields`: every field, in order, with its name, value and inline flag. */
    method PlusFields()
      requires embed != null && args.fields.Some?
      modifies embed
      ensures embed.View() == old(embed.View()).(fields := old(embed.fields) + args.fields.value)
    {
      var fs := args.fields.value;
      var i := 0;
      while i < |fs|
        invariant 0 <= i <= |fs|
        invariant embed.View() == old(embed.View()).(fields := old(embed.fields) + fs[..i])
      {
        assert fs[..i + 1] == fs[..i] + [fs[i]];
        embed.AddField(fs[i].name, fs[i].value, fs[i].inline);
        i := i + 1;
      }
      assert fs[..|fs|] == fs;
    }

    /** `_extras`: thumbnail, author, footer and image with their defaults. */
    method Extras()
      requires embed != null
      modifies embed
      ensures embed.View() == old(embed.View()).(
        thumbnail := OrMaybe(args.thumbnail, ctx.botAvatar),
        authorName := OrText(args.header, DefaultHeader), authorIcon := args.headerIcon,
        footerText := OrText(args.footer, "Invoked by: " + ctx.authorUsername),
        footerIcon := OrMaybe(ctx.authorAvatar, ctx.botAvatar),
        image := args.image)
    {
      embed.SetThumbnail(OrMaybe(args.thumbnail, ctx.botAvatar));
      embed.SetAuthor(OrText(args.header, DefaultHeader), args.headerIcon);
      embed.SetFooter(OrText(args.footer, "Invoked by: " + ctx.authorUsername), OrMaybe(ctx.authorAvatar, ctx.botAvatar));
      embed.SetImage(args.image);
    }
  }
}
