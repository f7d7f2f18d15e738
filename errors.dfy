/** `Errors.parse` (core/utils/errors.py): an isinstance chain over the exception;
    the first class that matches decides the reply, and every Exception is raised
    again. */
module Errors {
  import opened Common

  /** The exceptions `parse` distinguishes, with what its messages read from them. */
  datatype Exc =
    | NotEnoughArguments(missingArgs: seq<string>)
    | MissingRequiredPermission(text: string, permissionNames: seq<string>)
    | ConverterFailure(text: string)
    | KeyErr(key: string)
    | OtherException(className: string, text: string)
    | NotAnException(className: string)   // a BaseException outside Exception

  /** The classes the chain tests, in the order it tests them. */
  datatype ExcClass =
    | NotEnoughArgumentsClass | MissingRequiredPermissionClass | ConverterFailureClass
    | ExceptionClass | KeyErrorClass

  const Branches: seq<ExcClass> :=
    [NotEnoughArgumentsClass, MissingRequiredPermissionClass, ConverterFailureClass, ExceptionClass, KeyErrorClass]

  /** `isinstance(exc, cls)`: the command errors and KeyError all derive from Exception. */
  predicate IsInstance(exc: Exc, cls: ExcClass)
  {
    match cls
    case NotEnoughArgumentsClass => exc.NotEnoughArguments?
    case MissingRequiredPermissionClass => exc.MissingRequiredPermission?
    case ConverterFailureClass => exc.ConverterFailure?
    case ExceptionClass => !exc.NotAnException?
    case KeyErrorClass => exc.KeyErr?
  }

  /** Which branch of the chain runs: the first class `exc` is an instance of. */
  function Branch(exc: Exc): Option<nat>
  {
    FirstMatch(Branches, c => IsInstance(exc, c))
  }

  /** The context `parse` responds through, when there is one. */
  datatype Ctx = Ctx(qualifiedName: string)

  datatype ParseOutcome =
    | Raised(exc: Exc, reply: Option<string>, printed: Option<string>)  // re-raised after replying or printing
    | AttributeErrorOnNone   // `ctx.respond` on a None context
    | Returned               // no branch matched

  /** `" > " + x` for every element, in order. */
  function Bulleted(xs: seq<string>): (r: seq<string>)
    ensures |r| == |xs|
    ensures forall i :: 0 <= i < |xs| ==> r[i] == " > " + xs[i]
  {
    seq(|xs|, i requires 0 <= i < |xs| => " > " + xs[i])
  }

  function MissingArgsMessage(args: seq<string>): string
  {
    "**ERROR**\nRequired argument(s) were missing:\n```" + Join("\n", Bulleted(args)) + "```"
  }

  function PermissionsMessage(text: string, names: seq<string>): string
  {
    "**ERROR**\n" + text + ".```" + Replace(Join("\n", Bulleted(names)), '_', ' ') + "```"
  }

  function ConverterMessage(qualifiedName: string): string
  {
    "**ERROR**\nConversion of arguments failed during `" + qualifiedName + "` command."
  }

  /** `str(exc)`, which `print` writes. */
  function ExcText(exc: Exc): string
  {
    match exc
    case NotEnoughArguments(_) => ""
    case MissingRequiredPermission(text, _) => text
    case ConverterFailure(text) => text
    case KeyErr(key) => "'" + key + "'"
    case OtherException(_, text) => text
    case NotAnException(_) => ""
  }

  /** `parse(exc, ctx)`. */
  function Parse(exc: Exc, ctx: Option<Ctx>): ParseOutcome
  {
    match Branch(exc)
    case None => Returned
    case Some(b) =>
      if b == 0 then
        if ctx.None? then AttributeErrorOnNone
        else Raised(exc, Some(MissingArgsMessage(exc.missingArgs)), None)
      else if b == 1 then
        if ctx.None? then AttributeErrorOnNone
        else Raised(exc, Some(PermissionsMessage(exc.text, exc.permissionNames)), None)
      else if b == 2 then
        if ctx.None? then AttributeErrorOnNone
        else Raised(exc, Some(ConverterMessage(ctx.value.qualifiedName)), None)
      else Raised(exc, None, Some(ExcText(exc)))
  }

  /** The KeyError branch never runs: every KeyError is caught by the Exception branch
      before it. The three command errors take their own branches. */
  lemma KeyErrorBranchUnreachable(exc: Exc)
    ensures Branch(exc) != Some(4)
    ensures exc.KeyErr? || exc.OtherException? ==> Branch(exc) == Some(3)
    ensures exc.NotEnoughArguments? ==> Branch(exc) == Some(0)
    ensures exc.MissingRequiredPermission? ==> Branch(exc) == Some(1)
    ensures exc.ConverterFailure? ==> Branch(exc) == Some(2)
    ensures exc.NotAnException? ==> Branch(exc) == None
  {
    var p := c => IsInstance(exc, c);
    if exc.KeyErr? || exc.OtherException? {
      assert p(Branches[3]);
      assert !p(Branches[0]) && !p(Branches[1]) && !p(Branches[2]);
    } else if exc.MissingRequiredPermission? {
      assert !p(Branches[0]) && p(Branches[1]);
    } else if exc.ConverterFailure? {
      assert !p(Branches[0]) && !p(Branches[1]) && p(Branches[2]);
    } else if exc.NotEnoughArguments? {
      assert p(Branches[0]);
    }
  }

  /** `parse` never returns normally for an Exception: it re-raises the same exception,
      or fails on a missing context first. Anything else is left to return. */
  lemma ParseNeverSwallows(exc: Exc, ctx: Option<Ctx>)
    ensures exc.NotAnException? <==> Parse(exc, ctx) == Returned
    ensures Parse(exc, ctx).Raised? ==> Parse(exc, ctx).exc == exc
    ensures ctx.Some? && !exc.NotAnException? ==> Parse(exc, ctx).Raised?
    ensures ctx.None? && (exc.NotEnoughArguments? || exc.MissingRequiredPermission? || exc.ConverterFailure?) ==>
      Parse(exc, ctx) == AttributeErrorOnNone
    ensures (exc.KeyErr? || exc.OtherException?) ==> Parse(exc, ctx) == Raised(exc, None, Some(ExcText(exc)))
    ensures ctx.Some? && exc.ConverterFailure? ==>
      Parse(exc, ctx) == Raised(exc, Some(ConverterMessage(ctx.value.qualifiedName)), None)
  {
    KeyErrorBranchUnreachable(exc);
  }

  /** `s.replace` distributes over concatenation. */
  lemma ReplaceAppend(a: string, b: string, x: char, y: char)
    ensures Replace(a + b, x, y) == Replace(a, x, y) + Replace(b, x, y)
  {
    var l, r := Replace(a + b, x, y), Replace(a, x, y) + Replace(b, x, y);
    assert forall i :: 0 <= i < |l| ==> l[i] == r[i];
  }

  /** Each name with its underscores turned into spaces. */
  function Spaced(names: seq<string>): (r: seq<string>)
    ensures |r| == |names|
    ensures forall i :: 0 <= i < |names| ==> r[i] == Replace(names[i], '_', ' ')
  {
    seq(|names|, i requires 0 <= i < |names| => Replace(names[i], '_', ' '))
  }

  /** Replacing underscores in the joined block is the same as listing every permission
      name with its underscores replaced, one " > " line each. */
  lemma {:induction false} PermissionLines(names: seq<string>)
    ensures Replace(Join("\n", Bulleted(names)), '_', ' ') == Join("\n", Bulleted(Spaced(names)))
    decreases |names|
  {
    if |names| == 1 {
      ReplaceAppend(" > ", names[0], '_', ' ');
      assert Replace(" > ", '_', ' ') == " > ";
    } else if |names| > 1 {
      var n0 := names[0];
      var tail := names[1..];
      var rn0 := Replace(n0, '_', ' ');
      assert Bulleted(names)[1..] == Bulleted(tail);
      assert Bulleted(Spaced(names))[1..] == Bulleted(Spaced(tail));
      assert Spaced(names)[1..] == Spaced(tail);
      var rest := Join("\n", Bulleted(tail));
      PermissionLines(tail);
      calc {
        Replace(Join("\n", Bulleted(names)), '_', ' ');
        { assert Join("\n", Bulleted(names)) == (" > " + n0 + "\n") + rest; }
        Replace((" > " + n0 + "\n") + rest, '_', ' ');
        { ReplaceAppend(" > " + n0 + "\n", rest, '_', ' '); }
        Replace(" > " + n0 + "\n", '_', ' ') + Replace(rest, '_', ' ');
        { ReplaceAppend(" > " + n0, "\n", '_', ' ');
          ReplaceAppend(" > ", n0, '_', ' ');
          assert Replace(" > ", '_', ' ') == " > ";
          assert Replace("\n", '_', ' ') == "\n"; }
        " > " + rn0 + "\n" + Join("\n", Bulleted(Spaced(tail)));
        { assert Bulleted(Spaced(names))[0] == " > " + rn0; }
        Join("\n", Bulleted(Spaced(names)));
      }
    }
  }

  /** The missing-arguments reply lists each argument on a line of its own, in order:
      splitting the code block at newlines gives back exactly the " > " lines. */
  lemma MissingArgsLines(args: seq<string>)
    requires |args| > 0
    requires forall k :: 0 <= k < |args| ==> '\n' !in args[k]
    ensures Split(Join("\n", Bulleted(args)), '\n') == Bulleted(args)
  {
    var lines := Bulleted(args);
    forall k | 0 <= k < |lines|
      ensures '\n' !in lines[k]
    {
      assert lines[k] == " > " + args[k];
    }
    SplitJoin(lines, '\n');
  }

  /** The permission block has no underscore left in it. */
  lemma PermissionsWithoutUnderscores(names: seq<string>)
    ensures '_' !in Replace(Join("\n", Bulleted(names)), '_', ' ')
  {
  }
}
