/** The `run` command (core/plugins/compile.py): it fills the language cache from the
    code-execution service on first use, parses a fenced code block, checks its
    language against the cache, and turns the execution result into embed fields
    and a colour. The service's answers are parameters. */
module Compile {
  import opened Common
  import opened Embeds

  // ---------------------------------------------------------------------------
  // The code-block pattern ```(\w+)\s([\w\W]+)[\s*]?``` under re.match
  // ---------------------------------------------------------------------------

  /** `\w` on ASCII: letters, digits and the underscore. */
  predicate IsWordChar(c: char)
  {
    IsAlphaAscii(c) || IsDigit(c) || c == '_'
  }

  /** `\s` on ASCII: space, tab, newline, carriage return, form feed, vertical tab,
      and the four information separators U+001C to U+001F, which `str.isspace` counts. */
  predicate IsSpaceChar(c: char)
  {
    c == ' ' || c == '\t' || c == '\n' || c == '\r' || c == '\U{000C}' || c == '\U{000B}'
    || ('\U{001C}' <= c <= '\U{001F}')
  }

  /** The class `[\s*]`. */
  predicate IsOptChar(c: char)
  {
    IsSpaceChar(c) || c == '*'
  }

  /** Three backticks start at `j`. */
  predicate IsFenceAt(s: string, j: int)
  {
    0 <= j && j + 3 <= |s| && s[j..j + 3] == "```"
  }

  /** Length of the longest run of word characters starting at `i`. */
  function WordRun(s: string, i: nat): (r: nat)
    requires i <= |s|
    ensures i + r <= |s|
    ensures forall j :: i <= j < i + r ==> IsWordChar(s[j])
    ensures i + r == |s| || !IsWordChar(s[i + r])
    decreases |s| - i
  {
    if i < |s| && IsWordChar(s[i]) then 1 + WordRun(s, i + 1) else 0
  }

  /** The last position at or after `from` where three backticks start. */
  function LastFence(s: string, from: nat): (r: Option<nat>)
    ensures r.Some? ==> from <= r.value && IsFenceAt(s, r.value)
    ensures r.Some? ==> forall j :: r.value < j && IsFenceAt(s, j) ==> false
    ensures r.None? ==> forall j :: from <= j && IsFenceAt(s, j) ==> false
    decreases |s| - from
  {
    if from + 3 > |s| then None
    else match LastFence(s, from + 1)
      case Some(f) => Some(f)
      case None => if IsFenceAt(s, from) then Some(from) else None
  }

  datatype CodeBlock = CodeBlock(lang: string, source: string)

  /** `re.match` of the pattern against `code`: group 1 and group 2, or no match. */
  function ParseCodeBlock(code: string): Option<CodeBlock>
  {
    if !IsFenceAt(code, 0) then None
    else
      var n := WordRun(code, 3);
      var start := 4 + n;
      if n == 0 || start > |code| || !IsSpaceChar(code[3 + n]) then None
      else match LastFence(code, start + 1)
        case None => None
        case Some(f) => Some(CodeBlock(code[3..3 + n], code[start..f]))
  }

  /** One way the pattern can match a prefix of `code`: a language of `n` word
      characters, one whitespace character, a non-empty source ending before `e`,
      `k` (0 or 1) characters of `[\s*]`, then the closing backticks. */
  ghost predicate MatchAt(code: string, n: int, e: int, k: int)
  {
    && IsFenceAt(code, 0)
    && n >= 1 && 4 + n <= |code|
    && (forall j :: 3 <= j < 3 + n ==> IsWordChar(code[j]))
    && IsSpaceChar(code[3 + n])
    && 4 + n < e
    && (k == 0 || (k == 1 && e < |code| && IsOptChar(code[e])))
    && IsFenceAt(code, e + k)
  }

  /** What the parse returns is a match of the pattern. */
  lemma ParseSound(code: string)
    requires ParseCodeBlock(code).Some?
    ensures var b := ParseCodeBlock(code).value;
      && MatchAt(code, |b.lang|, 4 + |b.lang| + |b.source|, 0)
      && b.lang == code[3..3 + |b.lang|]
      && b.source == code[4 + |b.lang|..4 + |b.lang| + |b.source|]
  {
  }

  /** It is the match `re.match` reports: whenever the pattern matches at all, the parse
      succeeds, the language is the same (the whole word run after the backticks), and
      the source is at least as long (it runs to the last backticks in the input). */
  lemma ParseComplete(code: string, n: int, e: int, k: int)
    requires MatchAt(code, n, e, k)
    ensures ParseCodeBlock(code).Some?
    ensures |ParseCodeBlock(code).value.lang| == n
    ensures 4 + n + |ParseCodeBlock(code).value.source| >= e
  {
    var r := WordRun(code, 3);
    assert !IsWordChar(code[3 + n]);
    assert r == n;
  }

  /** Appending text keeps every fence that lies wholly inside `code`. */
  lemma FenceInPrefix(code: string, tail: string, j: int)
    requires 0 <= j && j + 3 <= |code|
    ensures IsFenceAt(code + tail, j) <==> IsFenceAt(code, j)
  {
    assert (code + tail)[j..j + 3] == code[j..j + 3];
  }

  /** Text after the last backticks does not change the parse. */
  lemma TrailingTextIgnored(code: string, tail: string)
    requires ParseCodeBlock(code).Some?
    requires forall j :: 0 <= j && IsFenceAt(code + tail, j) ==> j + 3 <= |code|
    ensures ParseCodeBlock(code + tail) == ParseCodeBlock(code)
  {
    var b := ParseCodeBlock(code).value;
    var n := |b.lang|;
    var e := 4 + n + |b.source|;
    ParseSound(code);
    var s := code + tail;
    FenceInPrefix(code, tail, 0);
    FenceInPrefix(code, tail, e);
    assert forall j :: 3 <= j < 3 + n ==> s[j] == code[j];
    assert MatchAt(s, n, e, 0);
    ParseComplete(s, n, e, 0);
    ParseSound(s);
    var b2 := ParseCodeBlock(s).value;
    var f2 := 4 + n + |b2.source|;
    assert IsFenceAt(s, f2);
    FenceInPrefix(code, tail, f2);
    assert MatchAt(code, n, f2, 0);
    ParseComplete(code, n, f2, 0);
    assert f2 == e;
    assert b2.lang == s[3..3 + n] == code[3..3 + n];
    assert b2.source == s[4 + n..e] == code[4 + n..e];
  }

  // ---------------------------------------------------------------------------
  // The language cache
  // ---------------------------------------------------------------------------

  /** One entry of the service's runtime list. */
  datatype Runtime = Runtime(language: string, aliases: seq<string>)

  /** The names `resolve_langs` appends: each language, then its aliases, in order. */
  function LangNames(data: seq<Runtime>): seq<string>
  {
    if data == [] then []
    else LangNames(data[..|data| - 1]) + [data[|data| - 1].language] + data[|data| - 1].aliases
  }

  /** A name is cached exactly when some runtime has it as language or alias. */
  lemma {:induction false} LangNamesMembership(data: seq<Runtime>, x: string)
    ensures x in LangNames(data) <==> exists i :: 0 <= i < |data| && (x == data[i].language || x in data[i].aliases)
  {
    if data != [] {
      var n := |data| - 1;
      LangNamesMembership(data[..n], x);
      assert forall i :: 0 <= i < n ==> data[..n][i] == data[i];
    }
  }

  /** The service's reply to the runtimes request: HTTP status and JSON list. */
  datatype RuntimesResponse = RuntimesResponse(status: int, body: seq<Runtime>)

  /** The service's reply to the execute request; `data` is None for a falsy body. */
  datatype ExecData = ExecData(language: string, version: string, stdout: string, stderr: string)
  datatype ExecResponse = ExecResponse(status: int, data: Option<ExecData>)

  /** The JSON body posted to the execute endpoint. */
  datatype ExecRequest = ExecRequest(language: string, version: string, source: string)

  predicate IsSuccess(status: int)
  {
    200 <= status <= 299
  }

  // ---------------------------------------------------------------------------
  // Result assembly
  // ---------------------------------------------------------------------------

  /** `hikari.Color.from_rgb(0, 210, 0)` and `from_rgb(210, 0, 0)`. */
  const Green: int := 0x00D200
  const Red: int := 0xD20000

  const ResultsHeader: string := "Source code evaluation results"

  /** `str.title` on ASCII: a letter after a non-letter is upper-cased, any other letter
      lower-cased. */
  function Title(s: string): (r: string)
    ensures |r| == |s|
    ensures forall i :: 0 <= i < |s| ==>
      r[i] == (if i > 0 && IsAlphaAscii(s[i - 1]) then LowerChar(s[i]) else UpperChar(s[i]))
  {
    TitleAfter(false, s)
  }

  /** Title-casing `s` when the character before it was a letter (`afterLetter`) or not. */
  function TitleAfter(afterLetter: bool, s: string): (r: string)
    ensures |r| == |s|
    ensures forall i :: 0 <= i < |s| ==>
      r[i] == (if (if i == 0 then afterLetter else IsAlphaAscii(s[i - 1])) then LowerChar(s[i]) else UpperChar(s[i]))
    decreases |s|
  {
    if s == [] then []
    else [if afterLetter then LowerChar(s[0]) else UpperChar(s[0])] + TitleAfter(IsAlphaAscii(s[0]), s[1..])
  }

  /** Title-casing only changes the case of letters, so doing it twice changes nothing. */
  lemma TitleIdempotent(s: string)
    ensures Title(Title(s)) == Title(s)
  {
    TitleAfterIdempotent(false, s);
  }

  lemma {:induction false} TitleAfterIdempotent(afterLetter: bool, s: string)
    ensures TitleAfter(afterLetter, TitleAfter(afterLetter, s)) == TitleAfter(afterLetter, s)
    decreases |s|
  {
    if s != [] {
      var t := TitleAfter(afterLetter, s);
      CaseFacts(s[0]);
      assert t[0] == (if afterLetter then LowerChar(s[0]) else UpperChar(s[0]));
      assert t[1..] == TitleAfter(IsAlphaAscii(s[0]), s[1..]);
      assert IsAlphaAscii(t[0]) == IsAlphaAscii(s[0]);
      TitleAfterIdempotent(IsAlphaAscii(s[0]), s[1..]);
    }
  }

  /** Changing case keeps letters letters and is idempotent. */
  lemma CaseFacts(c: char)
    ensures IsAlphaAscii(UpperChar(c)) == IsAlphaAscii(c) && IsAlphaAscii(LowerChar(c)) == IsAlphaAscii(c)
    ensures UpperChar(UpperChar(c)) == UpperChar(c) && LowerChar(LowerChar(c)) == LowerChar(c)
    ensures UpperChar(LowerChar(c)) == UpperChar(c) && LowerChar(UpperChar(c)) == LowerChar(c)
  {
  }

  /** The fields the results embed gets, and its colour when one is bound. */
  function ResultFields(d: ExecData): seq<Field>
  {
    [Field("Language:", "```" + Title(d.language) + "```", true), Field("Version:", "```" + d.version + "```", true)]
    + (if d.stdout != "" then [Field("Output:", "```" + d.stdout + "```", false)] else [])
    + (if d.stderr != "" then [Field("Errors:", "```" + d.stderr + "```", false)] else [])
  }

  function ResultColor(d: ExecData): Option<int>
  {
    if d.stderr != "" then Some(Red) else if d.stdout != "" then Some(Green) else None
  }

  /** Language and Version always come first; Output is there exactly when stdout is
      non-empty and Errors exactly when stderr is, in that order; the colour is red
      whenever there is stderr, green with stdout alone, and unbound with neither. */
  lemma ResultMeaning(d: ExecData)
    ensures var f := ResultFields(d);
      && |f| == 2 + (if d.stdout != "" then 1 else 0) + (if d.stderr != "" then 1 else 0)
      && f[0].name == "Language:" && f[1].name == "Version:" && f[0].inline && f[1].inline
      && (d.stdout != "" ==> f[2] == Field("Output:", "```" + d.stdout + "```", false))
      && (d.stderr != "" ==> f[|f| - 1] == Field("Errors:", "```" + d.stderr + "```", false))
      && (forall i :: 2 <= i < |f| ==> !f[i].inline)
    ensures ResultColor(d) == Some(0xD20000) <==> d.stderr != ""
    ensures ResultColor(d) == Some(0x00D200) <==> d.stdout != "" && d.stderr == ""
    ensures ResultColor(d).None? <==> d.stdout == "" && d.stderr == ""
  {
  }

  datatype RunReply =
    | FormatError                 // "Wrong format. Use a code block. ..."
    | Unsupported(lang: string)   // "<lang> is not a supported language."
    | Silent                      // the execute request failed: nothing is sent
    | Results(args: BuildArgs)    // the embed built with these arguments
    | UnboundColor                // neither stdout nor stderr: UnboundLocalError

  class Compile {
    /** `self.langs`. */
    var langs: seq<string>

    constructor ()
      ensures langs == []
    {
      langs := [];
    }

    /** `resolve_langs(*data)`: append each language and its aliases. */
    method ResolveLangs(data: seq<Runtime>)
      modifies this
      ensures langs == old(langs) + LangNames(data)
    {
      var i := 0;
      while i < |data|
        invariant 0 <= i <= |data|
        invariant langs == old(langs) + LangNames(data[..i])
      {
        assert data[..i + 1][..i] == data[..i];
        langs := langs + [data[i].language];
        var j := 0;
        while j < |data[i].aliases|
          invariant 0 <= j <= |data[i].aliases|
          invariant langs == old(langs) + LangNames(data[..i]) + [data[i].language] + data[i].aliases[..j]
        {
          assert data[i].aliases[..j + 1] == data[i].aliases[..j] + [data[i].aliases[j]];
          langs := langs + [data[i].aliases[j]];
          j := j + 1;
        }
        assert data[i].aliases[..j] == data[i].aliases;
        i := i + 1;
      }
      assert data[..i] == data;
    }

    /** `get_langs`: only a 2xx reply with a non-empty list reaches the cache. */
    method GetLangs(resp: RuntimesResponse)
      modifies this
      ensures IsSuccess(resp.status) && resp.body != [] ==> langs == old(langs) + LangNames(resp.body)
      ensures !(IsSuccess(resp.status) && resp.body != []) ==> langs == old(langs)
    {
      if !IsSuccess(resp.status) {
        return;
      }
      if resp.body == [] {
        return;
      }
      ResolveLangs(resp.body);
    }

    /** `run <code>`: `runtimes` answers the language request (made only while the
        cache is empty), `exec` the execute request (made only for a supported
        language; `request` is what was posted). */
    method RunCmd(code: string, runtimes: RuntimesResponse, exec: ExecResponse)
      returns (reply: RunReply, request: Option<ExecRequest>)
      modifies this
      ensures old(langs) != [] ==> langs == old(langs)
      ensures old(langs) == [] ==>
        langs == (if IsSuccess(runtimes.status) && runtimes.body != [] then LangNames(runtimes.body) else [])
      ensures ParseCodeBlock(code).None? ==> reply == FormatError && request == None
      ensures ParseCodeBlock(code).Some? && ParseCodeBlock(code).value.lang !in langs ==>
        reply == Unsupported(ParseCodeBlock(code).value.lang) && request == None
      ensures ParseCodeBlock(code).Some? && ParseCodeBlock(code).value.lang in langs ==>
        var b := ParseCodeBlock(code).value;
        && request == Some(ExecRequest(b.lang, "*", b.source))
        && (!IsSuccess(exec.status) || exec.data.None? ==> reply == Silent)
        && (IsSuccess(exec.status) && exec.data.Some? && ResultColor(exec.data.value).None? ==> reply == UnboundColor)
        && (IsSuccess(exec.status) && exec.data.Some? && ResultColor(exec.data.value).Some? ==>
              reply == Results(BuildArgs(Some(ResultFields(exec.data.value)), None, None, None, Some(ResultsHeader),
                                         None, None, None, ResultColor(exec.data.value))))
    {
      request := None;
      if langs == [] {
        GetLangs(runtimes);
      }
      var matches := ParseCodeBlock(code);
      if matches.None? {
        return FormatError, request;
      }
      var lang, source := matches.value.lang, matches.value.source;
      if lang !in langs {
        return Unsupported(lang), request;
      }
      request := Some(ExecRequest(lang, "*", source));
      if !IsSuccess(exec.status) || exec.data.None? {
        return Silent, request;
      }
      var data := exec.data.value;
      var fields := [Field("Language:", "```" + Title(data.language) + "```", true),
                     Field("Version:", "```" + data.version + "```", true)];
      var color: Option<int> := None;
      if data.stdout != "" {
        color := Some(Green);
        fields := fields + [Field("Output:", "```" + data.stdout + "```", false)];
      }
      if data.stderr != "" {
        color := Some(Red);
        fields := fields + [Field("Errors:", "```" + data.stderr + "```", false)];
      }
      assert fields == ResultFields(data);
      if color.None? {
        return UnboundColor, request;
      }
      reply := Results(BuildArgs(Some(fields), None, None, None, Some(ResultsHeader), None, None, None, color));
    }
  }
}
