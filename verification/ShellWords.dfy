/** Printing a command line for the script preview (crates/ngenorca-gateway/src/skills.rs), and reading it back
    by the quoting rules of the Shell Command Language of POSIX.1-2017. */
module ShellWords {
  import opened Wrappers
  import opened Json

  // ---------- the printer ----------

  /** `value.replace("'", "'\"'\"'")` */
  function EscapeQuotes(s: string): string {
    if s == "" then "" else (if s[0] == '\'' then "'\"'\"'" else [s[0]]) + EscapeQuotes(s[1..])
  }

  function ShellQuote(s: string): string {
    "'" + EscapeQuotes(s) + "'"
  }

  function RenderRunCommand(arguments: Option<Json>): Option<string> {
    var command := AsStr(Member(arguments, "command"));
    if command.None? then None
    else Some(JoinQuoted([command.value] + StringArray(Member(arguments, "args"))))
  }

  function Quoted(words: seq<string>): (r: seq<string>)
    ensures |r| == |words| && forall i :: 0 <= i < |words| ==> r[i] == ShellQuote(words[i])
  {
    seq(|words|, i requires 0 <= i < |words| => ShellQuote(words[i]))
  }

  /** `parts.join(" ")` */
  function JoinParts(parts: seq<string>): string {
    if parts == [] then "" else if |parts| == 1 then parts[0] else parts[0] + " " + JoinParts(parts[1..])
  }

  /** The words, quoted and joined by blanks. */
  function JoinQuoted(words: seq<string>): string {
    JoinParts(Quoted(words))
  }

  lemma JoinOneMore(words: seq<string>)
    requires |words| > 1
    ensures JoinQuoted(words) == ShellQuote(words[0]) + " " + JoinQuoted(words[1..])
  {
    hide ShellQuote;
    assert Quoted(words)[1..] == Quoted(words[1..]);
  }

  /** The printing loop: quotes the command, then each string argument, and joins the parts. */
  method PrintCommand(command: string, args: seq<Json>) returns (line: string)
    ensures line == JoinQuoted([command] + StringsOf(args))
  {
    var parts := [ShellQuote(command)];
    ghost var words := [command];
    assert args[0..] == args;
    for i := 0 to |args|
      invariant parts == Quoted(words)
      invariant [command] + StringsOf(args) == words + StringsOf(args[i..])
    {
      assert args[i..][1..] == args[i + 1..];
      if args[i].Str? {
        parts := parts + [ShellQuote(args[i].s)];
        words := words + [args[i].s];
      }
    }
    assert args[|args|..] == [] && words + [] == words;
    line := JoinParts(parts);
  }

  // ---------- the reader ----------

  /** Where the reader is: outside quotes, inside single-quotes or inside double-quotes. */
  datatype Mode = Plain | Single | Double

  predicate IsBlank(c: char) { c == ' ' || c == '\t' }

  /** Characters that end a simple command or start an expansion when they are not quoted. */
  predicate IsSpecial(c: char) {
    c in {'\n', '|', '&', ';', '<', '>', '(', ')', '$', '`', '#', '*', '?', '[', '~', '=', '%', '!', '{', '}'}
  }

  /** Inside double-quotes a backslash quotes only these (section 2.2.3). */
  predicate DoubleEscapable(c: char) {
    c in {'$', '`', '"', '\\', '\n'}
  }

  /** Splits a line into words by sections 2.2.1 (backslash), 2.2.2 (single-quotes), 2.2.3 (double-quotes) and
      2.3 (token recognition). `started` says that the word under construction has begun, even if it is still empty.
      None: an unclosed quote, or something that quoting rules alone do not decide. */
  function Read(input: string, mode: Mode, started: bool, word: string): Option<seq<string>>
    decreases |input|
  {
    if input == "" then
      if !mode.Plain? then None else Some(if started then [word] else [])
    else
      var c, rest := input[0], input[1..];
      match mode
      case Single => if c == '\'' then Read(rest, Plain, true, word) else Read(rest, Single, true, word + [c])
      case Double =>
        if c == '"' then Read(rest, Plain, true, word)
        else if c == '$' || c == '`' then None
        else if c == '\\' && rest != "" && DoubleEscapable(rest[0]) then
          Read(rest[1..], Double, true, if rest[0] == '\n' then word else word + [rest[0]])
        else Read(rest, Double, true, word + [c])
      case Plain =>
        if c == '\'' then Read(rest, Single, true, word)
        else if c == '"' then Read(rest, Double, true, word)
        else if c == '\\' then
          if rest == "" then None
          else if rest[0] == '\n' then Read(rest[1..], Plain, started, word)
          else Read(rest[1..], Plain, true, word + [rest[0]])
        else if IsBlank(c) then
          if started then Prepend(word, Read(rest, Plain, false, "")) else Read(rest, Plain, false, "")
        else if IsSpecial(c) then None
        else Read(rest, Plain, true, word + [c])
  }

  function Prepend(word: string, words: Option<seq<string>>): Option<seq<string>> {
    if words.Some? then Some([word] + words.value) else None
  }

  function Words(line: string): Option<seq<string>> {
    Read(line, Plain, false, "")
  }

  // ---------- the round trip ----------

  /** Reading an escaped quote inside single-quotes closes them, reads the quote in double-quotes
      and opens them again. */
  lemma ReadEscapedQuote(rest: string, word: string)
    ensures Read("'\"'\"'" + rest, Single, true, word) == Read(rest, Single, true, word + "'")
  {
    var s4 := "'" + rest;
    var s3 := "\"" + s4;
    var s2 := "'" + s3;
    var s1 := "\"" + s2;
    var s0 := "'" + s1;
    assert "'\"'\"'" + rest == s0;
    assert s0[1..] == s1 && s1[1..] == s2 && s2[1..] == s3 && s3[1..] == s4 && s4[1..] == rest;
    assert Read(s0, Single, true, word) == Read(s1, Plain, true, word);
    assert Read(s1, Plain, true, word) == Read(s2, Double, true, word);
    assert Read(s2, Double, true, word) == Read(s3, Double, true, word + ['\'']);
    assert Read(s3, Double, true, word + ['\'']) == Read(s4, Plain, true, word + ['\'']);
    assert Read(s4, Plain, true, word + ['\'']) == Read(rest, Single, true, word + ['\'']);
  }

  lemma {:induction false} ReadBody(s: string, rest: string, word: string)
    ensures Read(EscapeQuotes(s) + "'" + rest, Single, true, word) == Read(rest, Plain, true, word + s)
  {
    var tail := "'" + rest;
    if s == "" {
      assert EscapeQuotes(s) + "'" + rest == tail && tail[1..] == rest;
      assert word + "" == word;
    } else {
      var inner := EscapeQuotes(s[1..]) + "'" + rest;
      ReadBody(s[1..], rest, word + [s[0]]);
      assert word + [s[0]] + s[1..] == word + s;
      if s[0] == '\'' {
        assert EscapeQuotes(s) + "'" + rest == "'\"'\"'" + inner;
        ReadEscapedQuote(inner, word);
        assert "'" == [s[0]];
      } else {
        assert EscapeQuotes(s) + "'" + rest == [s[0]] + inner;
        assert ([s[0]] + inner)[1..] == inner;
      }
    }
  }

  lemma ReadBlank(rest: string, word: string)
    ensures Read(" " + rest, Plain, true, word) == Prepend(word, Read(rest, Plain, false, ""))
  {
    assert (" " + rest)[1..] == rest;
  }

  lemma ReadQuoted(s: string, rest: string)
    ensures Read(ShellQuote(s) + rest, Plain, false, "") == Read(rest, Plain, true, s)
  {
    var inner := EscapeQuotes(s) + "'" + rest;
    assert ShellQuote(s) + rest == "'" + inner;
    assert ("'" + inner)[1..] == inner;
    ReadBody(s, rest, "");
    assert "" + s == s;
  }

  /** Reading a printed line gives back exactly the words that were printed. */
  lemma {:induction false} WordsOfJoined(words: seq<string>)
    ensures Words(JoinQuoted(words)) == Some(words)
  {
    hide ShellQuote;
    if words != [] {
      if |words| == 1 {
        ReadQuoted(words[0], "");
        assert ShellQuote(words[0]) + "" == ShellQuote(words[0]);
        assert words == [words[0]];
      } else {
        var more := JoinQuoted(words[1..]);
        WordsOfJoined(words[1..]);
        JoinOneMore(words);
        assert JoinQuoted(words) == ShellQuote(words[0]) + (" " + more);
        ReadQuoted(words[0], " " + more);
        ReadBlank(more, words[0]);
        assert [words[0]] + words[1..] == words;
      }
    }
  }

  /** The preview of a run_command step reads back as its command followed by its string arguments, whatever they
      contain. */
  lemma RenderedCommandReadsBack(arguments: Option<Json>)
    ensures RenderRunCommand(arguments).None? <==> AsStr(Member(arguments, "command")).None?
    ensures RenderRunCommand(arguments).Some? ==>
              Words(RenderRunCommand(arguments).value) ==
                Some([AsStr(Member(arguments, "command")).value] + StringArray(Member(arguments, "args")))
  {
    if AsStr(Member(arguments, "command")).Some? {
      WordsOfJoined([AsStr(Member(arguments, "command")).value] + StringArray(Member(arguments, "args")));
    }
  }

  /** Different word lists are printed differently. */
  lemma PrintingIsInjective(a: seq<string>, b: seq<string>)
    requires JoinQuoted(a) == JoinQuoted(b)
    ensures a == b
  {
    WordsOfJoined(a);
    WordsOfJoined(b);
  }
}
