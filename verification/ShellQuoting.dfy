/** `shellQuoteArg` of scripts/db-tool-io.ts, read back by the token rules of the POSIX Shell Command Language. */
module ShellQuoting {
  import opened Wrappers

  predicate IsSafeChar(c: char) {
    || 'A' <= c <= 'Z' || 'a' <= c <= 'z' || '0' <= c <= '9'
    || c == '_' || c == '.' || c == '/' || c == ':' || c == '=' || c == ',' || c == '@' || c == '+' || c == '-'
  }

  /** The pattern `^[A-Za-z0-9_./:=,@+-]+$`. */
  predicate IsSafe(arg: string) {
    arg != "" && forall i :: 0 <= i < |arg| ==> IsSafeChar(arg[i])
  }

  /** Each quote closed, escaped and reopened: `'\''`. */
  function Reopened(arg: string): string {
    if arg == "" then ""
    else (if arg[0] == '\'' then "'\\''" else [arg[0]]) + Reopened(arg[1..])
  }

  function Quote(arg: string): string {
    if IsSafe(arg) then arg else "'" + Reopened(arg) + "'"
  }

  /** The arguments quoted and joined with spaces. */
  function Command(args: seq<string>): string {
    if args == [] then ""
    else if |args| == 1 then Quote(args[0])
    else Quote(args[0]) + " " + Command(args[1..])
  }

  // Token recognition: sections 2.2.1 (escape character), 2.2.2 (single quotes) and 2.3 (token recognition)

  datatype Mode = Gap | Word | Single | Escape

  /** Blanks separate tokens where they are not quoted. */
  predicate IsBlank(c: char) {
    c == ' ' || c == '\t'
  }

  /**
   * Unquoted, these start an operator, a comment, an expansion, a pattern or a double-quoted part, or end the command;
   * none of them is read as itself.
   */
  predicate IsSpecial(c: char) {
    || c == '|' || c == '&' || c == ';' || c == '<' || c == '>' || c == '(' || c == ')' || c == '$' || c == '`'
    || c == '"' || c == '\n' || c == '*' || c == '?' || c == '[' || c == ']' || c == '#' || c == '~' || c == '{'
    || c == '}' || c == '!' || c == '%'
  }

  /** The tokens of a command, or `None` where it is unfinished or uses more of the language than words. */
  function Tokens(s: string, mode: Mode, word: string): Option<seq<string>> {
    if s == "" then
      if mode.Gap? then Some([]) else if mode.Word? then Some([word]) else None
    else
      var c, rest := s[0], s[1..];
      match mode
      case Single => if c == '\'' then Tokens(rest, Word, word) else Tokens(rest, Single, word + [c])
      case Escape => if c == '\n' then Tokens(rest, Word, word) else Tokens(rest, Word, word + [c])
      case Gap =>
        if IsBlank(c) then Tokens(rest, Gap, "")
        else if c == '\'' then Tokens(rest, Single, "")
        else if c == '\\' then Tokens(rest, Escape, "")
        else if IsSpecial(c) then None
        else Tokens(rest, Word, [c])
      case Word =>
        if IsBlank(c) then
          var later := Tokens(rest, Gap, "");
          if later.Some? then Some([word] + later.value) else None
        else if c == '\'' then Tokens(rest, Single, word)
        else if c == '\\' then Tokens(rest, Escape, word)
        else if IsSpecial(c) then None
        else Tokens(rest, Word, word + [c])
  }

  // One character at a time

  lemma SafeStarts(c: char, rest: string)
    requires IsSafeChar(c)
    ensures Tokens([c] + rest, Gap, "") == Tokens(rest, Word, [c])
  {
    assert ([c] + rest)[0] == c && ([c] + rest)[1..] == rest;
  }

  lemma SafeContinues(c: char, rest: string, word: string)
    requires IsSafeChar(c)
    ensures Tokens([c] + rest, Word, word) == Tokens(rest, Word, word + [c])
  {
    assert ([c] + rest)[0] == c && ([c] + rest)[1..] == rest;
  }

  lemma QuoteOpens(rest: string, word: string)
    ensures Tokens("'" + rest, Gap, "") == Tokens(rest, Single, "")
    ensures Tokens("'" + rest, Word, word) == Tokens(rest, Single, word)
  {
    assert ("'" + rest)[0] == '\'' && ("'" + rest)[1..] == rest;
  }

  lemma QuoteCloses(rest: string, word: string)
    ensures Tokens("'" + rest, Single, word) == Tokens(rest, Word, word)
  {
    assert ("'" + rest)[0] == '\'' && ("'" + rest)[1..] == rest;
  }

  lemma EscapedQuote(rest: string, word: string)
    ensures Tokens("\\" + ("'" + rest), Word, word) == Tokens(rest, Word, word + "'")
  {
    var s := "'" + rest;
    assert ("\\" + s)[0] == '\\' && ("\\" + s)[1..] == s;
    assert s[0] == '\'' && s[1..] == rest;
    assert Tokens("\\" + s, Word, word) == Tokens(s, Escape, word);
    assert Tokens(s, Escape, word) == Tokens(rest, Word, word + ['\'']);
  }

  lemma QuotedContinues(c: char, rest: string, word: string)
    requires c != '\''
    ensures Tokens([c] + rest, Single, word) == Tokens(rest, Single, word + [c])
  {
    assert ([c] + rest)[0] == c && ([c] + rest)[1..] == rest;
  }

  lemma BlankEnds(rest: string, word: string, later: seq<string>)
    requires Tokens(rest, Gap, "") == Some(later)
    ensures Tokens(" " + rest, Word, word) == Some([word] + later)
  {
    assert (" " + rest)[0] == ' ' && (" " + rest)[1..] == rest;
  }

  lemma EndEnds(word: string)
    ensures Tokens("", Word, word) == Some([word])
  {
  }

  // One argument

  lemma {:induction false} SafeReads(arg: string, rest: string, word: string)
    requires forall i :: 0 <= i < |arg| ==> IsSafeChar(arg[i])
    ensures Tokens(arg + rest, Word, word) == Tokens(rest, Word, word + arg)
  {
    hide Tokens, IsSafeChar;
    if arg == "" {
      assert arg + rest == rest && word + arg == word;
    } else {
      assert arg + rest == [arg[0]] + (arg[1..] + rest) && word + [arg[0]] + arg[1..] == word + arg;
      SafeContinues(arg[0], arg[1..] + rest, word);
      SafeReads(arg[1..], rest, word + [arg[0]]);
    }
  }

  lemma QuoteReopens(rest: string, word: string)
    ensures Tokens("'\\''" + rest, Single, word) == Tokens(rest, Single, word + "'")
  {
    hide Tokens;
    assert "'\\''" + rest == "'" + ("\\" + ("'" + ("'" + rest)));
    QuoteCloses("\\" + ("'" + ("'" + rest)), word);
    EscapedQuote("'" + rest, word);
    QuoteOpens(rest, word + "'");
  }

  lemma {:induction false} QuotedReads(arg: string, rest: string, word: string)
    ensures Tokens(Reopened(arg) + "'" + rest, Single, word) == Tokens(rest, Word, word + arg)
  {
    hide Tokens;
    if arg == "" {
      assert Reopened(arg) + "'" + rest == "'" + rest && word + arg == word;
      QuoteCloses(rest, word);
    } else {
      var tail := Reopened(arg[1..]) + "'" + rest;
      assert word + [arg[0]] + arg[1..] == word + arg;
      if arg[0] == '\'' {
        assert Reopened(arg) + "'" + rest == "'\\''" + tail;
        QuoteReopens(tail, word);
      } else {
        assert Reopened(arg) + "'" + rest == [arg[0]] + tail;
        QuotedContinues(arg[0], tail, word);
      }
      QuotedReads(arg[1..], rest, word + [arg[0]]);
    }
  }

  lemma SafeWordReads(arg: string, rest: string)
    requires IsSafe(arg)
    ensures Tokens(arg + rest, Gap, "") == Tokens(rest, Word, arg)
  {
    hide Tokens, IsSafeChar;
    assert arg + rest == [arg[0]] + (arg[1..] + rest) && [arg[0]] + arg[1..] == arg;
    SafeStarts(arg[0], arg[1..] + rest);
    SafeReads(arg[1..], rest, [arg[0]]);
  }

  lemma QuotedWordReads(arg: string, rest: string)
    ensures Tokens("'" + Reopened(arg) + "'" + rest, Gap, "") == Tokens(rest, Word, arg)
  {
    hide Tokens, Reopened;
    assert "'" + Reopened(arg) + "'" + rest == "'" + (Reopened(arg) + "'" + rest) && "" + arg == arg;
    QuoteOpens(Reopened(arg) + "'" + rest, "");
    QuotedReads(arg, rest, "");
  }

  /** One quoted argument reads back as one word. */
  lemma QuoteReads(arg: string, rest: string)
    ensures Tokens(Quote(arg) + rest, Gap, "") == Tokens(rest, Word, arg)
  {
    hide Tokens, IsSafe, Reopened;
    if IsSafe(arg) {
      SafeWordReads(arg, rest);
    } else {
      QuotedWordReads(arg, rest);
    }
  }

  /** Reading the joined command back gives the arguments, whatever they are, empty ones included. */
  lemma {:induction false} RoundTrip(args: seq<string>)
    ensures Tokens(Command(args), Gap, "") == Some(args)
  {
    if args == [] {
      assert Tokens("", Gap, "") == Some([]);
    } else {
      var rest := if |args| == 1 then "" else " " + Command(args[1..]);
      assert Command(args) == Quote(args[0]) + rest;
      QuoteReads(args[0], rest);
      if |args| == 1 {
        EndEnds(args[0]);
        assert [args[0]] == args;
      } else {
        RoundTrip(args[1..]);
        BlankEnds(Command(args[1..]), args[0], args[1..]);
        assert [args[0]] + args[1..] == args;
      }
    }
  }

  /** Just the arguments of these characters alone, the empty one apart, stay unquoted; all others begin with a quote. */
  lemma UnquotedExactly(arg: string)
    ensures Quote(arg) == arg
       <==> && arg != ""
            && forall i :: 0 <= i < |arg| ==>
                 || 'A' <= arg[i] <= 'Z' || 'a' <= arg[i] <= 'z' || '0' <= arg[i] <= '9' || arg[i] in "_./:=,@+-"
    ensures Quote(arg) != arg ==> Quote(arg)[0] == '\''
  {
    if !IsSafe(arg) {
      QuotedLonger(arg);
    }
  }

  lemma {:induction false} QuotedLonger(arg: string)
    ensures |Reopened(arg)| >= |arg|
  {
    if arg != "" {
      QuotedLonger(arg[1..]);
    }
  }
}
