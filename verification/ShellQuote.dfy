/**
 Quoting of the agent's install command (frontend/src/utils/agentInstallCommand.ts), read
 back by the rules of sections 2.2.1 (escape character), 2.2.2 (single quotes) and 2.3
 (blanks delimit words) of the Shell Command Language of POSIX.1-2017.
 */
module ShellQuote {

  import opened Wrappers

  // ----- The shell's reader -----

  const NUL := '\0'

  /** Characters that end a simple word, start an expansion or may be taken as a pattern when not quoted. */
  predicate Special(c: char) {
    c in ['|', '&', ';', '<', '>', '(', ')', '$', '`', '"', '\n', '*', '?', '[', '#', '~', '=', '%', NUL]
  }

  /**
   The words of `text`. `word` is the word being read, if one has begun, and `quoted` says
   whether a single quote is open. None for text that is not just words: an unquoted special
   character, an open quote or a lone backslash at the end, or a NUL anywhere.
   */
  function Read(text: string, word: Option<string>, quoted: bool): Option<seq<string>>
    decreases |text|
  {
    var begun := if word.Some? then word.value else "";
    if text == "" then
      if quoted then None else Some(if word.Some? then [word.value] else [])
    else if quoted then
      if text[0] == NUL then None
      else if text[0] == '\'' then Read(text[1..], Some(begun), false)
      else Read(text[1..], Some(begun + [text[0]]), true)
    else if text[0] == '\'' then Read(text[1..], Some(begun), true)
    else if text[0] == '\\' then
      if |text| == 1 || text[1] == NUL then None
      else if text[1] == '\n' then Read(text[2..], word, false)
      else Read(text[2..], Some(begun + [text[1]]), false)
    else if text[0] == ' ' || text[0] == '\t' then
      var more := Read(text[1..], None, false);
      if more.None? || word.None? then more else Some([word.value] + more.value)
    else if Special(text[0]) then None
    else Read(text[1..], Some(begun + [text[0]]), false)
  }

  function Words(text: string): Option<seq<string>> { Read(text, None, false) }

  // ----- The quoting -----

  /** `value.replace(/'/g, "'\\''")` */
  function Escape(value: string): string {
    if value == "" then ""
    else (if value[0] == '\'' then "'\\''" else [value[0]]) + Escape(value[1..])
  }

  function Quote(value: string): string { "'" + Escape(value) + "'" }

  /** `args.map(shellQuote).join(' ')` */
  function QuoteAll(args: seq<string>): string {
    if args == [] then ""
    else if |args| == 1 then Quote(args[0])
    else Quote(args[0]) + " " + QuoteAll(args[1..])
  }

  function ShPipe(download: string, args: seq<string>): string {
    download + " | sh -s -- " + QuoteAll(args)
  }

  // ----- Reading back -----

  predicate HasNul(value: string) { exists i :: 0 <= i < |value| && value[i] == NUL }

  predicate AnyNul(args: seq<string>) { exists i :: 0 <= i < |args| && HasNul(args[i]) }

  lemma HasNulStep(value: string)
    requires value != ""
    ensures HasNul(value) <==> value[0] == NUL || HasNul(value[1..])
  {
    if HasNul(value) {
      var i :| 0 <= i < |value| && value[i] == NUL;
      if i > 0 { assert value[1..][i - 1] == NUL; }
    }
    if HasNul(value[1..]) {
      var i :| 0 <= i < |value[1..]| && value[1..][i] == NUL;
      assert value[i + 1] == NUL;
    }
  }

  lemma ReadQuotedChar(c: char, more: string, word: string)
    requires c != '\''
    ensures Read([c] + more, Some(word), true) == if c == NUL then None else Read(more, Some(word + [c]), true)
  {
    assert ([c] + more)[1..] == more;
  }

  /** An escaped quote closes the quotes, gives one literal quote and opens them again. */
  lemma ReadEscapedQuote(more: string, word: string)
    ensures Read("'\\''" + more, Some(word), true) == Read(more, Some(word + "'"), true)
  {
    var t := "'\\''" + more;
    assert t[1..] == "\\''" + more;
    assert t[1..][2..] == "'" + more;
    assert t[1..][2..][1..] == more;
    assert word + ['\''] == word + "'";
    assert Read(t[1..][2..], Some(word + "'"), false) == Read(more, Some(word + "'"), true);
    assert Read(t[1..], Some(word), false) == Read(t[1..][2..], Some(word + "'"), false);
  }

  lemma EscapeStep(value: string, more: string)
    requires value != ""
    ensures var rest := Escape(value[1..]) + more;
      Escape(value) + more == (if value[0] == '\'' then "'\\''" else [value[0]]) + rest
  {
  }

  lemma EscapeNothing(more: string, word: string)
    ensures Escape("") + more == more && word + "" == word && !HasNul("")
  {
  }

  lemma OneCharMore(word: string, value: string)
    requires value != ""
    ensures word + [value[0]] + value[1..] == word + value
    ensures value[0] == '\'' ==> value[0] != NUL && word + "'" == word + [value[0]]
  {
  }

  /** An escaped value, read inside quotes, is the value. */
  lemma {:induction false} ReadEscaped(value: string, more: string, word: string)
    ensures Read(Escape(value) + more, Some(word), true)
         == if HasNul(value) then None else Read(more, Some(word + value), true)
  {
    hide *;
    if value == "" {
      EscapeNothing(more, word);
    } else {
      var rest := Escape(value[1..]) + more;
      HasNulStep(value);
      ReadEscaped(value[1..], more, word + [value[0]]);
      OneCharMore(word, value);
      EscapeStep(value, more);
      if value[0] == '\'' { ReadEscapedQuote(rest, word); } else { ReadQuotedChar(value[0], rest, word); }
    }
  }

  /** A quoted value, read from between two words, leaves the reader at the end of that word. */
  lemma ReadQuote(value: string, more: string)
    ensures Read(Quote(value) + more, None, false) == if HasNul(value) then None else Read(more, Some(value), false)
  {
    var inner := Escape(value) + ("'" + more);
    assert Quote(value) + more == "'" + inner;
    assert ("'" + inner)[1..] == inner;
    assert ("'" + more)[1..] == more;
    ReadEscaped(value, "'" + more, "");
    assert "" + value == value;
    assert Read("'" + more, Some(value), true) == Read(more, Some(value), false);
  }

  lemma ReadBlank(word: string, more: string)
    ensures Read(" " + more, Some(word), false)
         == (var words := Read(more, None, false); if words.None? then None else Some([word] + words.value))
  {
    assert (" " + more)[1..] == more;
  }

  lemma AnyNulStep(args: seq<string>)
    requires args != []
    ensures AnyNul(args) <==> HasNul(args[0]) || AnyNul(args[1..])
  {
    hide HasNul;
    if AnyNul(args) {
      var i :| 0 <= i < |args| && HasNul(args[i]);
      if i > 0 { assert HasNul(args[1..][i - 1]); }
    }
    if AnyNul(args[1..]) {
      var i :| 0 <= i < |args[1..]| && HasNul(args[1..][i]);
      assert HasNul(args[i + 1]);
    }
  }

  lemma QuoteAllStep(args: seq<string>)
    requires |args| > 1
    ensures QuoteAll(args) == Quote(args[0]) + (" " + QuoteAll(args[1..])) && args == [args[0]] + args[1..]
  {
    hide Quote;
    assert QuoteAll(args) == Quote(args[0]) + " " + QuoteAll(args[1..]);
    hide QuoteAll;
    Associate(Quote(args[0]), " ", QuoteAll(args[1..]));
  }

  lemma Associate(a: string, b: string, c: string)
    ensures a + b + c == a + (b + c)
  {
  }

  lemma OneArgument(arg: string)
    ensures QuoteAll([arg]) == Quote(arg) + "" && Read("", Some(arg), false) == Some([arg])
    ensures AnyNul([arg]) <==> HasNul(arg)
  {
    AnyNulStep([arg]);
  }

  lemma NoArguments()
    ensures Words(QuoteAll([])) == Some([]) && !AnyNul([])
  {
  }

  /** The quoted arguments read back as themselves exactly when none holds a NUL; otherwise they do not read at all. */
  lemma {:induction false} QuotedArgumentsReadBack(args: seq<string>)
    ensures Words(QuoteAll(args)) == if AnyNul(args) then None else Some(args)
  {
    hide Quote, QuoteAll, HasNul, AnyNul, Read;
    if args == [] {
      NoArguments();
    } else if |args| == 1 {
      assert args == [args[0]];
      OneArgument(args[0]);
      ReadQuote(args[0], "");
    } else {
      var more := QuoteAll(args[1..]);
      AnyNulStep(args);
      QuotedArgumentsReadBack(args[1..]);
      QuoteAllStep(args);
      ReadQuote(args[0], " " + more);
      ReadBlank(args[0], more);
    }
  }

  /** Different argument lists never become the same text. */
  lemma QuotingIsInjective(a: seq<string>, b: seq<string>)
    requires !AnyNul(a) && !AnyNul(b) && QuoteAll(a) == QuoteAll(b)
    ensures a == b
  {
    QuotedArgumentsReadBack(a);
    QuotedArgumentsReadBack(b);
  }

  // ----- The piped command -----

  predicate Plain(c: char) { c != '\'' && c != '\\' && c != ' ' && c != '\t' && !Special(c) }

  lemma {:induction false} ReadPlain(plain: string, more: string, word: string)
    requires forall i :: 0 <= i < |plain| ==> Plain(plain[i])
    ensures Read(plain + more, Some(word), false) == Read(more, Some(word + plain), false)
  {
    if plain == "" {
      assert plain + more == more && word + plain == word;
    } else {
      ReadPlain(plain[1..], more, word + [plain[0]]);
      assert (plain + more)[1..] == plain[1..] + more;
      assert word + [plain[0]] + plain[1..] == word + plain;
    }
  }

  lemma ReadPlainWord(plain: string, more: string)
    requires plain != "" && forall i :: 0 <= i < |plain| ==> Plain(plain[i])
    ensures Words(plain + " " + more)
         == (var words := Words(more); if words.None? then None else Some([plain] + words.value))
  {
    var t := plain + (" " + more);
    assert plain + " " + more == t;
    ReadPlain(plain[1..], " " + more, [plain[0]]);
    assert t[1..] == plain[1..] + (" " + more);
    assert "" + [plain[0]] == [plain[0]] && [plain[0]] + plain[1..] == plain;
    ReadBlank(plain, more);
  }

  /** The text `sh -s -- ` before some words. */
  lemma CommandWords(tail: string)
    ensures Words("sh -s -- " + tail)
         == (var words := Words(tail); if words.None? then None else Some(["sh", "-s", "--"] + words.value))
  {
    hide Read;
    ReadPlainWord("--", tail);
    ReadPlainWord("-s", "--" + " " + tail);
    ReadPlainWord("sh", "-s" + " " + ("--" + " " + tail));
    assert "sh" + " " + ("-s" + " " + ("--" + " " + tail)) == "sh -s -- " + tail;
    if Words(tail).Some? {
      var words := Words(tail).value;
      assert ["sh"] + (["-s"] + (["--"] + words)) == ["sh", "-s", "--"] + words;
    }
  }

  /** What follows the pipe runs the downloaded script with exactly the given arguments. */
  lemma PipedShellGetsArguments(download: string, args: seq<string>) returns (command: string)
    requires !AnyNul(args)
    ensures ShPipe(download, args) == download + " | " + command && Words(command) == Some(["sh", "-s", "--"] + args)
  {
    command := "sh -s -- " + QuoteAll(args);
    assert ShPipe(download, args) == download + " | " + command by { assert " | sh -s -- " == " | " + "sh -s -- "; }
    hide *;
    QuotedArgumentsReadBack(args);
    CommandWords(QuoteAll(args));
  }
}
