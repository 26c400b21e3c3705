/**
 Quoting an argument list for a shell, as pkg/clihub/runner.go does, and the shells' own rules for reading
 it back. The POSIX lexer follows the Shell Command Language of POSIX.1-2017: section 2.2.1 (escape
 character), 2.2.2 (single quotes), 2.2.3 (double quotes) and 2.3 (token recognition). A character that
 would start an expansion, an operator or a comment makes the lexer give up: quoted text never shows one.
 The reader of PowerShell's verbatim strings follows the Windows PowerShell Language Specification, version
 3.0, section 2.3.5.2: any of five characters is a single quote, and two in a row stand for one.
 */
module ShellQuote {
  import opened Wrappers
  import opened Text

  // ---------------------------------------------------------------- the quoting code

  /** `strings.ReplaceAll` for a one-character pattern. */
  function ReplaceAll(s: string, c: char, replacement: string): string {
    if s == "" then "" else (if s[0] == c then replacement else [s[0]]) + ReplaceAll(s[1..], c, replacement)
  }

  predicate IsPowerShell(shell: string) {
    var name := Lower(Trim(shell));
    name == "powershell" || name == "pwsh"
  }

  /** `QuoteArgForShell`. */
  function QuoteArg(value: string, shell: string): string {
    if IsPowerShell(shell) then "'" + ReplaceAll(value, '\'', "''") + "'"
    else "'" + ReplaceAll(value, '\'', "'\"'\"'") + "'"
  }

  function QuoteAll(args: seq<string>, shell: string): (r: seq<string>)
    ensures |r| == |args| && forall i :: 0 <= i < |r| ==> r[i] == QuoteArg(args[i], shell)
  {
    seq(|args|, i requires 0 <= i < |args| => QuoteArg(args[i], shell))
  }

  /** `JoinArgsForShell`. */
  method JoinArgs(args: seq<string>, shell: string) returns (line: string)
    ensures line == Join(QuoteAll(args, shell), " ")
  {
    hide QuoteArg;
    var quoted: seq<string> := [];
    for i := 0 to |args|
      invariant quoted == QuoteAll(args, shell)[..i]
    {
      quoted := quoted + [QuoteArg(args[i], shell)];
    }
    assert quoted == QuoteAll(args, shell);
    line := Join(quoted, " ");
  }

  // ---------------------------------------------------------------- the POSIX lexer

  datatype Mode = Unquoted | Single | Double

  /** Blanks and the newline end a word. */
  predicate EndsWord(c: char) {
    c == ' ' || c == '\t' || c == '\n'
  }

  /** Characters with a meaning of their own outside quotes, apart from quoting and blanks. */
  predicate SpecialOutside(c: char) {
    c in "|&;<>()$`*?[#~=%"
  }

  /** Inside double quotes these start an expansion. */
  predicate SpecialInDouble(c: char) {
    c == '$' || c == '`'
  }

  /** Inside double quotes a backslash escapes these, and is itself otherwise. */
  predicate Escapable(c: char) {
    c == '$' || c == '`' || c == '"' || c == '\\' || c == '\n'
  }

  /** Adds a finished word in front of the words that follow. */
  function Cons(word: Option<string>, rest: Option<seq<string>>): Option<seq<string>> {
    if word.None? || rest.None? then rest else Some([word.value] + rest.value)
  }

  /** A word that has begun. */
  function Begun(word: Option<string>): string {
    if word.None? then "" else word.value
  }

  /** The words of a command line; `word` is the one being read, if one has begun. `None` stands for an
      unfinished quotation and for characters the lexer does not read. */
  function Lex(s: string, mode: Mode, word: Option<string>): Option<seq<string>>
    decreases |s|
  {
    if s == "" then
      if mode != Unquoted then None else Cons(word, Some([]))
    else
      var c, rest, w := s[0], s[1..], Begun(word);
      match mode
      case Single =>
        if c == '\'' then Lex(rest, Unquoted, Some(w)) else Lex(rest, Single, Some(w + [c]))
      case Double =>
        if c == '"' then Lex(rest, Unquoted, Some(w))
        else if SpecialInDouble(c) then None
        else if c == '\\' && rest != "" && Escapable(rest[0]) then
          Lex(rest[1..], Double, Some(if rest[0] == '\n' then w else w + [rest[0]]))
        else Lex(rest, Double, Some(w + [c]))
      case Unquoted =>
        if EndsWord(c) then Cons(word, Lex(rest, Unquoted, None))
        else if c == '\'' then Lex(rest, Single, Some(w))
        else if c == '"' then Lex(rest, Double, Some(w))
        else if c == '\\' then
          (if rest == "" then None
           else if rest[0] == '\n' then Lex(rest[1..], Unquoted, word)
           else Lex(rest[1..], Unquoted, Some(w + [rest[0]])))
        else if SpecialOutside(c) then None
        else Lex(rest, Unquoted, Some(w + [c]))
  }

  /** The argument vector a POSIX shell makes of a line. */
  function PosixWords(line: string): Option<seq<string>> {
    Lex(line, Unquoted, None)
  }

  /** The five characters that stand for a single quote read back as one. */
  lemma LexQuote(rest: string, w: string)
    ensures Lex("'\"'\"'" + rest, Single, Some(w)) == Lex(rest, Single, Some(w + "'"))
  {
    var s := "'\"'\"'" + rest;
    assert s[1..][0] == '"' && s[1..][1..][0] == '\'' && s[1..][1..][1..][0] == '"';
    assert s[1..][1..][1..][1..][0] == '\'' && s[1..][1..][1..][1..][1..] == rest;
    calc {
      Lex(s, Single, Some(w));
      Lex(s[1..], Unquoted, Some(w));
      Lex(s[1..][1..], Double, Some(w));
      Lex(s[1..][1..][1..], Double, Some(w + "'"));
      Lex(s[1..][1..][1..][1..], Unquoted, Some(w + "'"));
      Lex(rest, Single, Some(w + "'"));
    }
  }

  lemma {:induction false} LexInside(value: string, rest: string, w: string)
    ensures Lex(ReplaceAll(value, '\'', "'\"'\"'") + rest, Single, Some(w)) == Lex(rest, Single, Some(w + value))
  {
    var quoted := ReplaceAll(value, '\'', "'\"'\"'");
    if value == "" {
      assert quoted + rest == rest && w + value == w;
    } else {
      var tail := ReplaceAll(value[1..], '\'', "'\"'\"'");
      LexInside(value[1..], rest, w + [value[0]]);
      assert w + [value[0]] + value[1..] == w + value;
      if value[0] == '\'' {
        LexQuote(tail + rest, w);
        assert quoted + rest == "'\"'\"'" + (tail + rest);
      } else {
        assert quoted + rest == [value[0]] + (tail + rest);
        assert (quoted + rest)[1..] == tail + rest;
      }
    }
  }

  /** One quoted argument, read from a word boundary, is exactly that argument. */
  lemma LexArg(value: string, shell: string, rest: string)
    requires !IsPowerShell(shell)
    ensures Lex(QuoteArg(value, shell) + rest, Unquoted, None) == Lex(rest, Unquoted, Some(value))
  {
    hide IsPowerShell;
    var inside := ReplaceAll(value, '\'', "'\"'\"'");
    var s := QuoteArg(value, shell) + rest;
    assert s == "'" + (inside + ("'" + rest));
    assert s[1..] == inside + ("'" + rest);
    LexInside(value, "'" + rest, "");
    assert "" + value == value;
    assert ("'" + rest)[1..] == rest;
  }

  /** A POSIX shell reads the quoted line back as exactly the argument list, for every list of strings. */
  lemma {:induction false} PosixRoundTrip(args: seq<string>, shell: string)
    requires !IsPowerShell(shell)
    ensures PosixWords(Join(QuoteAll(args, shell), " ")) == Some(args)
  {
    hide IsPowerShell, QuoteArg;
    var parts := QuoteAll(args, shell);
    if args != [] {
      var rest := if |args| == 1 then "" else " " + Join(parts[1..], " ");
      assert Join(parts, " ") == parts[0] + rest;
      LexArg(args[0], shell, rest);
      assert [args[0]] + args[1..] == args;
      if |args| > 1 {
        PosixRoundTrip(args[1..], shell);
        assert parts[1..] == QuoteAll(args[1..], shell);
        assert rest[1..] == Join(parts[1..], " ");
      }
    }
  }

  lemma ShIsNotPowerShell()
    ensures !IsPowerShell("sh")
  {
    hide Trim, Lower;
    assert Trimmed("sh") && |Lower("sh")| == 2;
  }

  /** In particular for the shell that is used everywhere but on Windows. */
  lemma ShRoundTrip(args: seq<string>)
    ensures PosixWords(Join(QuoteAll(args, "sh"), " ")) == Some(args)
  {
    hide PosixWords, QuoteAll, Join, IsPowerShell;
    ShIsNotPowerShell();
    PosixRoundTrip(args, "sh");
  }

  // ---------------------------------------------------------------- the PowerShell rule

  /** The five characters that PowerShell takes for a single quote. */
  predicate IsQuote(c: char) {
    c == '\'' || '\U{2018}' <= c <= '\U{201B}'
  }

  /** Those of them that the code does not double. */
  predicate IsCurly(c: char) {
    IsQuote(c) && c != '\''
  }

  predicate HasCurly(s: string) {
    exists i :: 0 <= i < |s| && IsCurly(s[i])
  }

  /** Reading single-quoted strings in which two quotes stand for one; spaces separate them. */
  function ReadSingle(s: string, inside: bool, word: Option<string>): Option<seq<string>>
    decreases |s|
  {
    if s == "" then
      if inside then None else Cons(word, Some([]))
    else
      var c, rest, w := s[0], s[1..], Begun(word);
      if inside then
        if !IsQuote(c) then ReadSingle(rest, true, Some(w + [c]))
        else if rest != "" && IsQuote(rest[0]) then ReadSingle(rest[1..], true, Some(w + [rest[0]]))
        else ReadSingle(rest, false, Some(w))
      else if c == ' ' then Cons(word, ReadSingle(rest, false, None))
      else if IsQuote(c) && word.None? then ReadSingle(rest, true, Some(""))
      else None
  }

  function PowerShellWords(line: string): Option<seq<string>> {
    ReadSingle(line, false, None)
  }

  /** One character inside the quotes, a quote being doubled. */
  lemma ReadOne(c: char, tail: string, w: string)
    requires !IsCurly(c)
    ensures ReadSingle((if c == '\'' then "''" else [c]) + tail, true, Some(w)) == ReadSingle(tail, true, Some(w + [c]))
  {
    var s := (if c == '\'' then "''" else [c]) + tail;
    if c == '\'' {
      assert s[1..][0] == '\'' && s[1..][1..] == tail;
    } else {
      assert s[1..] == tail;
    }
  }

  lemma {:induction false} ReadInside(value: string, rest: string, w: string)
    requires (rest == "" || !IsQuote(rest[0])) && !HasCurly(value)
    ensures ReadSingle(ReplaceAll(value, '\'', "''") + "'" + rest, true, Some(w))
            == ReadSingle(rest, false, Some(w + value))
  {
    var s := ReplaceAll(value, '\'', "''") + "'" + rest;
    if value == "" {
      assert s[1..] == rest && w + value == w;
    } else {
      var tail := ReplaceAll(value[1..], '\'', "''") + "'" + rest;
      assert s == (if value[0] == '\'' then "''" else [value[0]]) + tail;
      assert !IsCurly(value[0]) && !HasCurly(value[1..]);
      hide ReplaceAll, IsQuote, HasCurly;
      ReadInside(value[1..], rest, w + [value[0]]);
      assert w + [value[0]] + value[1..] == w + value;
      ReadOne(value[0], tail, w);
    }
  }

  lemma OpenQuote(s: string)
    ensures ReadSingle("'" + s, false, None) == ReadSingle(s, true, Some(""))
  {
    assert ("'" + s)[1..] == s;
  }

  lemma ReadArg(value: string, shell: string, rest: string)
    requires IsPowerShell(shell) && (rest == "" || rest[0] == ' ') && !HasCurly(value)
    ensures ReadSingle(QuoteArg(value, shell) + rest, false, None) == ReadSingle(rest, false, Some(value))
  {
    hide IsPowerShell, HasCurly, ReplaceAll, ReadSingle;
    var inside := ReplaceAll(value, '\'', "''");
    assert QuoteArg(value, shell) + rest == "'" + (inside + "'" + rest);
    OpenQuote(inside + "'" + rest);
    ReadInside(value, rest, "");
    assert "" + value == value;
  }

  /** The line of a list of arguments, from its front. */
  lemma LineFront(args: seq<string>, shell: string)
    requires args != []
    ensures Join(QuoteAll(args, shell), " ") ==
            QuoteArg(args[0], shell) + if |args| == 1 then "" else " " + Join(QuoteAll(args[1..], shell), " ")
  {
    hide QuoteArg;
    assert QuoteAll(args, shell)[1..] == QuoteAll(args[1..], shell);
  }

  lemma {:induction false} ReadLine(args: seq<string>, shell: string)
    requires IsPowerShell(shell) && forall i :: 0 <= i < |args| ==> !HasCurly(args[i])
    ensures PowerShellWords(Join(QuoteAll(args, shell), " ")) == Some(args)
  {
    hide IsPowerShell, QuoteArg, HasCurly, QuoteAll, Join;
    if args == [] {
      NoLine(shell);
    } else {
      LineFront(args, shell);
      var rest := if |args| == 1 then "" else " " + Join(QuoteAll(args[1..], shell), " ");
      ReadArg(args[0], shell, rest);
      assert [args[0]] + args[1..] == args;
      if |args| > 1 {
        ReadLine(args[1..], shell);
        assert rest[1..] == Join(QuoteAll(args[1..], shell), " ");
      }
    }
  }

  lemma NoLine(shell: string)
    ensures Join(QuoteAll([], shell), " ") == ""
  {
  }

  // ---------------------------------------------------------------- counting quotes

  function Quotes(s: string): nat {
    if s == "" then 0 else Quotes(s[..|s| - 1]) + if IsQuote(s[|s| - 1]) then 1 else 0
  }

  function Curlies(s: string): nat {
    if s == "" then 0 else (if IsCurly(s[0]) then 1 else 0) + Curlies(s[1..])
  }

  lemma {:induction false} QuotesAdd(a: string, b: string)
    ensures Quotes(a + b) == Quotes(a) + Quotes(b)
  {
    if b == "" {
      assert a + b == a;
    } else {
      QuotesAdd(a, b[..|b| - 1]);
      assert (a + b)[..|a + b| - 1] == a + b[..|b| - 1];
    }
  }

  lemma QuotesFront(c: char, rest: string)
    ensures Quotes([c] + rest) == (if IsQuote(c) then 1 else 0) + Quotes(rest)
  {
    QuotesAdd([c], rest);
    assert [c][..0] == "";
  }

  /** The quotes it takes to write these words: two around each, and two for each one inside. */
  function QuotesFor(words: seq<string>): nat {
    if words == [] then 0 else 2 * Quotes(words[0]) + 2 + QuotesFor(words[1..])
  }

  /** The quotes read so far for the word at hand. */
  function QuotesOpen(inside: bool, word: Option<string>): nat {
    match word
    case None => if inside then 1 else 0
    case Some(w) => 2 * Quotes(w) + if inside then 1 else 2
  }

  /** However a line is read, it takes that many quotes. */
  lemma {:induction false} ReadTakesQuotes(s: string, inside: bool, word: Option<string>)
    requires ReadSingle(s, inside, word).Some?
    ensures QuotesOpen(inside, word) + Quotes(s) == QuotesFor(ReadSingle(s, inside, word).value)
    decreases |s|
  {
    if s != "" {
      var c, rest, w := s[0], s[1..], Begun(word);
      assert s == [c] + rest;
      QuotesFront(c, rest);
      if inside {
        if !IsQuote(c) {
          QuotesAdd(w, [c]);
          QuotesFront(c, "");
          ReadTakesQuotes(rest, true, Some(w + [c]));
        } else if rest != "" && IsQuote(rest[0]) {
          assert rest == [rest[0]] + rest[1..];
          QuotesFront(rest[0], rest[1..]);
          QuotesAdd(w, [rest[0]]);
          QuotesFront(rest[0], "");
          ReadTakesQuotes(rest[1..], true, Some(w + [rest[0]]));
        } else {
          ReadTakesQuotes(rest, false, Some(w));
        }
      } else if c == ' ' {
        ReadTakesQuotes(rest, false, None);
      } else {
        ReadTakesQuotes(rest, true, Some(""));
      }
    }
  }

  /** The code doubles all of them but the curly ones. */
  lemma {:induction false} DoublingTakesQuotes(value: string)
    ensures Quotes(ReplaceAll(value, '\'', "''")) + Curlies(value) == 2 * Quotes(value)
  {
    if value != "" {
      var c, rest := value[0], value[1..];
      var one := if c == '\'' then "''" else [c];
      DoublingTakesQuotes(rest);
      assert value == [c] + rest && ReplaceAll(value, '\'', "''") == one + ReplaceAll(rest, '\'', "''");
      QuotesFront(c, rest);
      QuotesAdd(one, ReplaceAll(rest, '\'', "''"));
      QuotesFront(c, "");
      QuotesFront(c, [c]);
    }
  }

  function AllCurlies(args: seq<string>): nat {
    if args == [] then 0 else Curlies(args[0]) + AllCurlies(args[1..])
  }

  lemma QuotedTakesQuotes(value: string, shell: string)
    requires IsPowerShell(shell)
    ensures Quotes(QuoteArg(value, shell)) + Curlies(value) == 2 * Quotes(value) + 2
  {
    hide IsPowerShell;
    var inside := ReplaceAll(value, '\'', "''");
    DoublingTakesQuotes(value);
    QuotesAdd("'" + inside, "'");
    QuotesAdd("'", inside);
    assert Quotes("'") == 1 by {
      assert "'"[..0] == "";
    }
    hide ReplaceAll, Quotes;
    assert QuoteArg(value, shell) == "'" + inside + "'";
  }

  lemma {:induction false} LineTakesQuotes(args: seq<string>, shell: string)
    requires IsPowerShell(shell)
    ensures Quotes(Join(QuoteAll(args, shell), " ")) + AllCurlies(args) == QuotesFor(args)
  {
    if args == [] {
      NoLine(shell);
    } else {
      hide IsPowerShell, QuoteArg, QuoteAll, Join, Quotes, Curlies;
      LineFront(args, shell);
      QuotedTakesQuotes(args[0], shell);
      var tail := Join(QuoteAll(args[1..], shell), " ");
      LineTakesQuotes(args[1..], shell);
      if |args| == 1 {
        NoLine(shell);
        assert args[1..] == [] && QuoteArg(args[0], shell) + "" == QuoteArg(args[0], shell);
      } else {
        QuotesAdd(QuoteArg(args[0], shell), " " + tail);
        QuotesFront(' ', tail);
        assert [' '] + tail == " " + tail;
      }
    }
  }

  lemma {:induction false} CurliesCount(s: string)
    ensures Curlies(s) > 0 <==> HasCurly(s)
  {
    if s != "" {
      CurliesCount(s[1..]);
      if HasCurly(s) && !IsCurly(s[0]) {
        var i :| 0 <= i < |s| && IsCurly(s[i]);
        assert IsCurly(s[1..][i - 1]);
      }
      if HasCurly(s[1..]) {
        var i :| 0 <= i < |s[1..]| && IsCurly(s[1..][i]);
        assert IsCurly(s[i + 1]);
      }
    }
  }

  lemma {:induction false} SomeCurly(args: seq<string>, i: nat)
    requires i < |args| && HasCurly(args[i])
    ensures AllCurlies(args) > 0
  {
    hide HasCurly, Curlies;
    if i == 0 {
      CurliesCount(args[0]);
    } else {
      SomeCurly(args[1..], i - 1);
    }
  }

  /** PowerShell reads the quoted line back as exactly the argument list, if and only if no argument contains
      one of the quotes that it knows and the code does not double. */
  lemma PowerShellRoundTrip(args: seq<string>, shell: string)
    requires IsPowerShell(shell)
    ensures PowerShellWords(Join(QuoteAll(args, shell), " ")) == Some(args)
            <==> forall i :: 0 <= i < |args| ==> !HasCurly(args[i])
  {
    hide IsPowerShell, HasCurly, QuoteAll, Join, ReadSingle;
    if forall i :: 0 <= i < |args| ==> !HasCurly(args[i]) {
      ReadLine(args, shell);
    } else {
      var i :| 0 <= i < |args| && HasCurly(args[i]);
      SomeCurly(args, i);
      var line := Join(QuoteAll(args, shell), " ");
      LineTakesQuotes(args, shell);
      if PowerShellWords(line).Some? {
        ReadTakesQuotes(line, false, None);
      }
    }
  }

  // ---------------------------------------------------------------- the platform's shell

  /** `DefaultShell`. */
  function DefaultShell(windows: bool): string {
    if windows then "powershell" else "sh"
  }

  /** The words that the shell of the platform reads from a line. */
  function PlatformWords(windows: bool, line: string): Option<seq<string>> {
    if windows then PowerShellWords(line) else PosixWords(line)
  }

  lemma ShellNames()
    ensures IsPowerShell("powershell") && IsPowerShell("pwsh") && IsPowerShell(" PowerShell\n") && !IsPowerShell("sh")
  {
    assert Trim("powershell") == "powershell" && Lower("powershell") == "powershell";
    assert Trim("pwsh") == "pwsh" && Lower("pwsh") == "pwsh";
    ShellNameWithSpace();
    ShIsNotPowerShell();
  }

  lemma ShellNameWithSpace()
    ensures IsPowerShell(" PowerShell\n")
  {
    hide Trim, TrimLeft, TrimRight;
    TrimSkips(" PowerShell\n");
    assert " PowerShell\n"[1..] == "PowerShell\n";
    TrimSkipsLast("PowerShell\n");
    assert "PowerShell\n"[..10] == "PowerShell";
    assert Trimmed("PowerShell") && Trim("PowerShell") == "PowerShell";
    assert Lower("PowerShell") == "powershell";
  }

  /** Quoting for the shell that the platform has makes that shell read exactly the arguments: always, but on
      Windows only if none of them contains a typographic quote. */
  lemma PlatformRoundTrip(args: seq<string>, windows: bool)
    ensures PlatformWords(windows, Join(QuoteAll(args, DefaultShell(windows)), " ")) == Some(args)
            <==> (windows ==> forall i :: 0 <= i < |args| ==> !HasCurly(args[i]))
  {
    hide IsPowerShell, HasCurly, QuoteAll, Join, PowerShellWords, PosixWords;
    ShellNames();
    if windows {
      PowerShellRoundTrip(args, "powershell");
    } else {
      PosixRoundTrip(args, "sh");
    }
  }

  /** A word with a typographic apostrophe is not read back. */
  lemma CurlyExample()
    ensures PowerShellWords(Join(QuoteAll(["it\U{2019}s"], "pwsh"), " ")) != Some(["it\U{2019}s"])
  {
    assert IsPowerShell("pwsh") by {
      assert Trim("pwsh") == "pwsh" && Lower("pwsh") == "pwsh";
    }
    assert HasCurly("it\U{2019}s") by {
      assert IsCurly("it\U{2019}s"[2]);
    }
    hide IsPowerShell, HasCurly, QuoteAll, Join, ReadSingle;
    PowerShellRoundTrip(["it\U{2019}s"], "pwsh");
    assert HasCurly(["it\U{2019}s"][0]);
  }
}
