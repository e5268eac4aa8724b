/** Rendering of a remote command line, and the reading of that line by a POSIX shell. */
module Shell {
  import opened Results
  import Utf8

  const PROGRAMS: set<string> := {
    "docker", "podman", "docker-compose", "podman-compose", "systemctl", "journalctl", "kubectl", "nomad",
    "supervisorctl", "pm2", "uname", "hostname", "cat", "df", "uptime", "ip", "getconf", "free"
  }

  const MAX_ARGUMENT := 8192

  function EscapeQuotes(s: string): string {
    if s == "" then "" else
      (if s[0] == '\'' then "'\"'\"'" else [s[0]]) + EscapeQuotes(s[1..])
  }

  function Quote(s: string): string {
    "'" + EscapeQuotes(s) + "'"
  }

  predicate Acceptable(argument: string) {
    '\0' !in argument && Utf8.Size(argument) <= MAX_ARGUMENT
  }

  /** The program and its quoted arguments, separated by single spaces. */
  function Line(program: string, args: seq<string>): string {
    if args == [] then program else Line(program, args[..|args| - 1]) + " " + Quote(args[|args| - 1])
  }

  method Render(program: string, args: seq<string>) returns (r: Result<string>)
    ensures r.Ok? <==>
              program in PROGRAMS && forall a :: a in args ==>
                  (forall c :: c in a ==> c != '\0') && Utf8.Size(a) <= 8192
    ensures r.Ok? ==> r.value == Line(program, args) && Words(r.value) == Some([program] + args)
    ensures program !in PROGRAMS ==> r == Err(Failure("executable not allowed"))
    ensures program in PROGRAMS && r.Err? ==> r == Err(Failure("invalid argument"))
  {
    hide Words, Quote, Utf8.Size;
    if program !in PROGRAMS {
      return Err(Failure("executable not allowed"));
    }
    var line := program;
    for i := 0 to |args|
      invariant line == Line(program, args[..i])
      invariant forall j :: 0 <= j < i ==> Acceptable(args[j])
    {
      if '\0' in args[i] || Utf8.Size(args[i]) > MAX_ARGUMENT {
        assert args[i] in args && !Acceptable(args[i]);
        return Err(Failure("invalid argument"));
      }
      line := line + " " + Quote(args[i]);
      assert args[..i + 1][..i] == args[..i];
    }
    assert args[..|args|] == args;
    RoundTrip(program, args);
    return Ok(line);
  }

  // Reading the line back: sections 2.2.2 (single quotes) and 2.2.3 (double quotes) of the
  // Shell Command Language of POSIX.1-2017, with blanks delimiting words as in section 2.3.

  datatype Mode = Between | Bare(word: string) | Single(word: string) | Double(word: string)

  predicate Blank(c: char) {
    c == ' ' || c == '\t'
  }

  /** A character that stands for itself outside quotes. */
  predicate Plain(c: char) {
    // Always special, then special only in some places (section 2.2).
    && c != '|' && c != '&' && c != ';' && c != '<' && c != '>' && c != '(' && c != ')' && c != '$' && c != '`'
    && c != '\\' && c != '"' && c != '\'' && c != ' ' && c != '\t' && c != '\n'
    && c != '*' && c != '?' && c != '[' && c != '#' && c != '~' && c != '=' && c != '%' && c != '\0'
  }

  /** The fields of a line; None when it needs expansion, an operator or a closing quote. */
  function Fields(mode: Mode, line: string): Option<seq<string>>
    decreases |line|
  {
    if line == "" then
      match mode
      case Between => Some([])
      case Bare(w) => Some([w])
      case _ => None
    else
      var c, rest := line[0], line[1..];
      match mode
      case Between =>
        if Blank(c) then Fields(Between, rest)
        else if c == '\'' then Fields(Single(""), rest)
        else if c == '"' then Fields(Double(""), rest)
        else if Plain(c) then Fields(Bare([c]), rest)
        else None
      case Bare(w) =>
        if Blank(c) then
          var more := Fields(Between, rest);
          if more.None? then None else Some([w] + more.value)
        else if c == '\'' then Fields(Single(w), rest)
        else if c == '"' then Fields(Double(w), rest)
        else if Plain(c) then Fields(Bare(w + [c]), rest)
        else None
      case Single(w) =>
        if c == '\'' then Fields(Bare(w), rest) else Fields(Single(w + [c]), rest)
      case Double(w) =>
        if c == '"' then Fields(Bare(w), rest)
        else if c == '$' || c == '`' || c == '\\' then None
        else Fields(Double(w + [c]), rest)
  }

  function Words(line: string): Option<seq<string>> {
    Fields(Between, line)
  }

  /** Inside single quotes, the escaped text contributes exactly the original text. */
  lemma {:induction false} EscapedTextIsRead(w: string, s: string, rest: string)
    ensures Fields(Single(w), EscapeQuotes(s) + "'" + rest) == Fields(Bare(w + s), rest)
    decreases |s|
  {
    hide Fields;
    if s == "" {
      assert EscapeQuotes(s) + "'" + rest == "'" + rest;
      assert w + s == w;
      QuoteCloses(w, rest);
    } else {
      var tail := EscapeQuotes(s[1..]) + "'" + rest;
      assert w + s == (w + [s[0]]) + s[1..];
      EscapedTextIsRead(w + [s[0]], s[1..], rest);
      if s[0] == '\'' {
        QuoteInsideQuotes(w, tail);
        assert EscapeQuotes(s) + "'" + rest == "'\"'\"'" + tail;
        assert w + [s[0]] == w + "'";
      } else {
        assert EscapeQuotes(s) + "'" + rest == [s[0]] + tail;
        OtherCharacterIsKept(w, s[0], tail);
      }
    }
  }

  lemma {:induction false} QuoteCloses(w: string, rest: string)
    ensures Fields(Single(w), "'" + rest) == Fields(Bare(w), rest)
  {
    assert ("'" + rest)[1..] == rest;
  }

  lemma {:induction false} OtherCharacterIsKept(w: string, c: char, tail: string)
    requires c != '\''
    ensures Fields(Single(w), [c] + tail) == Fields(Single(w + [c]), tail)
  {
    assert ([c] + tail)[1..] == tail;
  }

  lemma {:induction false} QuoteInsideQuotes(w: string, tail: string)
    ensures Fields(Single(w), "'\"'\"'" + tail) == Fields(Single(w + "'"), tail)
  {
    var l := "'\"'\"'" + tail;
    assert l[1..] == "\"'\"'" + tail;
    assert l[1..][1..] == "'\"'" + tail;
    assert l[1..][1..][1..] == "\"'" + tail;
    assert l[1..][1..][1..][1..] == "'" + tail;
    assert l[1..][1..][1..][1..][1..] == tail;
    assert Fields(Single(w), l) == Fields(Bare(w), l[1..]);
    assert Fields(Bare(w), l[1..]) == Fields(Double(w), l[1..][1..]);
    assert Fields(Double(w), l[1..][1..]) == Fields(Double(w + "'"), l[1..][1..][1..]);
    assert Fields(Double(w + "'"), l[1..][1..][1..]) == Fields(Bare(w + "'"), l[1..][1..][1..][1..]);
  }

  lemma {:induction false} QuotedWordIsRead(s: string, rest: string)
    ensures Fields(Between, Quote(s) + rest) == Fields(Bare(s), rest)
  {
    assert Quote(s) + rest == "'" + (EscapeQuotes(s) + "'" + rest);
    EscapedTextIsRead("", s, rest);
    assert "" + s == s;
  }

  /** The rest of a line rendered after the program name. */
  function Tail(args: seq<string>): string {
    if args == [] then "" else " " + Quote(args[0]) + Tail(args[1..])
  }

  lemma {:induction false} LineIsTail(program: string, args: seq<string>)
    ensures Line(program, args) == program + Tail(args)
    decreases |args|
  {
    if args == [] {
      assert program + "" == program;
    } else {
      var n := |args| - 1;
      LineIsTail(program, args[..n]);
      TailSplit(args[..n], args[n]);
      assert args == args[..n] + [args[n]];
    }
  }

  lemma {:induction false} TailSplit(args: seq<string>, last: string)
    ensures Tail(args + [last]) == Tail(args) + (" " + Quote(last))
    decreases |args|
  {
    if args == [] {
      assert (args + [last])[1..] == [];
    } else {
      assert (args + [last])[1..] == args[1..] + [last];
      TailSplit(args[1..], last);
    }
  }

  lemma {:induction false} TailIsRead(w: string, args: seq<string>)
    ensures Fields(Bare(w), Tail(args)) == Some([w] + args)
    decreases |args|
  {
    if args == [] {
      assert [w] + args == [w];
    } else {
      var rest := Quote(args[0]) + Tail(args[1..]);
      assert Tail(args) == " " + rest;
      QuotedWordIsRead(args[0], Tail(args[1..]));
      TailIsRead(args[0], args[1..]);
      assert [args[0]] + args[1..] == args;
    }
  }

  lemma {:induction false} PlainWordIsRead(w: string, word: string, rest: string)
    requires forall c :: c in word ==> Plain(c)
    ensures Fields(Bare(w), word + rest) == Fields(Bare(w + word), rest)
    decreases |word|
  {
    if word == "" {
      assert word + rest == rest && w + word == w;
    } else {
      assert word + rest == [word[0]] + (word[1..] + rest);
      assert w + word == (w + [word[0]]) + word[1..];
      assert (word + rest)[0] == word[0] && Plain(word[0]);
      assert (word + rest)[1..] == word[1..] + rest;
      PlainWordIsRead(w + [word[0]], word[1..], rest);
    }
  }

  /** The names of the allowed programs mean the same to the shell. */
  lemma {:induction false} ProgramsArePlain(program: string)
    requires program in PROGRAMS
    ensures program != "" && forall c :: c in program ==> Plain(c)
  {
    if |program| > 7 {
      LongNamesArePlain(program);
    }
  }

  lemma {:induction false} LongNamesArePlain(program: string)
    requires program in PROGRAMS && |program| > 7
    ensures program != "" && forall c :: c in program ==> Plain(c)
  {}

  lemma {:induction false} PlainProgramRoundTrip(program: string, args: seq<string>)
    requires program != "" && forall c :: c in program ==> Plain(c)
    ensures Words(Line(program, args)) == Some([program] + args)
  {
    LineIsTail(program, args);
    var line := program + Tail(args);
    assert line[0] == program[0] && Plain(line[0]) && line[1..] == program[1..] + Tail(args);
    PlainWordIsRead([program[0]], program[1..], Tail(args));
    assert [program[0]] + program[1..] == program;
    TailIsRead(program, args);
  }

  /** Reading a rendered line yields the program and exactly its arguments, empty ones included. */
  lemma {:induction false} RoundTrip(program: string, args: seq<string>)
    requires program in PROGRAMS
    ensures Words(Line(program, args)) == Some([program] + args)
  {
    ProgramsArePlain(program);
    PlainProgramRoundTrip(program, args);
  }

  /** Two commands that render to the same line are the same command. */
  lemma {:induction false} RenderIsInjective(p: string, args: seq<string>, q: string, others: seq<string>)
    requires p in PROGRAMS && q in PROGRAMS
    requires Line(p, args) == Line(q, others)
    ensures p == q && args == others
  {
    RoundTrip(p, args);
    RoundTrip(q, others);
    assert ([p] + args)[0] == ([q] + others)[0];
    assert ([p] + args)[1..] == args && ([q] + others)[1..] == others;
  }
}
