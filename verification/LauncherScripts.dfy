/** What a POSIX shell makes of a rendered launcher (renderLauncher in
    internal/managedruntime/launchers.go). */
module LauncherScripts {
  import opened Text
  import Launchers

  // ------------------------------------------------------------------ shell words

  /** The characters at which reading a word ends here: blanks, line ends and
      double quotes. */
  ghost predicate EndsWord(c: char) { c in {' ', '\n', '"'} }

  /** A word read with quotes removed (section 2.2 of the POSIX Shell Command
      Language): its value and what follows it.  Inside single quotes everything
      is literal; outside, a backslash makes the next character literal. */
  ghost function ReadWord(s: string, quoted: bool): Option<(string, string)>
    decreases |s|
  {
    if s == "" then if quoted then None else Some(("", ""))
    else if quoted then
      if s[0] == '\'' then ReadWord(s[1..], false) else Literal(s[0], ReadWord(s[1..], true))
    else if EndsWord(s[0]) then Some(("", s))
    else if s[0] == '\'' then ReadWord(s[1..], true)
    else if s[0] == '\\' then if |s| == 1 then None else Literal(s[1], ReadWord(s[2..], false))
    else Literal(s[0], ReadWord(s[1..], false))
  }

  ghost function Literal(c: char, rest: Option<(string, string)>): Option<(string, string)> {
    if rest.None? then None else Some(([c] + rest.value.0, rest.value.1))
  }

  /** What stands behind the quoted text is read on as if nothing had been quoted. */
  lemma {:induction false} QuotedBodyIsRead(text: string, behind: string)
    ensures var rest := ReadWord(behind, false);
            ReadWord(Launchers.QuoteBody(text) + ("'" + behind), true)
            == if rest.None? then None else Some((text + rest.value.0, rest.value.1))
    decreases |text|
  {
    hide ReadWord;
    var rest := ReadWord(behind, false);
    if text == "" {
      assert Launchers.QuoteBody(text) + ("'" + behind) == "'" + behind;
      QuoteEnds(behind);
      assert rest.Some? ==> text + rest.value.0 == rest.value.0;
    } else {
      QuotedBodyIsRead(text[1..], behind);
      var tail := Launchers.QuoteBody(text[1..]) + ("'" + behind);
      BodyStep(text, behind);
      CharacterIsRead(text[0], tail);
      hide Launchers.QuoteBody;
      assert rest.Some? ==> [text[0]] + (text[1..] + rest.value.0) == text + rest.value.0;
    }
  }

  lemma BodyStep(text: string, behind: string)
    requires text != ""
    ensures Launchers.QuoteBody(text) + ("'" + behind)
            == (if text[0] == '\'' then "'\\''" else [text[0]]) + (Launchers.QuoteBody(text[1..]) + ("'" + behind))
  {
  }

  lemma QuoteEnds(behind: string)
    ensures ReadWord("'" + behind, true) == ReadWord(behind, false)
  {
    assert ("'" + behind)[1..] == behind;
  }

  lemma CharacterIsRead(c: char, tail: string)
    ensures ReadWord((if c == '\'' then "'\\''" else [c]) + tail, true) == Literal(c, ReadWord(tail, true))
  {
    if c == '\'' {
      EscapedQuoteIsRead(tail);
    } else {
      assert ([c] + tail)[1..] == tail;
    }
  }

  /** Out of the quotes, an escaped quote, and back in. */
  lemma EscapedQuoteIsRead(tail: string)
    ensures ReadWord("'\\''" + tail, true) == Literal('\'', ReadWord(tail, true))
  {
    var s := "'\\''" + tail;
    assert s[1..][2..] == "'" + tail && ("'" + tail)[1..] == tail;
    assert s[1..][0] == '\\' && s[1..][1] == '\'';
    assert ReadWord(s, true) == ReadWord(s[1..], false);
  }

  /** Quoting is undone by the shell, whatever the text. */
  lemma QuotedIsRead(text: string, behind: string)
    requires behind == "" || EndsWord(behind[0])
    ensures ReadWord(Launchers.Quote(text) + behind, false) == Some((text, behind))
  {
    var body := Launchers.QuoteBody(text) + ("'" + behind);
    assert Launchers.Quote(text) + behind == "'" + body;
    assert ("'" + body)[1..] == body;
    QuotedBodyIsRead(text, behind);
    hide Launchers.QuoteBody;
    assert text + "" == text;
  }

  // ----------------------------------------------------------------- whole scripts

  const ARGUMENTS := " \"$@\"\n"
  const OLD_PATH := ":\"$PATH\"\nelse\n"

  /** A launcher is a shell script that stops at errors and unset variables, sets
      its environment line by line, and ends by running the target, whatever
      characters its path has, with all the arguments. */
  lemma ScriptRunsTarget(target: string, identity: string, managedPath: seq<string>) returns (lines: string)
    ensures Launchers.Render(target, identity, managedPath)
            == "#!/bin/sh\n# " + Launchers.MARKER + "\nset -eu\n" + lines
               + ("exec " + Launchers.Quote(target) + ARGUMENTS)
    ensures ReadWord(Launchers.Quote(target) + ARGUMENTS, false) == Some((target, ARGUMENTS))
    ensures lines == "" || lines[|lines| - 1] == '\n'
    ensures lines == Launchers.IdentityLine(identity) + Launchers.PathLine(managedPath)
    ensures identity != "" ==> HasPrefix(lines, "export BARON_CLIENT='" + identity + "'\n")
    ensures identity == "" && managedPath == [] ==> lines == ""
  {
    QuotedIsRead(target, ARGUMENTS);
    var says, paths := Launchers.IdentityLine(identity), Launchers.PathLine(managedPath);
    lines := says + paths;
    LineEnds(managedPath, identity);
    hide Launchers.PathLine, Launchers.Quote, ReadWord;
    var head, quoted := "#!/bin/sh\n# " + Launchers.MARKER, Launchers.Quote(target);
    Regrouped(head, "\nset -eu\n", says, paths, "exec ", quoted, ARGUMENTS);
  }

  lemma Regrouped(head: string, start: string, says: string, paths: string, exec: string, quoted: string, rest: string)
    ensures head + (start + says + paths + exec + quoted + rest)
            == head + start + (says + paths) + (exec + quoted + rest)
  {
    var lines := says + paths;
    Associates(start, says, paths);
    Associates(start + lines, exec, quoted);
    Associates(start + lines, exec + quoted, rest);
    Associates(head, start + lines, exec + quoted + rest);
    Associates(head, start, lines);
  }

  lemma Associates(a: string, b: string, c: string)
    ensures a + b + c == a + (b + c)
  {
  }

  /** Each line ends where the next one starts. */
  lemma LineEnds(managedPath: seq<string>, identity: string)
    ensures var lines := Launchers.IdentityLine(identity) + Launchers.PathLine(managedPath);
            && (lines == "" || lines[|lines| - 1] == '\n')
            && (identity != "" ==> HasPrefix(lines, "export BARON_CLIENT='" + identity + "'\n"))
  {
  }

  /** The last of these lines put the managed directories, joined by colons, in
      front of a PATH there is, or make them the PATH. */
  lemma ScriptSetsPath(managedPath: seq<string>)
    requires managedPath != []
    ensures var quoted := Launchers.Quote(Joined(managedPath, ":"));
            && Launchers.PathLine(managedPath)
               == "if [ -n \"${PATH:-}\" ]; then\nexport PATH=" + (quoted + OLD_PATH)
                  + "export PATH=" + (quoted + "\nfi\n")
            && ReadWord(quoted + OLD_PATH, false) == Some((Joined(managedPath, ":") + ":", "\"$PATH\"\nelse\n"))
            && ReadWord(quoted + "\nfi\n", false) == Some((Joined(managedPath, ":"), "\nfi\n"))
  {
    var value := Joined(managedPath, ":");
    QuotedIsRead(value, "\nfi\n");
    ColonIsRead(value);
    hide ReadWord, Joined, Launchers.Quote;
    PathRegrouped("if [ -n \"${PATH:-}\" ]; then\nexport PATH=", Launchers.Quote(value));
  }

  lemma PathRegrouped(first: string, quoted: string)
    ensures first + quoted + ":\"$PATH\"\nelse\nexport PATH=" + quoted + "\nfi\n"
            == first + (quoted + OLD_PATH) + "export PATH=" + (quoted + "\nfi\n")
  {
    assert ":\"$PATH\"\nelse\nexport PATH=" == OLD_PATH + "export PATH=";
    Associates(first, quoted, OLD_PATH);
    Associates(first + quoted, OLD_PATH, "export PATH=");
    Associates(first + (quoted + OLD_PATH) + "export PATH=", quoted, "\nfi\n");
  }

  lemma ColonIsRead(value: string)
    ensures ReadWord(Launchers.Quote(value) + OLD_PATH, false) == Some((value + ":", "\"$PATH\"\nelse\n"))
  {
    var body := Launchers.QuoteBody(value) + ("'" + OLD_PATH);
    assert Launchers.Quote(value) + OLD_PATH == "'" + body;
    assert ("'" + body)[1..] == body;
    QuotedBodyIsRead(value, OLD_PATH);
    hide Launchers.QuoteBody;
    var rest := "\"$PATH\"\nelse\n";
    assert OLD_PATH == ":" + rest && OLD_PATH[1..] == rest;
    assert ReadWord(rest, false) == Some(("", rest));
    assert ":" + "" == ":";
    assert ReadWord(OLD_PATH, false) == Some((":", rest));
  }
}
