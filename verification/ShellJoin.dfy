/** Joining an argument vector into one command line, against a reader that splits a command line by
    the quoting and token rules of POSIX.1-2017, Shell Command Language, sections 2.2.1, 2.2.2 and 2.3. */
module ShellJoin {
  import opened Results

  // ---------------------------------------------------------------- shell_join

  /** Every single quote becomes: close the quotes, an escaped quote, open them again. */
  function Escaped(a: string): string {
    if a == "" then "" else (if a[0] == '\'' then "'\\''" else [a[0]]) + Escaped(a[1..])
  }

  function Quoted(a: string): string { "'" + Escaped(a) + "'" }

  function ShellJoin(args: seq<string>): string {
    if args == [] then ""
    else if |args| == 1 then Quoted(args[0])
    else Quoted(args[0]) + " " + ShellJoin(args[1..])
  }

  // ---------------------------------------------------------------- the shell's reading of a line

  /** A word, and whether any of it was quoted: a quoted word is never a reserved word or an alias,
      and is not subject to expansion. */
  datatype Word = Word(text: string, quoted: bool)

  predicate Blank(c: char) { c == ' ' || c == '\t' }

  /** Characters that mean something to the shell unquoted; the reader gives up on them. */
  predicate Special(c: char) {
    c in "|&;<>()$`\"*?[]#~=%!{}\n"
  }

  function Push(word: Option<Word>, more: string, quoted: bool): Option<Word> {
    match word
    case None => Some(Word(more, quoted))
    case Some(w) => Some(Word(w.text + more, w.quoted || quoted))
  }

  function Finished(word: Option<Word>, words: seq<Word>): seq<Word> {
    match word
    case None => words
    case Some(w) => words + [w]
  }

  /** Read the rest of a line: `word` is the word under construction, `inside` says single quotes are open. */
  function Read(s: string, inside: bool, word: Option<Word>, words: seq<Word>): Option<seq<Word>>
    decreases |s|
  {
    if s == "" then
      if inside then None else Some(Finished(word, words))
    else if inside then
      if s[0] == '\'' then Read(s[1..], false, word, words)
      else Read(s[1..], true, Push(word, [s[0]], true), words)
    else if s[0] == '\'' then Read(s[1..], true, Push(word, "", true), words)
    else if s[0] == '\\' then
      if |s| == 1 then None
      else if s[1] == '\n' then Read(s[2..], false, word, words)
      else Read(s[2..], false, Push(word, [s[1]], true), words)
    else if Blank(s[0]) then Read(s[1..], false, None, Finished(word, words))
    else if Special(s[0]) then None
    else Read(s[1..], false, Push(word, [s[0]], false), words)
  }

  function Split(line: string): Option<seq<Word>> { Read(line, false, None, []) }

  // ---------------------------------------------------------------- they are inverse

  /** Inside quotes, reading the escaped text appends the text. */
  lemma {:induction false} ReadEscaped(a: string, rest: string, before: string, words: seq<Word>)
    ensures Read(Escaped(a) + rest, true, Some(Word(before, true)), words)
            == Read(rest, true, Some(Word(before + a, true)), words)
    decreases |a|
  {
    if a == "" {
      assert Escaped(a) + rest == rest && before + a == before;
    } else {
      var tail := Escaped(a[1..]) + rest;
      assert before + a == before + [a[0]] + a[1..];
      if a[0] == '\'' {
        ReadQuote(tail, before, words);
        assert Escaped(a) + rest == "'\\''" + tail;
      } else {
        assert Escaped(a) + rest == [a[0]] + tail;
        assert ([a[0]] + tail)[1..] == tail;
      }
      ReadEscaped(a[1..], rest, before + [a[0]], words);
    }
  }

  /** The escape for one quote, read inside quotes, leaves one quote character and the quotes open. */
  lemma ReadQuote(tail: string, before: string, words: seq<Word>)
    ensures Read("'\\''" + tail, true, Some(Word(before, true)), words)
            == Read(tail, true, Some(Word(before + "'", true)), words)
  {
    var s := "'\\''" + tail;
    assert s[1..] == "\\''" + tail;
    assert s[1..][2..] == "'" + tail;
    assert ("'" + tail)[1..] == tail;
    assert before + "'" + "" == before + "'";
    calc {
      Read(s, true, Some(Word(before, true)), words);
      Read("\\''" + tail, false, Some(Word(before, true)), words);
      Read("'" + tail, false, Some(Word(before + "'", true)), words);
      Read(tail, true, Some(Word(before + "'", true)), words);
    }
  }

  /** One quoted argument is read as one word, whatever follows it. */
  lemma ReadQuoted(a: string, rest: string, words: seq<Word>)
    ensures Read(Quoted(a) + rest, false, None, words) == Read(rest, false, Some(Word(a, true)), words)
  {
    assert Quoted(a) + rest == "'" + (Escaped(a) + ("'" + rest));
    assert ("'" + (Escaped(a) + ("'" + rest)))[1..] == Escaped(a) + ("'" + rest);
    ReadEscaped(a, "'" + rest, "", words);
    assert "" + a == a && ("'" + rest)[1..] == rest;
  }

  /** The arguments, each a quoted word. */
  function Words(args: seq<string>): seq<Word> { seq(|args|, i requires 0 <= i < |args| => Word(args[i], true)) }

  lemma WordsOfRest(args: seq<string>, words: seq<Word>)
    requires args != []
    ensures words + Words(args) == words + [Word(args[0], true)] + Words(args[1..])
  {
  }

  lemma {:induction false} ReadJoined(args: seq<string>, words: seq<Word>)
    ensures Read(ShellJoin(args), false, None, words) == Some(words + Words(args))
    decreases |args|
  {
    if args == [] {
      assert words + Words(args) == words;
    } else {
      var w := Word(args[0], true);
      WordsOfRest(args, words);
      if |args| == 1 {
        ReadQuoted(args[0], "", words);
        assert Quoted(args[0]) + "" == ShellJoin(args);
        assert words + [w] + Words(args[1..]) == words + [w];
      } else {
        var rest := ShellJoin(args[1..]);
        ReadQuoted(args[0], " " + rest, words);
        assert ShellJoin(args) == Quoted(args[0]) + (" " + rest);
        ReadJoined(args[1..], words + [w]);
      }
    }
  }

  /** The shell reads back exactly the argument vector, every word quoted: empty arguments, quotes,
      blanks, newlines and metacharacters included. */
  lemma SplitJoin(args: seq<string>)
    ensures Split(ShellJoin(args)) == Some(Words(args))
  {
    ReadJoined(args, []);
    assert [] + Words(args) == Words(args);
  }

  /** So different vectors give different command lines. */
  lemma JoinInjective(args: seq<string>, other: seq<string>)
    requires ShellJoin(args) == ShellJoin(other)
    ensures args == other
  {
    SplitJoin(args);
    SplitJoin(other);
    assert |Words(args)| == |Words(other)|;
    forall i | 0 <= i < |args| ensures args[i] == other[i] {
      assert Words(args)[i] == Words(other)[i];
    }
  }
}
