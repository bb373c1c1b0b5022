// What a typed line has to look like to be a command, said on the text of the line.
module CommandLines {
  import opened Options
  import opened Conference
  import opened Messages
  import opened ClientLines

  // ----- lines and their words -----

  predicate Blank(s: string) { forall i :: 0 <= i < |s| ==> s[i] == ' ' || s[i] == '\n' }

  predicate Solid(s: string) { s != "" && ' ' !in s && '\n' !in s }

  /** A blank, or the end. */
  predicate Ended(s: string) { s == "" || s[0] == ' ' || s[0] == '\n' }

  /** The line is these words with blanks between them, and perhaps before and behind. */
  ghost predicate Spells(line: string, ws: seq<string>)
    decreases |ws|
  {
    if ws == [] then Blank(line)
    else exists gap, rest :: line == gap + ws[0] + rest && Blank(gap) && Solid(ws[0]) && Ended(rest)
                             && Spells(rest, ws[1..])
  }

  lemma {:induction false} StartAfter(gap: string, rest: string)
    requires Blank(gap) && (rest == "" || !Delimiter(rest[0]))
    ensures TokenStart(gap + rest) == |gap|
    decreases |gap|
  {
    if gap == "" {
      assert gap + rest == rest;
    } else {
      assert (gap + rest)[1..] == gap[1..] + rest;
      StartAfter(gap[1..], rest);
    }
  }

  lemma EndAfter(gap: string, word: string, rest: string)
    requires Solid(word) && Ended(rest)
    ensures TokenEnd(gap + word + rest, |gap|) == |gap| + |word|
  {
    var s, k := gap + word + rest, TokenEnd(gap + word + rest, |gap|);
    forall j | |gap| <= j < |gap| + |word| ensures !Delimiter(s[j]) {
      assert s[j] == word[j - |gap|];
    }
    assert rest != "" ==> s[|gap| + |word|] == rest[0];
  }

  lemma WordsAfter(gap: string, word: string, rest: string)
    requires Blank(gap) && Solid(word) && Ended(rest)
    ensures Words(gap + word + rest) == [word] + Words(rest)
  {
    var line := gap + word + rest;
    assert line == gap + (word + rest);
    StartAfter(gap, word + rest);
    EndAfter(gap, word, rest);
    assert line[|gap|..|gap| + |word|] == word && line[|gap| + |word|..] == rest;
  }

  lemma NoWords(line: string)
    requires Blank(line)
    ensures Words(line) == []
  {
    assert line + "" == line;
    StartAfter(line, "");
  }

  lemma {:induction false} SpelledWords(line: string, ws: seq<string>)
    requires Spells(line, ws)
    ensures Words(line) == ws
    decreases |ws|
  {
    hide Words;
    if ws == [] {
      NoWords(line);
    } else {
      var gap, rest :| line == gap + ws[0] + rest && Blank(gap) && Solid(ws[0]) && Ended(rest) && Spells(rest, ws[1..]);
      SpelledWords(rest, ws[1..]);
      WordsAfter(gap, ws[0], rest);
    }
  }

  lemma {:induction false} WordsSpelled(line: string)
    ensures Spells(line, Words(line))
    decreases |line|
  {
    hide Words, Spells, TokenStart, TokenEnd;
    var a := TokenStart(line);
    if a == |line| {
      NoWord(line);
      assert Spells(line, []) by { BlankSpells(line); }
    } else {
      var b := TokenEnd(line, a);
      TokenIsLonger(line, a);
      WordsSpelled(line[b..]);
      SpellsOneMore(line[..a], line[a..b], line[b..], Words(line[b..]));
      assert line == line[..a] + line[a..b] + line[b..];
      NextWord(line);
    }
  }

  lemma BlankSpells(line: string)
    requires Blank(line)
    ensures Spells(line, [])
  {
  }

  lemma SpellsOneMore(gap: string, word: string, rest: string, ws: seq<string>)
    requires Blank(gap) && Solid(word) && Ended(rest) && Spells(rest, ws)
    ensures Spells(gap + word + rest, [word] + ws)
  {
    assert ([word] + ws)[1..] == ws;
  }

  /** The loop over strtok finds exactly the words that a line is made of. */
  lemma WordsExactly(line: string, ws: seq<string>)
    ensures Spells(line, ws) <==> Words(line) == ws
  {
    hide Words, Spells;
    WordsSpelled(line);
    if Spells(line, ws) { SpelledWords(line, ws); }
  }

  // ----- commands -----

  /** A line that starts with a slash and has these words. */
  ghost predicate Reads(line: string, ws: seq<string>) { line != "" && line[0] == '/' && Spells(line, ws) }

  lemma CutsOf(line: string, ws: seq<string>)
    requires line != "" && line[0] == '/' && |ws| <= MAX_WORDS
    ensures Spells(line, ws) <==> Cuts(line) == (ws, |ws|)
  {
    hide Words, Spells;
    WordsExactly(line, ws);
  }

  lemma NotCut(line: string)
    requires line != "" && line[0] != '/'
    ensures Cuts(line).1 == 0
  {
    hide Words;
  }

  /** Commands of one word. */
  lemma BareCommands(line: string)
    ensures Meant(line) == Some(DoLogout) <==> Reads(line, ["/logout"]) || Reads(line, ["/quit"])
    ensures Meant(line) == Some(DoList) <==> Reads(line, ["/list"])
    ensures Meant(line) == Some(DoLeave) <==> Reads(line, ["/leavesession"])
  {
    hide Words, Spells, Cuts;
    if line != "" && line[0] == '/' {
      var input := Cuts(line).0;
      assert |input| == 1 ==> input == [input[0]];
      CutsOf(line, ["/logout"]);
      CutsOf(line, ["/quit"]);
      CutsOf(line, ["/list"]);
      CutsOf(line, ["/leavesession"]);
    } else if line != "" {
      NotCut(line);
    }
  }

  /** Commands of two words. */
  lemma CommandsOnOne(line: string, v: string)
    ensures Meant(line) == Some(DoKick(v)) <==> Reads(line, ["/kick", v])
    ensures Meant(line) == Some(DoPromote(v)) <==> Reads(line, ["/promote", v])
    ensures Meant(line) == Some(DoJoin(v)) <==> Reads(line, ["/joinsession", v])
    ensures Meant(line) == Some(DoCreate(v)) <==> Reads(line, ["/createsession", v])
    ensures Meant(line) == Some(DoUserList(v)) <==> Reads(line, ["/userlist", v])
  {
    hide Words, Spells, Cuts;
    if line != "" && line[0] == '/' {
      var input := Cuts(line).0;
      assert |input| == 2 ==> input == [input[0], input[1]];
      CutsOf(line, ["/kick", v]);
      CutsOf(line, ["/promote", v]);
      CutsOf(line, ["/joinsession", v]);
      CutsOf(line, ["/createsession", v]);
      CutsOf(line, ["/userlist", v]);
    } else if line != "" {
      NotCut(line);
    }
  }

  /** Commands of five words: the last two, the server's address, are not in the command. */
  ghost predicate Asks(line: string, word: string, name: string, password: string) {
    exists ip, port :: Reads(line, [word, name, password, ip, port])
  }

  lemma AsksExactly(line: string, word: string, name: string, password: string)
    requires line != "" && line[0] == '/'
    ensures Asks(line, word, name, password)
       <==> var (input, index) := Cuts(line);
            |input| == index == 5 && input[..3] == [word, name, password]
  {
    hide Words, Spells, Cuts;
    var (input, index) := Cuts(line);
    if |input| == index == 5 && input[..3] == [word, name, password] {
      assert input == [word, name, password, input[3], input[4]];
      CutsOf(line, [word, name, password, input[3], input[4]]);
      assert Reads(line, [word, name, password, input[3], input[4]]);
    }
    if ip, port :| Reads(line, [word, name, password, ip, port]) {
      CutsOf(line, [word, name, password, ip, port]);
    }
  }

  lemma SigningOn(line: string, name: string, password: string)
    ensures Meant(line) == Some(DoLogin(name, password)) <==> Asks(line, "/login", name, password)
    ensures Meant(line) == Some(DoRegister(name, password)) <==> Asks(line, "/create", name, password)
  {
    hide Words, Spells, Cuts;
    if line != "" && line[0] == '/' {
      AsksExactly(line, "/login", name, password);
      AsksExactly(line, "/create", name, password);
    } else if line != "" {
      NotCut(line);
    }
  }

  /** What is typed as text: no blank line of one newline, and no word that starts with a
      slash in front. */
  lemma TextLines(line: string, text: string)
    ensures Meant(line) == Some(DoSay(text))
       <==> line != "" && line[0] != '\n' && text == line[..|line| - 1]
            && (Blank(line) || exists gap, word, rest :: FirstIs(line, gap, word, rest) && word[0] != '/')
  {
    hide Words, Spells;
    if line != "" {
      WordsSpelled(line);
      if Words(line) == [] {
        assert Blank(line) by { BlankIs(line); }
      } else {
        var gap, rest := FirstSpelled(line, Words(line));
        assert FirstIs(line, gap, Words(line)[0], rest);
      }
      if gap, word, rest :| FirstIs(line, gap, word, rest) && word[0] != '/' {
        WordsAfter(gap, word, rest);
      }
      if Blank(line) { NoWords(line); }
    }
  }

  ghost predicate FirstIs(line: string, gap: string, word: string, rest: string) {
    line == gap + word + rest && Blank(gap) && Solid(word) && Ended(rest)
  }

  lemma BlankIs(line: string)
    requires Spells(line, [])
    ensures Blank(line)
  {
  }

  lemma FirstSpelled(line: string, ws: seq<string>) returns (gap: string, rest: string)
    requires ws != [] && Spells(line, ws)
    ensures FirstIs(line, gap, ws[0], rest)
  {
    gap, rest :| line == gap + ws[0] + rest && Blank(gap) && Solid(ws[0]) && Ended(rest) && Spells(rest, ws[1..]);
  }

  // ----- as they are usually typed -----

  lemma LastWord(word: string)
    requires Solid(word)
    ensures Spells(" " + word + "\n", [word])
  {
    assert Spells("\n", []);
    SpellsOneMore(" ", word, "\n", []);
    assert [word] + [] == [word];
  }

  lemma WordBefore(word: string, line: string, ws: seq<string>)
    requires Solid(word) && Spells(line, ws) && line != "" && line[0] == ' '
    ensures Spells(word + line, [word] + ws) && Spells(" " + word + line, [word] + ws)
  {
    hide Spells;
    SpellsOneMore("", word, line, ws);
    assert "" + word + line == word + line;
    SpellsOneMore(" ", word, line, ws);
  }

  lemma TypedPair(command: string, v: string)
    requires Solid(command) && command[0] == '/' && Solid(v)
    ensures Reads(command + " " + v + "\n", [command, v])
  {
    hide Spells;
    LastWord(v);
    WordBefore(command, " " + v + "\n", [v]);
    assert command + (" " + v + "\n") == command + " " + v + "\n";
    assert [command] + [v] == [command, v];
  }

  /** One word, one space, one argument. */
  lemma TypedOnOne(v: string)
    requires Token(v)
    ensures Meant("/kick " + v + "\n") == Some(DoKick(v))
    ensures Meant("/promote " + v + "\n") == Some(DoPromote(v))
    ensures Meant("/joinsession " + v + "\n") == Some(DoJoin(v))
    ensures Meant("/createsession " + v + "\n") == Some(DoCreate(v))
    ensures Meant("/userlist " + v + "\n") == Some(DoUserList(v))
  {
    hide Meant, Reads;
    TypedIs("/kick", "/kick ", v);
    CommandsOnOne("/kick " + v + "\n", v);
    TypedIs("/promote", "/promote ", v);
    CommandsOnOne("/promote " + v + "\n", v);
    TypedMove(v);
  }

  lemma TypedMove(v: string)
    requires Token(v)
    ensures Meant("/joinsession " + v + "\n") == Some(DoJoin(v))
    ensures Meant("/createsession " + v + "\n") == Some(DoCreate(v))
    ensures Meant("/userlist " + v + "\n") == Some(DoUserList(v))
  {
    hide Meant, Reads;
    TypedIs("/joinsession", "/joinsession ", v);
    CommandsOnOne("/joinsession " + v + "\n", v);
    TypedIs("/createsession", "/createsession ", v);
    CommandsOnOne("/createsession " + v + "\n", v);
    TypedIs("/userlist", "/userlist ", v);
    CommandsOnOne("/userlist " + v + "\n", v);
  }

  lemma TypedIs(command: string, start: string, v: string)
    requires Solid(command) && command[0] == '/' && Solid(v) && start == command + " "
    ensures Reads(start + v + "\n", [command, v])
  {
    hide Reads;
    TypedPair(command, v);
  }

  lemma TypedFive(command: string, name: string, password: string, ip: string, port: string)
    requires Solid(command) && command[0] == '/' && Solid(name) && Solid(password) && Solid(ip) && Solid(port)
    ensures Asks(command + " " + name + " " + password + " " + ip + " " + port + "\n", command, name, password)
  {
    hide Spells, Solid, Reads;
    var l4 := " " + port + "\n";
    var l3 := " " + ip + l4;
    var l2 := " " + password + l3;
    LastWord(port);
    WordBefore(ip, l4, [port]);
    WordBefore(password, l3, [ip] + [port]);
    WordBefore(name, l2, [password] + ([ip] + [port]));
    FiveRead(command, name, l2, [password] + ([ip] + [port]));
    assert [command, name] + ([password] + ([ip] + [port])) == [command, name, password, ip, port];
    Spaced(command + " " + name, password, l3);
    Spaced(command + " " + name + " " + password, ip, l4);
    Spaced(command + " " + name + " " + password + " " + ip, port, "\n");
  }

  lemma FiveRead(command: string, name: string, line: string, ws: seq<string>)
    requires Solid(command) && command[0] == '/' && Solid(name)
    requires Spells(line, ws) && line != "" && line[0] == ' '
    ensures Reads(command + " " + name + line, [command, name] + ws)
  {
    hide Spells;
    WordBefore(name, line, ws);
    WordBefore(command, " " + name + line, [name] + ws);
    Spaced(command, name, line);
    assert [command] + ([name] + ws) == [command, name] + ws;
  }

  lemma Spaced(x: string, y: string, z: string)
    ensures x + (" " + y + z) == x + " " + y + z
  {
  }

  /** The name before the password, then where to connect. */
  lemma TypedSigningOn(name: string, password: string, ip: string, port: string)
    requires Token(name) && Token(password) && Token(ip) && Token(port)
    ensures Meant("/login " + name + " " + password + " " + ip + " " + port + "\n") == Some(DoLogin(name, password))
    ensures Meant("/create " + name + " " + password + " " + ip + " " + port + "\n") == Some(DoRegister(name, password))
  {
    hide Meant, Asks;
    TypedFive("/login", name, password, ip, port);
    TypedFive("/create", name, password, ip, port);
    assert "/login" + " " == "/login " && "/create" + " " == "/create ";
    SigningOn("/login " + name + " " + password + " " + ip + " " + port + "\n", name, password);
    SigningOn("/create " + name + " " + password + " " + ip + " " + port + "\n", name, password);
  }
}
