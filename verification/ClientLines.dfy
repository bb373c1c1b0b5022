// What main of client/client.c makes of a typed line: the words that strtok cuts, the
// command they name and the checks of their number.
module ClientLines {
  import opened Options
  import opened Conference
  import opened Messages

  /** All the words of a line. */
  function Words(line: string): seq<string>
    decreases |line|
  {
    var a := TokenStart(line);
    if a == |line| then []
    else
      var b := TokenEnd(line, a);
      [line[a..b]] + Words(line[b..])
  }

  const MAX_WORDS := 5

  /** input[] and index after the loop over the tokens: a line that does not start with '/'
      is not cut further than its first word, and a sixth word only counts. */
  function Cuts(line: string): (r: (seq<string>, nat))
    ensures |r.0| <= MAX_WORDS
  {
    var ws := Words(line);
    if line == "" || line[0] != '/' then (if ws == [] then [] else [ws[0]], 0)
    else if |ws| <= MAX_WORDS then (ws, |ws|)
    else (ws[..MAX_WORDS], MAX_WORDS + 1)
  }

  /** check_commands and parameter_count_validate: the command, if the line is one.
      A program that quits logs out first. */
  function Named(input: seq<string>, index: nat, line: string): Option<Command>
    requires line != ""
  {
    if input == [] || input[0] == "" || input[0][0] != '/' then Some(DoSay(line[..|line| - 1]))
    else if index != |input| then None
    else if |input| == 1 then
      if input[0] == "/quit" || input[0] == "/logout" then Some(DoLogout)
      else if input[0] == "/list" then Some(DoList)
      else if input[0] == "/leavesession" then Some(DoLeave)
      else None
    else if |input| == 2 then
      if input[0] == "/userlist" then Some(DoUserList(input[1]))
      else if input[0] == "/joinsession" then Some(DoJoin(input[1]))
      else if input[0] == "/createsession" then Some(DoCreate(input[1]))
      else if input[0] == "/promote" then Some(DoPromote(input[1]))
      else if input[0] == "/kick" then Some(DoKick(input[1]))
      else None
    else if |input| == 5 then
      if input[0] == "/login" then Some(DoLogin(input[1], input[2]))
      else if input[0] == "/create" then Some(DoRegister(input[1], input[2]))
      else None
    else None
  }

  /** What a line read by getline asks for. */
  function Meant(line: string): Option<Command> {
    if line == "" || line[0] == '\n' then None
    else var (input, index) := Cuts(line); Named(input, index, line)
  }

  lemma NobodyTypesCrash(line: string)
    ensures Meant(line).Some? ==> !Meant(line).value.Crash?
  {
  }

  /** A line as getline returns it; its words fit the buffers of 50 bytes. */
  predicate Typed(line: string) {
    line != "" && line[|line| - 1] == '\n' && '\n' !in line[..|line| - 1] && '\0' !in line
    && |line| <= MAX_DATA && forall i :: 0 <= i < |Cuts(line).0| ==> |Cuts(line).0[i]| < 50
  }

  lemma {:induction false} WordsAreTokens(line: string)
    requires '\0' !in line
    ensures forall i :: 0 <= i < |Words(line)| ==> Token(Words(line)[i])
    decreases |line|
  {
    var a := TokenStart(line);
    if a < |line| {
      var b := TokenEnd(line, a);
      assert forall c :: c in line[b..] ==> c in line;
      WordsAreTokens(line[b..]);
      assert Token(line[a..b]) by { TokenCut(line, a, b); }
    }
  }

  lemma TokenCut(line: string, a: nat, b: nat)
    requires '\0' !in line && a < b <= |line| && forall j :: a <= j < b ==> !Delimiter(line[j])
    ensures Token(line[a..b])
  {
    var w := line[a..b];
    assert forall j :: 0 <= j < |w| ==> w[j] == line[a + j];
  }

  /** The words of a command, as main hands them on. */
  predicate WellTyped(c: Command) {
    match c
    case DoLogin(name, password) => Token(name) && Token(password)
    case DoRegister(name, password) => Token(name) && Token(password)
    case DoJoin(session) => Token(session)
    case DoCreate(session) => Token(session)
    case DoKick(target) => Token(target)
    case DoPromote(target) => Token(target)
    case DoUserList(session) => Token(session) && |session| < 50
    case DoSay(text) => Chat(text + "\n")
    case Crash => false
    case _ => true
  }

  lemma NamedIsWellTyped(input: seq<string>, index: nat, line: string)
    requires line != "" && Named(input, index, line).Some? && !Named(input, index, line).value.DoSay?
    requires forall i :: 0 <= i < |input| ==> Token(input[i]) && |input[i]| < 50
    ensures WellTyped(Named(input, index, line).value)
  {
    hide Chat, Token;
  }

  lemma CutsAreTokens(line: string)
    requires Typed(line)
    ensures forall i :: 0 <= i < |Cuts(line).0| ==> Token(Cuts(line).0[i]) && |Cuts(line).0[i]| < 50
  {
    hide Words, Token;
    WordsAreTokens(line);
  }

  /** A line that is not a command is chat. */
  lemma SayIsChat(line: string)
    requires Typed(line) && line[0] != '\n'
    requires var input := Cuts(line).0; input == [] || input[0] == "" || input[0][0] != '/'
    ensures Chat(line)
  {
    hide Words;
    FirstWord(line);
  }

  /** Whatever is typed, the command loop gets well-formed words, and what is sent as chat
      is a line that the message format carries. */
  lemma MeantIsWellTyped(line: string)
    requires Typed(line) && Meant(line).Some?
    ensures WellTyped(Meant(line).value)
  {
    hide Chat, Token, Cuts, Typed;
    EndsInNewline(line);
    CutsAreTokens(line);
    var (input, index) := Cuts(line);
    if Meant(line).value.DoSay? {
      SayIsChat(line);
    } else {
      NamedIsWellTyped(input, index, line);
    }
  }

  lemma EndsInNewline(line: string)
    requires Typed(line)
    ensures line != "" && line[..|line| - 1] + "\n" == line
  {
  }

  lemma FirstWord(line: string)
    ensures Words(line) == [] <==> TokenStart(line) == |line|
    ensures Words(line) != [] ==> Words(line)[0] == line[TokenStart(line)..TokenEnd(line, TokenStart(line))]
  {
  }

  // ----- the loop as it is written -----

  lemma NextWord(rest: string)
    requires TokenStart(rest) < |rest|
    ensures var end := TokenEnd(rest, TokenStart(rest));
            Words(rest) == [rest[TokenStart(rest)..end]] + Words(rest[end..])
  {
  }

  lemma NoWord(rest: string)
    ensures TokenStart(rest) == |rest| ==> Words(rest) == []
  {
  }

  /** The words taken so far, and the others. */
  lemma CutsAre(line: string, input: seq<string>, others: seq<string>)
    requires line != "" && Words(line) == input + others
    ensures line[0] == '/' && others == [] && |input| <= MAX_WORDS ==> Cuts(line) == (input, |input|)
    ensures line[0] == '/' && others != [] && |input| == MAX_WORDS ==> Cuts(line) == (input, MAX_WORDS + 1)
    ensures line[0] != '/' && (|input| == 1 || input + others == []) ==> Cuts(line) == (input, 0)
  {
    hide Words;
    var ws := Words(line);
    assert others == [] ==> ws == input;
    assert ws[..|input|] == input;
    assert |input| == 1 ==> input == [ws[0]];
  }

  /** The loop over strtok: its remaining text stands for strtok's hidden pointer. */
  method SplitLine(line: string) returns (input: seq<string>, index: nat)
    requires line != ""
    ensures (input, index) == Cuts(line)
  {
    hide Words, Cuts, TokenStart, TokenEnd;
    input, index := [], 0;
    var rest := line;
    var start := TokenStart(rest);
    assert [] + Words(line) == Words(line);
    while start < |rest|
      invariant start == TokenStart(rest) <= |rest|
      invariant index == |input| <= MAX_WORDS && (index > 0 ==> line[0] == '/')
      invariant input + Words(rest) == Words(line)
      decreases |rest|
    {
      NextWord(rest);
      if index == MAX_WORDS {
        CutsAre(line, input, Words(rest));
        index := index + 1;
        return;
      }
      var end := TokenEnd(rest, start);
      var word := rest[start..end];
      assert input + ([word] + Words(rest[end..])) == (input + [word]) + Words(rest[end..]);
      input := input + [word];
      if line[0] != '/' {
        CutsAre(line, input, Words(rest[end..]));
        return;
      }
      index := index + 1;
      TokenIsLonger(rest, start);
      rest := rest[end..];
      start := TokenStart(rest);
    }
    NoWord(rest);
    CutsAre(line, input, Words(rest));
  }

  lemma TokenIsLonger(s: string, from: nat)
    requires from < |s| && !Delimiter(s[from])
    ensures TokenEnd(s, from) > from
  {
  }
}
