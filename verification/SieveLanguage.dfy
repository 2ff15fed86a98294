/** The part of the Sieve language that compiled rules stay in: a lexer, a parser and
    an evaluator after RFC 5228, with the extensions fileinto, imap4flags and body. */
module SieveLanguage {
  import opened Basics

  // ---- messages and actions -----------------------------------------------

  datatype Field = Field(name: string, value: string)

  datatype Message = Message(headers: seq<Field>, body: string)

  datatype Action = FileInto(mailbox: string) | SetFlag(flag: string) | Discard | Redirect(address: string)

  /** Default comparator: ASCII letters match in either case. */
  function Lower(s: string): string {
    seq(|s|, i requires 0 <= i < |s| => if 'A' <= s[i] <= 'Z' then s[i] - 'A' + 'a' else s[i])
  }

  predicate IsAt(text: string, key: string, i: nat) {
    i + |key| <= |text| && Lower(text[i..i + |key|]) == Lower(key)
  }

  ghost predicate Contains(text: string, key: string) { exists i: nat :: IsAt(text, key, i) }

  ghost predicate Matches(text: string, key: string, whole: bool) {
    if whole then Lower(text) == Lower(key) else Contains(text, key)
  }

  ghost predicate HeaderMatches(m: Message, name: string, key: string, whole: bool) {
    exists f :: f in m.headers && Lower(f.name) == Lower(name) && Matches(f.value, key, whole)
  }

  // ---- the lexer ----------------------------------------------------------

  datatype Token = Word(name: string) | Tag(name: string) | Text(value: string) | Punct(c: char)

  predicate Alpha(c: char) { 'a' <= c <= 'z' || 'A' <= c <= 'Z' || c == '_' }

  predicate IdentChar(c: char) { Alpha(c) || '0' <= c <= '9' }

  predicate IsBlank(c: char) { c == ' ' || c == '\t' || c == '\r' || c == '\n' }

  predicate IsPunct(c: char) { c in {'(', ')', '[', ']', '{', '}', ',', ';'} }

  /** Length of the identifier `s` starts with. */
  function IdentLength(s: string): (n: nat)
    ensures n <= |s|
  {
    if s == [] || !IdentChar(s[0]) then 0 else 1 + IdentLength(s[1..])
  }

  function AfterLine(s: string): (r: string)
    ensures |r| <= |s|
  {
    if s == [] then [] else if s[0] in {'\n', '\r'} then s[1..] else AfterLine(s[1..])
  }

  /** A quoted string after its opening quote: its value and what follows. A
      backslash stands for the character after it. */
  function Unquote(s: string): (r: Option<(string, string)>)
    ensures r.Some? ==> |r.value.1| < |s|
  {
    if s == [] then None
    else if s[0] == '"' then Some(("", s[1..]))
    else if s[0] == '\\' then
      if |s| == 1 then None else
      var rest := Unquote(s[2..]);
      if rest.Some? then Some(([s[1]] + rest.value.0, rest.value.1)) else None
    else
      var rest := Unquote(s[1..]);
      if rest.Some? then Some(([s[0]] + rest.value.0, rest.value.1)) else None
  }

  function Before(t: Token, ts: Option<seq<Token>>): Option<seq<Token>> {
    if ts.Some? then Some([t] + ts.value) else None
  }

  function Lex(s: string): Option<seq<Token>>
    decreases |s|
  {
    if s == [] then Some([])
    else if IsBlank(s[0]) then Lex(s[1..])
    else if s[0] == '#' then Lex(AfterLine(s[1..]))
    else if IsPunct(s[0]) then Before(Punct(s[0]), Lex(s[1..]))
    else if s[0] == '"' then
      var text := Unquote(s[1..]);
      if text.Some? then Before(Text(text.value.0), Lex(text.value.1)) else None
    else if s[0] == ':' then
      var n := IdentLength(s[1..]);
      if n > 0 then Before(Tag(s[1..n + 1]), Lex(s[n + 1..])) else None
    else if Alpha(s[0]) then
      var n := IdentLength(s);
      Before(Word(s[..n]), Lex(s[n..]))
    else None
  }

  // ---- the parser ---------------------------------------------------------

  datatype Test =
    | True
    | Not(test: Test)
    | AllOf(tests: seq<Test>)
    | AnyOf(tests: seq<Test>)
    | Header(whole: bool, name: string, key: string)
    | Body(key: string)

  datatype Command =
    | Require(extensions: seq<string>)
    | If(test: Test, block: seq<Command>)
    | Do(action: Action)
    | Stop

  function ParseTest(ts: seq<Token>): (r: Option<(Test, seq<Token>)>)
    ensures r.Some? ==> |r.value.1| < |ts|
    decreases |ts|, 0
  {
    if ts == [] then None
    else if ts[0] == Word("true") then Some((True, ts[1..]))
    else if ts[0] == Word("not") then
      var t := ParseTest(ts[1..]);
      if t.Some? then Some((Not(t.value.0), t.value.1)) else None
    else if (ts[0] == Word("allof") || ts[0] == Word("anyof")) && |ts| > 1 && ts[1] == Punct('(') then
      var list := ParseTests(ts[2..]);
      if list.None? then None
      else if ts[0] == Word("allof") then Some((AllOf(list.value.0), list.value.1))
      else Some((AnyOf(list.value.0), list.value.1))
    else if ts[0] == Word("header") && |ts| >= 4 && ts[1] in {Tag("is"), Tag("contains")}
            && ts[2].Text? && ts[3].Text? then
      Some((Header(ts[1] == Tag("is"), ts[2].value, ts[3].value), ts[4..]))
    else if ts[0] == Word("body") && |ts| >= 3 && ts[1] == Tag("contains") && ts[2].Text? then
      Some((Body(ts[2].value), ts[3..]))
    else None
  }

  /** Tests separated by commas, up to the closing parenthesis. */
  function ParseTests(ts: seq<Token>): (r: Option<(seq<Test>, seq<Token>)>)
    ensures r.Some? ==> |r.value.1| < |ts|
    decreases |ts|, 1
  {
    var t := ParseTest(ts);
    if t.None? || t.value.1 == [] then None
    else if t.value.1[0] == Punct(')') then Some(([t.value.0], t.value.1[1..]))
    else if t.value.1[0] == Punct(',') then
      var more := ParseTests(t.value.1[1..]);
      if more.Some? then Some(([t.value.0] + more.value.0, more.value.1)) else None
    else None
  }

  function ParseStrings(ts: seq<Token>): (r: Option<(seq<string>, seq<Token>)>)
    ensures r.Some? ==> |r.value.1| < |ts|
    decreases |ts|
  {
    if |ts| < 2 || !ts[0].Text? then None
    else if ts[1] == Punct(']') then Some(([ts[0].value], ts[2..]))
    else if ts[1] == Punct(',') then
      var more := ParseStrings(ts[2..]);
      if more.Some? then Some(([ts[0].value] + more.value.0, more.value.1)) else None
    else None
  }

  /** A command that takes at most one string. */
  function ParseSimple(ts: seq<Token>): (r: Option<(Command, seq<Token>)>)
    ensures r.Some? ==> |r.value.1| < |ts|
  {
    if |ts| >= 2 && ts[1] == Punct(';') then
      if ts[0] == Word("stop") then Some((Stop, ts[2..]))
      else if ts[0] == Word("discard") then Some((Do(Discard), ts[2..]))
      else None
    else if |ts| >= 3 && ts[1].Text? && ts[2] == Punct(';') then
      if ts[0] == Word("fileinto") then Some((Do(FileInto(ts[1].value)), ts[3..]))
      else if ts[0] == Word("setflag") then Some((Do(SetFlag(ts[1].value)), ts[3..]))
      else if ts[0] == Word("redirect") then Some((Do(Redirect(ts[1].value)), ts[3..]))
      else None
    else None
  }

  function ParseCommand(ts: seq<Token>): (r: Option<(Command, seq<Token>)>)
    ensures r.Some? ==> |r.value.1| < |ts|
    decreases |ts|, 0
  {
    if ts == [] then None
    else if ts[0] == Word("if") then
      var t := ParseTest(ts[1..]);
      if t.None? || t.value.1 == [] || t.value.1[0] != Punct('{') then None else
      var block := ParseCommands(t.value.1[1..]);
      if block.value.1 == [] || block.value.1[0] != Punct('}') then None
      else Some((If(t.value.0, block.value.0), block.value.1[1..]))
    else if |ts| > 1 && ts[0] == Word("require") && ts[1] == Punct('[') then
      var list := ParseStrings(ts[2..]);
      if list.None? || list.value.1 == [] || list.value.1[0] != Punct(';') then None
      else Some((Require(list.value.0), list.value.1[1..]))
    else ParseSimple(ts)
  }

  /** Commands as far as they go. */
  function ParseCommands(ts: seq<Token>): (r: Option<(seq<Command>, seq<Token>)>)
    ensures r.Some? && |r.value.1| <= |ts|
    decreases |ts|, 1
  {
    var c := ParseCommand(ts);
    if c.None? then Some(([], ts)) else
    var more := ParseCommands(c.value.1);
    Some(([c.value.0] + more.value.0, more.value.1))
  }

  function Parse(text: string): Option<seq<Command>> {
    var tokens := Lex(text);
    if tokens.None? then None else
    var commands := ParseCommands(tokens.value);
    if commands.value.1 == [] then Some(commands.value.0) else None
  }

  // ---- the evaluator ------------------------------------------------------

  ghost predicate TestHolds(t: Test, m: Message) {
    match t
    case True => true
    case Not(u) => !TestHolds(u, m)
    case AllOf(us) => forall u :: u in us ==> TestHolds(u, m)
    case AnyOf(us) => exists u :: u in us && TestHolds(u, m)
    case Header(whole, name, key) => HeaderMatches(m, name, key, whole)
    case Body(key) => Contains(m.body, key)
  }

  /** The actions performed, and whether the script was stopped. */
  ghost function Perform(commands: seq<Command>, m: Message): (seq<Action>, bool) {
    if commands == [] then ([], false) else
    var first := match commands[0]
                 case Require(_) => ([], false)
                 case If(t, block) => if TestHolds(t, m) then Perform(block, m) else ([], false)
                 case Do(a) => ([a], false)
                 case Stop => ([], true);
    if first.1 then first else
    var rest := Perform(commands[1..], m);
    (first.0 + rest.0, rest.1)
  }

  predicate TestUsesBody(t: Test) {
    match t
    case Not(u) => TestUsesBody(u)
    case AllOf(us) => exists u :: u in us && TestUsesBody(u)
    case AnyOf(us) => exists u :: u in us && TestUsesBody(u)
    case Body(_) => true
    case _ => false
  }

  /** The extensions a script needs. */
  function Needs(commands: seq<Command>): set<string> {
    if commands == [] then {} else
    Needs(commands[1..]) +
    match commands[0]
    case If(t, block) => (if TestUsesBody(t) then {"body"} else {}) + Needs(block)
    case Do(FileInto(_)) => {"fileinto"}
    case Do(SetFlag(_)) => {"imap4flags"}
    case _ => {}
  }

  function Declared(commands: seq<Command>): set<string> {
    if commands == [] || !commands[0].Require? then {}
    else (set e | e in commands[0].extensions) + Declared(commands[1..])
  }

  /** What a script performs on a message; none if it does not parse. */
  ghost function Evaluate(text: string, m: Message): Option<seq<Action>> {
    var script := Parse(text);
    if script.Some? then Some(Perform(script.value, m).0) else None
  }

  /** A script is valid when it parses and declares every extension it needs. */
  predicate Valid(text: string) {
    var script := Parse(text);
    script.Some? && Needs(script.value) <= Declared(script.value)
  }
}
