/** Filter rules compiled to a Sieve script, and what the script means. */
module SieveCompiler {
  import opened Basics
  import Escapes
  import opened SieveLanguage

  // ---- rules --------------------------------------------------------------

  datatype Cond = Cond(field: string, op: string, value: string)

  datatype Act = Act(kind: string, value: Option<string>)

  datatype Rule = Rule(name: string, matchAll: bool, conditions: seq<Cond>, actions: seq<Act>)

  // ---- what rules mean ----------------------------------------------------

  ghost predicate CondHolds(c: Cond, m: Message) {
    var found :=
      if c.field == "body" then Contains(m.body, c.value)
      else HeaderMatches(m, if c.field in {"from", "to"} then c.field else "subject", c.value, c.op == "is");
    if c.op == "notContains" then !found else found
  }

  ghost predicate RuleHolds(r: Rule, m: Message) {
    if r.conditions == [] then true
    else if r.matchAll then forall c :: c in r.conditions ==> CondHolds(c, m)
    else exists c :: c in r.conditions && CondHolds(c, m)
  }

  /** What one action of a rule asks for; nothing if it is not supported. */
  function Asked(a: Act): seq<Action> {
    var value := if a.value.Some? then a.value.value else if a.kind == "move" then "INBOX" else "";
    if a.kind == "move" then [FileInto(value)]
    else if a.kind == "markRead" then [SetFlag("\\Seen")]
    else if a.kind == "star" then [SetFlag("\\Flagged")]
    else if a.kind == "delete" then [Discard]
    else if a.kind == "forward" then [Redirect(value)]
    else []
  }

  function Supported(actions: seq<Act>): seq<Action> {
    if actions == [] then [] else Asked(actions[0]) + Supported(actions[1..])
  }

  /** The supported actions of the first matching rule. */
  ghost function FirstMatch(rules: seq<Rule>, m: Message): seq<Action> {
    if rules == [] then []
    else if RuleHolds(rules[0], m) then Supported(rules[0].actions)
    else FirstMatch(rules[1..], m)
  }

  predicate UsesBody(rules: seq<Rule>) {
    exists r :: r in rules && exists c :: c in r.conditions && c.field == "body"
  }

  predicate IsBreak(c: char) { c == '\n' || c == '\r' }

  ghost predicate OneLine(s: string) { forall c :: c in s ==> !IsBreak(c) }

  /** The first line of `s`, without the break that ends it. */
  function FirstLine(s: string): (line: string) {
    if s == [] || IsBreak(s[0]) then [] else [s[0]] + FirstLine(s[1..])
  }

  /** A line that is blank or a comment. */
  predicate IdleLine(line: string) {
    line == [] || line[0] == '#' || (IsBlank(line[0]) && IdleLine(line[1..]))
  }

  /** All lines of `s` are. */
  predicate IdleLines(s: string)
    decreases |s|
  {
    IdleLine(FirstLine(s)) && (|FirstLine(s)| < |s| ==> |AfterLine(s)| < |s| && IdleLines(AfterLine(s)))
  }

  /** Every line of a name after its first is blank or a comment. */
  predicate Harmless(name: string) { IdleLines(AfterLine(name)) }

  // ---- the compiler -------------------------------------------------------

  function Quote(s: string): string {
    "\"" + Escapes.Replace(Escapes.Replace(s, "\\", "\\\\"), "\"", "\\\"") + "\""
  }

  function HeaderFor(field: string): Option<string> {
    if field == "from" then Some("from") else if field == "to" then Some("to")
    else if field == "subject" then Some("subject") else None
  }

  function HeaderName(field: string): string {
    if HeaderFor(field).Some? then HeaderFor(field).value else "subject"
  }

  function SieveTest(c: Cond): string {
    if c.field == "body" then
      if c.op == "notContains" then "not body :contains " + Quote(c.value) else "body :contains " + Quote(c.value)
    else
      var header := Quote(HeaderName(c.field));
      if c.op == "is" then "header :is " + header + " " + Quote(c.value)
      else if c.op == "notContains" then "not header :contains " + header + " " + Quote(c.value)
      else "header :contains " + header + " " + Quote(c.value)
  }

  function SieveAction(a: Act): Option<string> {
    if a.kind == "move" then Some("    fileinto " + Quote(if a.value.Some? then a.value.value else "INBOX") + ";")
    else if a.kind == "markRead" then Some("    setflag \"\\\\Seen\";")
    else if a.kind == "star" then Some("    setflag \"\\\\Flagged\";")
    else if a.kind == "delete" then Some("    discard;")
    else if a.kind == "forward" then Some("    redirect " + Quote(if a.value.Some? then a.value.value else "") + ";")
    else None
  }

  function Joined(conditions: seq<Cond>): string {
    if conditions == [] then ""
    else if |conditions| == 1 then SieveTest(conditions[0])
    else SieveTest(conditions[0]) + ", " + Joined(conditions[1..])
  }

  function Guard(r: Rule): string {
    if r.conditions == [] then "if true {"
    else "if " + (if r.matchAll then "allof" else "anyof") + " (" + Joined(r.conditions) + ") {"
  }

  function ActionLines(actions: seq<Act>): string {
    if actions == [] then ""
    else if SieveAction(actions[0]).Some? then SieveAction(actions[0]).value + "\n" + ActionLines(actions[1..])
    else ActionLines(actions[1..])
  }

  function NameLine(name: string): string { "\n# " + name + "\n" }

  function RuleBody(r: Rule): string { Guard(r) + "\n" + ActionLines(r.actions) + "    stop;\n}\n" }

  function RuleText(r: Rule): string { NameLine(r.name) + RuleBody(r) }

  function RulesText(rules: seq<Rule>): string {
    if rules == [] then "" else RuleText(rules[0]) + RulesText(rules[1..])
  }

  const REQUIRE := "require [\"fileinto\", \"imap4flags\"];\n"

  /** The whole script. */
  function Compiled(rules: seq<Rule>): string { REQUIRE + RulesText(rules) }

  // ---- reading a script piece by piece ------------------------------------

  function After(ts: seq<Token>, rest: Option<seq<Token>>): Option<seq<Token>> {
    if rest.Some? then Some(ts + rest.value) else None
  }

  /** Whatever follows, `text` is read as `ts`. */
  ghost predicate Reads(text: string, ts: seq<Token>) {
    forall rest {:trigger Lex(text + rest)} :: Lex(text + rest) == After(ts, Lex(rest))
  }

  predicate IsIdent(s: string) { s != [] && Alpha(s[0]) && forall c :: c in s ==> IdentChar(c) }

  lemma {:induction false} ReadsBoth(text: string, ts: seq<Token>, a: string, ta: seq<Token>, b: string, tb: seq<Token>)
    requires text == a + b && ts == ta + tb
    requires Reads(a, ta) && Reads(b, tb)
    ensures Reads(text, ts)
  {
    forall rest ensures Lex(text + rest) == After(ts, Lex(rest)) {
      assert text + rest == a + (b + rest);
      assert Lex(b + rest) == After(tb, Lex(rest));
      if Lex(rest).Some? { assert ta + (tb + Lex(rest).value) == ts + Lex(rest).value; }
    }
  }

  lemma {:induction false} ReadsThree(text: string, ts: seq<Token>, a: string, ta: seq<Token>, b: string,
                                      tb: seq<Token>, c: string, tc: seq<Token>)
    requires text == a + b + c && ts == ta + tb + tc
    requires Reads(a, ta) && Reads(b, tb) && Reads(c, tc)
    ensures Reads(text, ts)
  {
    ReadsBoth(a + b, ta + tb, a, ta, b, tb);
    ReadsBoth(text, ts, a + b, ta + tb, c, tc);
  }

  lemma {:induction false} ReadsNothing()
    ensures Reads("", [])
  {
    forall rest: string ensures Lex("" + rest) == After([], Lex(rest)) {
      assert "" + rest == rest;
      if Lex(rest).Some? { assert [] + Lex(rest).value == Lex(rest).value; }
    }
  }

  lemma {:induction false} ReadsBlanks(s: string)
    requires forall c :: c in s ==> IsBlank(c)
    ensures Reads(s, [])
  {
    if s == [] {
      ReadsNothing();
    } else {
      ReadsBlanks(s[1..]);
      forall rest ensures Lex(s + rest) == After([], Lex(rest)) {
        assert (s + rest)[1..] == s[1..] + rest;
        assert Lex(s[1..] + rest) == After([], Lex(rest));
      }
    }
  }

  lemma {:induction false} ReadsPunct(c: char)
    requires IsPunct(c)
    ensures Reads([c], [Punct(c)])
  {
    forall rest ensures Lex([c] + rest) == After([Punct(c)], Lex(rest)) {
      assert ([c] + rest)[1..] == rest;
    }
  }

  lemma {:induction false} LexName(name: string, more: string)
    requires IsIdent(name) && (more == [] || !IdentChar(more[0]))
    ensures Lex(name + more) == Before(Word(name), Lex(more))
  {
    var s := name + more;
    IdentEnds(name, more);
    assert s[0] == name[0] && s[..|name|] == name && s[|name|..] == more;
  }

  /** A name with the blank that ends it. */
  lemma {:induction false} ReadsWord(name: string)
    requires IsIdent(name)
    ensures Reads(name + " ", [Word(name)])
  {
    forall rest ensures Lex(name + " " + rest) == After([Word(name)], Lex(rest)) {
      var more := " " + rest;
      assert name + " " + rest == name + more;
      assert more[1..] == rest;
      LexName(name, more);
    }
  }

  lemma {:induction false} ReadsWordLine(name: string)
    requires IsIdent(name)
    ensures Reads(name + "\n", [Word(name)])
  {
    forall rest ensures Lex(name + "\n" + rest) == After([Word(name)], Lex(rest)) {
      var more := "\n" + rest;
      assert name + "\n" + rest == name + more;
      assert more[1..] == rest;
      LexName(name, more);
    }
  }

  /** A name with the semicolon that ends it. */
  lemma {:induction false} ReadsWordEnd(name: string)
    requires IsIdent(name)
    ensures Reads(name + ";", [Word(name), Punct(';')])
  {
    forall rest ensures Lex(name + ";" + rest) == After([Word(name), Punct(';')], Lex(rest)) {
      var more := ";" + rest;
      assert name + ";" + rest == name + more;
      LexName(name, more);
      ReadsPunct(';');
      assert Lex(more) == After([Punct(';')], Lex(rest));
      if Lex(rest).Some? {
        assert [Word(name)] + ([Punct(';')] + Lex(rest).value) == [Word(name), Punct(';')] + Lex(rest).value;
      }
    }
  }

  lemma {:induction false} ReadsTag(name: string)
    requires IsIdent(name)
    ensures Reads(":" + name + " ", [Tag(name)])
  {
    forall rest ensures Lex(":" + name + " " + rest) == After([Tag(name)], Lex(rest)) {
      var s, more := ":" + name + " " + rest, " " + rest;
      assert s[1..] == name + more;
      IdentEnds(name, more);
      assert s[1..|name| + 1] == name && s[|name| + 1..] == more;
      assert more[1..] == rest;
    }
  }

  lemma {:induction false} ReadsQuoted(value: string)
    ensures Reads(Quote(value), [Text(value)])
  {
    QuoteIs(value);
    forall rest ensures Lex(Quote(value) + rest) == After([Text(value)], Lex(rest)) {
      var s := Quote(value) + rest;
      assert s[1..] == Quoted(value) + "\"" + rest;
      UnquoteUndoesQuote(value, rest);
    }
  }

  lemma {:induction false} ReadsComment(text: string, end: char)
    requires OneLine(text) && IsBreak(end)
    ensures Reads("#" + text + [end], [])
  {
    forall rest ensures Lex("#" + text + [end] + rest) == After([], Lex(rest)) {
      var s := "#" + text + [end] + rest;
      assert s[1..] == text + [end] + rest;
      LineEnds(text, end, rest);
      if Lex(rest).Some? { assert [] + Lex(rest).value == Lex(rest).value; }
    }
  }

  lemma {:induction false} IdentEnds(name: string, rest: string)
    requires forall c :: c in name ==> IdentChar(c)
    requires rest == [] || !IdentChar(rest[0])
    ensures IdentLength(name + rest) == |name|
  {
    if name == [] {
      assert name + rest == rest;
    } else {
      assert (name + rest)[1..] == name[1..] + rest;
      IdentEnds(name[1..], rest);
    }
  }

  lemma {:induction false} LineEnds(text: string, end: char, rest: string)
    requires OneLine(text) && IsBreak(end)
    ensures AfterLine(text + [end] + rest) == rest
  {
    var s := text + [end] + rest;
    if text != [] {
      assert s[1..] == text[1..] + [end] + rest;
      assert text[0] in text;
      LineEnds(text[1..], end, rest);
    }
  }

  /** `Quote`, character by character. */
  function QuotedChar(c: char): string { if c == '\\' || c == '"' then ['\\', c] else [c] }

  function Quoted(s: string): string {
    if s == [] then [] else QuotedChar(s[0]) + Quoted(s[1..])
  }

  lemma {:induction false} QuoteIs(s: string)
    ensures Quote(s) == "\"" + Quoted(s) + "\""
  {
    QuotedIs(s);
  }

  lemma {:induction false} QuotedIs(s: string)
    ensures Escapes.Replace(Escapes.Replace(s, "\\", "\\\\"), "\"", "\\\"") == Quoted(s)
  {
    if s != [] {
      QuotedIs(s[1..]);
      var c, rest := s[0], s[1..];
      assert s == [c] + rest;
      Escapes.ReplaceCharSplits([c], rest, '\\', "\\\\");
      Escapes.ReplaceOneChar(c, '\\', "\\\\");
      var first := if c == '\\' then "\\\\" else [c];
      Escapes.ReplaceCharSplits(first, Escapes.Replace(rest, "\\", "\\\\"), '"', "\\\"");
      if c == '\\' {
        assert first == ['\\'] + ['\\'];
        Escapes.ReplaceCharSplits(['\\'], ['\\'], '"', "\\\"");
        Escapes.ReplaceOneChar('\\', '"', "\\\"");
      } else {
        Escapes.ReplaceOneChar(c, '"', "\\\"");
      }
    }
  }

  /** Any value, quoted, is read back as itself. */
  lemma {:induction false} UnquoteUndoesQuote(s: string, rest: string)
    ensures Unquote(Quoted(s) + "\"" + rest) == Some((s, rest))
  {
    var end := "\"" + rest;
    UnquoteQuoted(s, end, rest);
    assert Quoted(s) + "\"" + rest == Quoted(s) + end;
  }

  lemma {:induction false} UnquoteQuoted(s: string, end: string, rest: string)
    requires end != [] && end[0] == '"' && end[1..] == rest
    ensures Unquote(Quoted(s) + end) == Some((s, rest))
  {
    if s == [] {
      assert Quoted(s) + end == end;
    } else {
      UnquoteQuoted(s[1..], end, rest);
      UnquoteStep(s[0], Quoted(s[1..]) + end);
      assert Quoted(s) + end == QuotedChar(s[0]) + (Quoted(s[1..]) + end);
      assert s == [s[0]] + s[1..];
    }
  }

  lemma {:induction false} UnquoteStep(c: char, more: string)
    requires Unquote(more).Some?
    ensures Unquote(QuotedChar(c) + more) == Some(([c] + Unquote(more).value.0, Unquote(more).value.1))
  {
    var text := QuotedChar(c) + more;
    if c == '\\' || c == '"' {
      assert text[0] == '\\' && text[1] == c && text[2..] == more;
    } else {
      assert text[0] == c && text[1..] == more;
    }
  }

  // ---- the compiled script, token by token ---------------------------------

  function CondTokens(c: Cond): seq<Token> {
    if c.op == "notContains" then [Word("not")] + TestTokens(c) else TestTokens(c)
  }

  function TestTokens(c: Cond): seq<Token> {
    if c.field == "body" then [Word("body"), Tag("contains"), Text(c.value)]
    else [Word("header"), Tag(if c.op == "is" then "is" else "contains"), Text(HeaderName(c.field)), Text(c.value)]
  }

  /** `name :tag `, the start of every test. */
  lemma {:induction false} TestReads(text: string, name: string, tag: string)
    requires IsIdent(name) && IsIdent(tag) && text == name + " :" + tag + " "
    ensures Reads(text, [Word(name), Tag(tag)])
  {
    ReadsWord(name);
    ReadsTag(tag);
    ReadsBoth(text, [Word(name), Tag(tag)], name + " ", [Word(name)], ":" + tag + " ", [Tag(tag)]);
  }

  lemma {:induction false} BodyReads(value: string)
    ensures Reads("body :contains " + Quote(value), [Word("body"), Tag("contains"), Text(value)])
  {
    TestReads("body :contains ", "body", "contains");
    ReadsQuoted(value);
    ReadsBoth("body :contains " + Quote(value), [Word("body"), Tag("contains"), Text(value)],
              "body :contains ", [Word("body"), Tag("contains")], Quote(value), [Text(value)]);
  }

  lemma {:induction false} HeaderReads(start: string, tag: string, name: string, value: string)
    requires Reads(start, [Word("header"), Tag(tag)])
    ensures Reads(start + Quote(name) + " " + Quote(value), [Word("header"), Tag(tag), Text(name), Text(value)])
  {
    ReadsQuoted(name);
    ReadsQuoted(value);
    ReadsBlanks(" ");
    ReadsBoth(start + Quote(name), [Word("header"), Tag(tag), Text(name)],
              start, [Word("header"), Tag(tag)], Quote(name), [Text(name)]);
    ReadsThree(start + Quote(name) + " " + Quote(value), [Word("header"), Tag(tag), Text(name), Text(value)],
               start + Quote(name), [Word("header"), Tag(tag), Text(name)], " ", [], Quote(value), [Text(value)]);
  }

  lemma {:induction false} NotReads(text: string, test: string, ts: seq<Token>)
    requires Reads(test, ts) && text == "not " + test
    ensures Reads(text, [Word("not")] + ts)
  {
    ReadsWord("not");
    assert "not" + " " == "not ";
    ReadsBoth(text, [Word("not")] + ts, "not ", [Word("not")], test, ts);
  }

  lemma {:induction false} CondReads(c: Cond)
    ensures Reads(SieveTest(c), CondTokens(c))
  {
    if c.op == "notContains" {
      var positive := c.(op := "contains");
      PositiveReads(positive);
      NotText(c);
      NotReads(SieveTest(c), SieveTest(positive), TestTokens(c));
    } else {
      PositiveReads(c);
    }
  }

  lemma {:induction false} NotText(c: Cond)
    requires c.op == "notContains"
    ensures SieveTest(c) == "not " + SieveTest(c.(op := "contains"))
  {
    if c.field == "body" {
      assert "not body :contains " == "not " + "body :contains ";
    } else {
      NotHeaderText(c);
    }
  }

  lemma {:induction false} NotHeaderText(c: Cond)
    requires c.op == "notContains" && c.field != "body"
    ensures SieveTest(c) == "not " + SieveTest(c.(op := "contains"))
  {
    var header, value := Quote(HeaderName(c.field)), Quote(c.value);
    Regroup("not header :contains ", "not ", "header :contains ", header, value);
    assert SieveTest(c) == "not header :contains " + header + " " + value;
    assert SieveTest(c.(op := "contains")) == "header :contains " + header + " " + value;
  }

  lemma {:induction false} Regroup(whole: string, a: string, b: string, header: string, value: string)
    requires whole == a + b
    ensures whole + header + " " + value == a + (b + header + " " + value)
  {
  }

  lemma {:induction false} PositiveReads(c: Cond)
    requires c.op != "notContains"
    ensures Reads(SieveTest(c), TestTokens(c))
  {
    var name := HeaderName(c.field);
    if c.field == "body" {
      BodyReads(c.value);
    } else if c.op == "is" {
      TestReads("header :is ", "header", "is");
      HeaderReads("header :is ", "is", name, c.value);
    } else {
      TestReads("header :contains ", "header", "contains");
      HeaderReads("header :contains ", "contains", name, c.value);
    }
  }

  function ListTokens(conditions: seq<Cond>): seq<Token> {
    if conditions == [] then []
    else if |conditions| == 1 then CondTokens(conditions[0])
    else CondTokens(conditions[0]) + [Punct(',')] + ListTokens(conditions[1..])
  }

  lemma {:induction false} JoinedReads(conditions: seq<Cond>)
    ensures Reads(Joined(conditions), ListTokens(conditions))
  {
    if conditions == [] {
      ReadsNothing();
    } else {
      CondReads(conditions[0]);
      if |conditions| > 1 {
        JoinedReads(conditions[1..]);
        ReadsPunct(',');
        ReadsBlanks(" ");
        ReadsBoth(", ", [Punct(',')], ",", [Punct(',')], " ", []);
        ReadsThree(Joined(conditions), ListTokens(conditions), SieveTest(conditions[0]), CondTokens(conditions[0]),
                   ", ", [Punct(',')], Joined(conditions[1..]), ListTokens(conditions[1..]));
      }
    }
  }

  function GuardTokens(r: Rule): seq<Token> {
    if r.conditions == [] then [Word("if"), Word("true"), Punct('{')]
    else [Word("if"), Word(if r.matchAll then "allof" else "anyof"), Punct('(')]
         + ListTokens(r.conditions) + [Punct(')'), Punct('{')]
  }

  lemma {:induction false} GuardStartReads(join: string)
    requires IsIdent(join)
    ensures Reads("if " + join + " ", [Word("if"), Word(join)])
  {
    ReadsWord("if");
    ReadsWord(join);
    assert "if" + " " == "if ";
    ReadsBoth("if " + join + " ", [Word("if"), Word(join)], "if ", [Word("if")], join + " ", [Word(join)]);
  }

  lemma {:induction false} GuardReads(r: Rule)
    ensures Reads(Guard(r), GuardTokens(r))
  {
    ReadsPunct('{');
    if r.conditions == [] {
      GuardStartReads("true");
      ReadsBoth(Guard(r), GuardTokens(r), "if " + "true" + " ", [Word("if"), Word("true")], "{", [Punct('{')]);
    } else {
      var join, list := if r.matchAll then "allof" else "anyof", Joined(r.conditions);
      GuardStartReads(join);
      JoinedReads(r.conditions);
      ReadsPunct('(');
      ReadsPunct(')');
      ReadsBlanks(" ");
      ReadsBoth("if " + join + " (", [Word("if"), Word(join), Punct('(')],
                "if " + join + " ", [Word("if"), Word(join)], "(", [Punct('(')]);
      ReadsThree(") {", [Punct(')'), Punct('{')], ")", [Punct(')')], " ", [], "{", [Punct('{')]);
      ReadsThree(Guard(r), GuardTokens(r), "if " + join + " (", [Word("if"), Word(join), Punct('(')],
                 list, ListTokens(r.conditions), ") {", [Punct(')'), Punct('{')]);
    }
  }

  // ---- actions and rules ---------------------------------------------------

  function ActTokens(a: Action): seq<Token> {
    match a
    case FileInto(mailbox) => [Word("fileinto"), Text(mailbox), Punct(';')]
    case SetFlag(flag) => [Word("setflag"), Text(flag), Punct(';')]
    case Discard => [Word("discard"), Punct(';')]
    case Redirect(address) => [Word("redirect"), Text(address), Punct(';')]
  }

  function ActsTokens(acts: seq<Action>): seq<Token> {
    if acts == [] then [] else ActTokens(acts[0]) + ActsTokens(acts[1..])
  }

  /** An indented command with one string. */
  lemma {:induction false} CommandReads(text: string, name: string, value: string)
    requires IsIdent(name) && text == "    " + name + " " + Quote(value) + ";"
    ensures Reads(text, [Word(name), Text(value), Punct(';')])
  {
    ReadsBlanks("    ");
    ReadsWord(name);
    ReadsQuoted(value);
    ReadsPunct(';');
    ReadsThree("    " + name + " " + Quote(value), [Word(name), Text(value)],
               "    ", [], name + " ", [Word(name)], Quote(value), [Text(value)]);
    ReadsBoth(text, [Word(name), Text(value), Punct(';')],
              "    " + name + " " + Quote(value), [Word(name), Text(value)], ";", [Punct(';')]);
  }

  lemma {:induction false} BareReads(text: string, name: string)
    requires IsIdent(name) && text == "    " + name + ";"
    ensures Reads(text, [Word(name), Punct(';')])
  {
    ReadsBlanks("    ");
    ReadsWordEnd(name);
    ReadsBoth(text, [Word(name), Punct(';')], "    ", [], name + ";", [Word(name), Punct(';')]);
  }

  /** One supported action, as its line is read. */
  lemma {:induction false} ActionReads(a: Act)
    ensures SieveAction(a).None? ==> Asked(a) == []
    ensures SieveAction(a).Some? ==> |Asked(a)| == 1 && Reads(SieveAction(a).value, ActTokens(Asked(a)[0]))
  {
    if a.kind == "move" || a.kind == "forward" {
      StringActionReads(a);
    } else if a.kind == "markRead" || a.kind == "star" {
      FlagActionReads(a);
    } else if a.kind == "delete" {
      BareReads(SieveAction(a).value, "discard");
    }
  }

  lemma {:induction false} StringActionReads(a: Act)
    requires a.kind == "move" || a.kind == "forward"
    ensures SieveAction(a).Some? && |Asked(a)| == 1
    ensures Reads(SieveAction(a).value, ActTokens(Asked(a)[0]))
  {
    var value := Asked(a)[0];
    if a.kind == "move" {
      LineReads(SieveAction(a).value, "fileinto", value.mailbox);
    } else {
      LineReads(SieveAction(a).value, "redirect", value.address);
    }
  }

  lemma {:induction false} LineReads(text: string, name: string, value: string)
    requires name in {"fileinto", "redirect"}
    requires text == (if name == "fileinto" then "    fileinto " else "    redirect ") + Quote(value) + ";"
    ensures Reads(text, [Word(name), Text(value), Punct(';')])
  {
    assert "    " + "fileinto" + " " == "    fileinto " && "    " + "redirect" + " " == "    redirect ";
    CommandReads(text, name, value);
  }

  lemma {:induction false} FlagActionReads(a: Act)
    requires a.kind == "markRead" || a.kind == "star"
    ensures SieveAction(a).Some? && |Asked(a)| == 1
    ensures Reads(SieveAction(a).value, ActTokens(Asked(a)[0]))
  {
    if a.kind == "markRead" {
      SetFlagReads("    setflag \"\\\\Seen\";", "\\Seen");
    } else {
      SetFlagReads("    setflag \"\\\\Flagged\";", "\\Flagged");
    }
  }

  lemma {:induction false} SetFlagReads(text: string, flag: string)
    requires text == "    setflag \"\\" + flag + "\";"
    requires |flag| > 1 && flag[0] == '\\' && '\\' !in flag[1..] && '"' !in flag[1..]
    ensures Reads(text, ActTokens(SetFlag(flag)))
  {
    FlagReads(flag);
    CommandReads(text, "setflag", flag);
  }

  /** A flag, quoted, has its backslash doubled. */
  lemma {:induction false} FlagReads(flag: string)
    requires |flag| > 1 && flag[0] == '\\' && '\\' !in flag[1..] && '"' !in flag[1..]
    ensures Quote(flag) == "\"\\" + flag + "\""
  {
    QuoteIs(flag);
    PlainQuoted(flag[1..]);
  }

  lemma {:induction false} PlainQuoted(s: string)
    requires '\\' !in s && '"' !in s
    ensures Quoted(s) == s
  {
    if s != [] { PlainQuoted(s[1..]); }
  }

  lemma {:induction false} ActionLinesRead(actions: seq<Act>)
    ensures Reads(ActionLines(actions), ActsTokens(Supported(actions)))
  {
    if actions == [] {
      ReadsNothing();
    } else {
      var rest := Supported(actions[1..]);
      ActionReads(actions[0]);
      ActionLinesRead(actions[1..]);
      if SieveAction(actions[0]).Some? {
        var line, act := SieveAction(actions[0]).value, Asked(actions[0])[0];
        ReadsBlanks("\n");
        assert Supported(actions) == [act] + rest;
        ReadsThree(ActionLines(actions), ActsTokens([act] + rest),
                   line, ActTokens(act), "\n", [], ActionLines(actions[1..]), ActsTokens(rest));
      } else {
        assert Supported(actions) == rest;
      }
    }
  }

  const STOP := [Word("stop"), Punct(';'), Punct('}')]

  function RuleTokens(r: Rule): seq<Token> { GuardTokens(r) + ActsTokens(Supported(r.actions)) + STOP }

  function RulesTokens(rules: seq<Rule>): seq<Token> {
    if rules == [] then [] else RuleTokens(rules[0]) + RulesTokens(rules[1..])
  }

  lemma {:induction false} StopReads()
    ensures Reads("    stop;\n}\n", STOP)
  {
    BareReads("    stop;", "stop");
    ReadsBlanks("\n");
    ReadsPunct('}');
    ReadsBoth("    stop;\n", [Word("stop"), Punct(';')], "    stop;", [Word("stop"), Punct(';')], "\n", []);
    ReadsThree("    stop;\n}\n", STOP, "    stop;\n", [Word("stop"), Punct(';')], "}", [Punct('}')], "\n", []);
  }

  /** A name's lines are read as nothing exactly when all after the first are idle. */
  lemma {:induction false} NameReads(name: string)
    ensures Reads(NameLine(name), []) <==> Harmless(name)
    ensures OneLine(name) ==> Harmless(name)
  {
    LineSplits(name);
    var first := FirstLine(name);
    if OneLine(name) {
      FirstLineReads(name, '\n');
      assert NameLine(name) == "\n# " + name + ['\n'];
    } else {
      var end, later := name[|first|], AfterLine(name);
      FirstLineReads(first, end);
      assert NameLine(name) == "\n# " + first + [end] + (later + "\n");
      if Harmless(name) {
        IdleLinesRead(later);
        ReadsBoth(NameLine(name), [], "\n# " + first + [end], [], later + "\n", []);
      } else {
        NotIdle(later);
        SkipsTo("\n# " + first + [end], later + "\n");
        if Reads(NameLine(name), []) { ReadAlone(NameLine(name), []); }
      }
    }
  }

  lemma {:induction false} ReadAlone(text: string, ts: seq<Token>)
    requires Reads(text, ts)
    ensures Lex(text) == Some(ts)
  {
    assert text + "" == text && ts + [] == ts;
    assert Lex(text + "") == After(ts, Lex(""));
  }

  lemma {:induction false} SkipsTo(a: string, b: string)
    requires Reads(a, [])
    ensures Lex(a + b) == Lex(b)
  {
    assert Lex(a + b) == After([], Lex(b));
    if Lex(b).Some? { assert [] + Lex(b).value == Lex(b).value; }
  }

  lemma {:induction false} LineSplits(s: string)
    ensures var n := |FirstLine(s)|;
            && n <= |s| && OneLine(FirstLine(s)) && FirstLine(s) == s[..n] && (OneLine(s) <==> n == |s|)
            && (n == |s| ==> AfterLine(s) == [])
            && (n < |s| ==> IsBreak(s[n]) && AfterLine(s) == s[n + 1..] && s == FirstLine(s) + [s[n]] + AfterLine(s))
  {
    FirstLineEnds(s);
    var n := |FirstLine(s)|;
    if n < |s| {
      assert s[n] in s;
      assert s == s[..n] + [s[n]] + s[n + 1..];
    } else {
      assert s[..n] == s;
    }
  }

  lemma {:induction false} FirstLineEnds(s: string)
    ensures var n := |FirstLine(s)|;
            && n <= |s| && FirstLine(s) == s[..n] && OneLine(s[..n])
            && (if n == |s| then AfterLine(s) == [] else IsBreak(s[n]) && AfterLine(s) == s[n + 1..])
  {
    if s != [] && !IsBreak(s[0]) {
      FirstLineEnds(s[1..]);
      var n := |FirstLine(s[1..])|;
      assert s[..n + 1] == [s[0]] + s[1..][..n];
    }
  }

  lemma {:induction false} IdleLinesStep(s: string)
    requires s != [] && IsBlank(s[0])
    ensures IdleLines(s) <==> IdleLines(s[1..])
  {
    LineSplits(s);
    LineSplits(s[1..]);
    if IsBreak(s[0]) { assert FirstLine(s) == [] && AfterLine(s) == s[1..]; }
    else { assert FirstLine(s)[1..] == FirstLine(s[1..]) && AfterLine(s) == AfterLine(s[1..]); }
  }

  lemma {:induction false} IdleComment(s: string)
    requires s != [] && s[0] == '#'
    ensures FirstLine(s) == "#" + FirstLine(s[1..]) && AfterLine(s) == AfterLine(s[1..])
    ensures IdleLines(s) <==> (OneLine(s[1..]) || IdleLines(AfterLine(s[1..])))
  {
    LineSplits(s);
    LineSplits(s[1..]);
  }

  lemma {:induction false} IdleLinesRead(s: string)
    requires IdleLines(s)
    ensures Reads(s + "\n", [])
    decreases |s|
  {
    if s == [] {
      ReadsBlanks("\n");
      assert s + "\n" == "\n";
    } else if IsBlank(s[0]) {
      IdleLinesStep(s);
      IdleLinesRead(s[1..]);
      ReadsBlanks([s[0]]);
      assert s + "\n" == [s[0]] + (s[1..] + "\n");
      ReadsBoth(s + "\n", [], [s[0]], [], s[1..] + "\n", []);
    } else {
      LineSplits(s);
      LineSplits(s[1..]);
      assert s[0] == '#';
      IdleComment(s);
      CommentLineReads(s[1..]);
      assert s + "\n" == "#" + s[1..] + "\n";
    }
  }

  lemma {:induction false} CommentLineReads(text: string)
    requires OneLine(text) || IdleLines(AfterLine(text))
    ensures Reads("#" + text + "\n", [])
    decreases |text|
  {
    LineSplits(text);
    if OneLine(text) {
      ReadsComment(text, '\n');
    } else {
      IdleLinesRead(AfterLine(text));
      CommentThen(text, FirstLine(text), text[|FirstLine(text)|], AfterLine(text));
    }
  }

  lemma {:induction false} CommentThen(text: string, first: string, end: char, later: string)
    requires text == first + [end] + later && OneLine(first) && IsBreak(end) && Reads(later + "\n", [])
    ensures Reads("#" + text + "\n", [])
  {
    ReadsComment(first, end);
    assert "#" + text + "\n" == "#" + first + [end] + (later + "\n");
    ReadsBoth("#" + text + "\n", [], "#" + first + [end], [], later + "\n", []);
  }

  lemma {:induction false} NotIdle(s: string)
    requires !IdleLines(s)
    ensures Lex(s + "\n") != Some([])
    decreases |s|
  {
    LineSplits(s);
    if s != [] && IsBlank(s[0]) {
      IdleLinesStep(s);
      NotIdle(s[1..]);
      assert (s + "\n")[1..] == s[1..] + "\n";
    } else if s != [] && s[0] == '#' {
      IdleComment(s);
      NotIdle(AfterLine(s[1..]));
      LexComment(s, s[1..]);
    }
  }

  /** A comment with a line after it. */
  lemma {:induction false} LexComment(s: string, text: string)
    requires !OneLine(text) && s == "#" + text
    ensures Lex(s + "\n") == Lex(AfterLine(text) + "\n")
  {
    LineSplits(text);
    var n := |FirstLine(text)|;
    LineEnds(FirstLine(text), text[n], AfterLine(text) + "\n");
    assert (s + "\n")[1..] == FirstLine(text) + [text[n]] + (AfterLine(text) + "\n");
  }

  lemma {:induction false} FirstLineReads(name: string, end: char)
    requires OneLine(name) && IsBreak(end)
    ensures Reads("\n# " + name + [end], [])
  {
    ReadsBlanks("\n");
    ReadsComment(" " + name, end);
    ReadsBoth("\n# " + name + [end], [], "\n", [], "#" + (" " + name) + [end], []);
  }

  lemma {:induction false} BodyOfRuleReads(r: Rule)
    ensures Reads(RuleBody(r), RuleTokens(r))
  {
    GuardReads(r);
    ReadsBlanks("\n");
    ActionLinesRead(r.actions);
    StopReads();
    ReadsBoth(Guard(r) + "\n", GuardTokens(r), Guard(r), GuardTokens(r), "\n", []);
    ReadsThree(RuleBody(r), RuleTokens(r),
               Guard(r) + "\n", GuardTokens(r),
               ActionLines(r.actions), ActsTokens(Supported(r.actions)), "    stop;\n}\n", STOP);
  }

  lemma {:induction false} RuleReads(r: Rule)
    requires Harmless(r.name)
    ensures Reads(RuleText(r), RuleTokens(r))
  {
    NameReads(r.name);
    BodyOfRuleReads(r);
    ReadsBoth(RuleText(r), RuleTokens(r), NameLine(r.name), [], RuleBody(r), RuleTokens(r));
  }

  lemma {:induction false} RulesRead(rules: seq<Rule>)
    requires forall r :: r in rules ==> Harmless(r.name)
    ensures Reads(RulesText(rules), RulesTokens(rules))
  {
    if rules == [] {
      ReadsNothing();
    } else {
      RuleReads(rules[0]);
      RulesRead(rules[1..]);
      ReadsBoth(RulesText(rules), RulesTokens(rules), RuleText(rules[0]), RuleTokens(rules[0]),
                RulesText(rules[1..]), RulesTokens(rules[1..]));
    }
  }

  const START := [Word("require"), Punct('['), Text("fileinto")]
  const MIDDLE := [Punct(','), Text("imap4flags")]
  const END := [Punct(']'), Punct(';')]
  const REQUIRED := START + MIDDLE + END

  lemma {:induction false} QuotedName(name: string, text: string)
    requires '\\' !in name && '"' !in name && text == "\"" + name + "\""
    ensures Reads(text, [Text(name)])
  {
    QuoteIs(name);
    PlainQuoted(name);
    ReadsQuoted(name);
  }

  lemma {:induction false} RequireWordReads()
    ensures Reads("require ", [Word("require")])
  {
    ReadsWord("require");
    assert "require" + " " == "require ";
  }

  lemma {:induction false} FileintoReads()
    ensures Reads("\"fileinto\"", [Text("fileinto")])
  {
    QuotedName("fileinto", "\"fileinto\"");
  }

  lemma {:induction false} FlagsReads()
    ensures Reads("\"imap4flags\"", [Text("imap4flags")])
  {
    QuotedName("imap4flags", "\"imap4flags\"");
  }

  lemma {:induction false} RequireStartReads()
    ensures Reads("require [\"fileinto\"", START)
  {
    RequireWordReads();
    ReadsPunct('[');
    FileintoReads();
    ReadsThree("require [\"fileinto\"", START, "require ", [Word("require")], "[", [Punct('[')],
               "\"fileinto\"", [Text("fileinto")]);
  }

  lemma {:induction false} RequireMiddleReads()
    ensures Reads(", \"imap4flags\"", MIDDLE)
  {
    ReadsPunct(',');
    ReadsBlanks(" ");
    FlagsReads();
    ReadsThree(", \"imap4flags\"", MIDDLE, ",", [Punct(',')], " ", [], "\"imap4flags\"", [Text("imap4flags")]);
  }

  lemma {:induction false} RequireEndReads()
    ensures Reads("];\n", END)
  {
    ReadsPunct(']');
    ReadsPunct(';');
    ReadsBlanks("\n");
    ReadsThree("];\n", END, "]", [Punct(']')], ";", [Punct(';')], "\n", []);
  }

  lemma {:induction false} RequireReads()
    ensures Reads(REQUIRE, REQUIRED)
  {
    RequireStartReads();
    RequireMiddleReads();
    RequireEndReads();
    ReadsThree(REQUIRE, REQUIRED, "require [\"fileinto\"", START, ", \"imap4flags\"", MIDDLE,
               "];\n", END);
  }

  /** Lexing the whole script. */
  lemma {:induction false} LexWhole(rules: seq<Rule>, ts: seq<Token>)
    requires Reads(RulesText(rules), ts)
    ensures Lex(Compiled(rules)) == Some(REQUIRED + ts)
  {
    RequireReads();
    ReadsBoth(Compiled(rules), REQUIRED + ts, REQUIRE, REQUIRED, RulesText(rules), ts);
    assert Compiled(rules) + "" == Compiled(rules);
    assert Lex("") == Some([]);
    assert REQUIRED + ts + [] == REQUIRED + ts;
  }

  // ---- parsing it ----------------------------------------------------------

  function CondTest(c: Cond): Test {
    var t := if c.field == "body" then Body(c.value) else Header(c.op == "is", HeaderName(c.field), c.value);
    if c.op == "notContains" then Not(t) else t
  }

  function CondTests(conditions: seq<Cond>): seq<Test> {
    if conditions == [] then [] else [CondTest(conditions[0])] + CondTests(conditions[1..])
  }

  function GuardTest(r: Rule): Test {
    if r.conditions == [] then True
    else if r.matchAll then AllOf(CondTests(r.conditions)) else AnyOf(CondTests(r.conditions))
  }

  function Commands(acts: seq<Action>): seq<Command> {
    if acts == [] then [Stop] else [Do(acts[0])] + Commands(acts[1..])
  }

  function RuleCommands(rules: seq<Rule>): seq<Command> {
    if rules == [] then []
    else [If(GuardTest(rules[0]), Commands(Supported(rules[0].actions)))] + RuleCommands(rules[1..])
  }

  lemma {:induction false} PositiveParses(c: Cond, rest: seq<Token>)
    requires c.op != "notContains"
    ensures ParseTest(TestTokens(c) + rest) == Some((CondTest(c), rest))
  {
    var ts := TestTokens(c) + rest;
    assert ts[|TestTokens(c)|..] == rest;
  }

  lemma {:induction false} CondParses(c: Cond, rest: seq<Token>)
    ensures ParseTest(CondTokens(c) + rest) == Some((CondTest(c), rest))
  {
    if c.op == "notContains" {
      var ts := CondTokens(c) + rest;
      PositiveParses(c.(op := "contains"), rest);
      assert ts[1..] == TestTokens(c.(op := "contains")) + rest;
    } else {
      PositiveParses(c, rest);
    }
  }

  lemma {:induction false} ListParses(conditions: seq<Cond>, rest: seq<Token>)
    requires conditions != []
    ensures ParseTests(ListTokens(conditions) + [Punct(')')] + rest) == Some((CondTests(conditions), rest))
  {
    ListTokensAre(conditions, rest);
    if |conditions| == 1 {
      LastParses(conditions[0], rest);
      assert CondTests(conditions) == [CondTest(conditions[0])];
    } else {
      ListParses(conditions[1..], rest);
      FirstParses(conditions[0], ListTokens(conditions[1..]) + [Punct(')')] + rest);
    }
  }

  lemma {:induction false} ListTokensAre(conditions: seq<Cond>, rest: seq<Token>)
    requires conditions != []
    ensures ListTokens(conditions) + [Punct(')')] + rest ==
            CondTokens(conditions[0]) + (if |conditions| == 1 then [Punct(')')] + rest
                                         else [Punct(',')] + (ListTokens(conditions[1..]) + [Punct(')')] + rest))
  {
  }

  lemma {:induction false} LastParses(c: Cond, rest: seq<Token>)
    ensures ParseTests(CondTokens(c) + ([Punct(')')] + rest)) == Some(([CondTest(c)], rest))
  {
    CondParses(c, [Punct(')')] + rest);
    assert ([Punct(')')] + rest)[1..] == rest;
  }

  lemma {:induction false} FirstParses(c: Cond, more: seq<Token>)
    requires ParseTests(more).Some?
    ensures var tests := ParseTests(more).value;
            ParseTests(CondTokens(c) + ([Punct(',')] + more)) == Some(([CondTest(c)] + tests.0, tests.1))
  {
    CondParses(c, [Punct(',')] + more);
    assert ([Punct(',')] + more)[1..] == more;
  }

  lemma {:induction false} GuardParses(r: Rule, rest: seq<Token>)
    ensures ParseTest((GuardTokens(r) + rest)[1..]) == Some((GuardTest(r), [Punct('{')] + rest))
  {
    if r.conditions == [] {
      var ts := (GuardTokens(r) + rest)[1..];
      assert ts[0] == Word("true") && ts[1..] == [Punct('{')] + rest;
    } else {
      GuardTokensAre(r, rest);
      ListParses(r.conditions, [Punct('{')] + rest);
    }
  }

  lemma {:induction false} GuardTokensAre(r: Rule, rest: seq<Token>)
    requires r.conditions != []
    ensures var ts := (GuardTokens(r) + rest)[1..];
            && |ts| > 2 && ts[0] == Word(if r.matchAll then "allof" else "anyof") && ts[1] == Punct('(')
            && ts[2..] == ListTokens(r.conditions) + [Punct(')')] + ([Punct('{')] + rest)
  {
    var tail := ListTokens(r.conditions) + [Punct(')'), Punct('{')] + rest;
    assert tail == ListTokens(r.conditions) + [Punct(')')] + ([Punct('{')] + rest);
    assert (GuardTokens(r) + rest)[3..] == tail;
  }

  lemma {:induction false} ActParses(a: Action, rest: seq<Token>)
    ensures ParseCommand(ActTokens(a) + rest) == Some((Do(a), rest))
  {
    assert (ActTokens(a) + rest)[|ActTokens(a)|..] == rest;
  }

  lemma {:induction false} BlockParses(acts: seq<Action>, rest: seq<Token>)
    ensures ParseCommands(ActsTokens(acts) + STOP + rest) == Some((Commands(acts), [Punct('}')] + rest))
  {
    var ts := ActsTokens(acts) + STOP + rest;
    if acts == [] {
      var end := [Punct('}')] + rest;
      assert ts[2..] == end && [Stop] + [] == Commands(acts);
      assert ParseCommand(ts) == Some((Stop, end));
      assert ParseCommand(end).None?;
      assert ParseCommands(end) == Some(([], end));
    } else {
      var more := ActsTokens(acts[1..]) + STOP + rest;
      assert ts == ActTokens(acts[0]) + more;
      ActParses(acts[0], more);
      BlockParses(acts[1..], rest);
    }
  }

  lemma {:induction false} RuleParses(r: Rule, rest: seq<Token>)
    ensures ParseCommand(RuleTokens(r) + rest) == Some((If(GuardTest(r), Commands(Supported(r.actions))), rest))
  {
    var ts, body := RuleTokens(r) + rest, ActsTokens(Supported(r.actions)) + STOP + rest;
    assert ts == GuardTokens(r) + body;
    GuardParses(r, body);
    BlockParses(Supported(r.actions), rest);
    IfParses(ts, GuardTest(r), body, Commands(Supported(r.actions)), rest);
  }

  lemma {:induction false} IfParses(ts: seq<Token>, test: Test, body: seq<Token>, block: seq<Command>, rest: seq<Token>)
    requires ts != [] && ts[0] == Word("if") && ParseTest(ts[1..]) == Some((test, [Punct('{')] + body))
    requires ParseCommands(body) == Some((block, [Punct('}')] + rest))
    ensures ParseCommand(ts) == Some((If(test, block), rest))
  {
    assert ([Punct('{')] + body)[1..] == body;
    assert ([Punct('}')] + rest)[1..] == rest;
  }

  lemma {:induction false} RulesParse(rules: seq<Rule>)
    ensures ParseCommands(RulesTokens(rules)) == Some((RuleCommands(rules), []))
  {
    if rules != [] {
      RuleParses(rules[0], RulesTokens(rules[1..]));
      RulesParse(rules[1..]);
    }
  }

  const REQUIREMENT := Require(["fileinto", "imap4flags"])

  /** The script parses to one `require` and one `if` per rule. */
  lemma {:induction false} CompiledParses(rules: seq<Rule>)
    requires forall r :: r in rules ==> Harmless(r.name)
    ensures Parse(Compiled(rules)) == Some([REQUIREMENT] + RuleCommands(rules))
  {
    var rest := RulesTokens(rules);
    RulesRead(rules);
    LexWhole(rules, rest);
    RulesParse(rules);
    RequireParses(rest);
  }

  lemma {:induction false} RequireParses(rest: seq<Token>)
    ensures ParseCommand(REQUIRED + rest) == Some((REQUIREMENT, rest))
  {
    var ts := REQUIRED + rest;
    assert ts[2..][2..] == ts[4..];
    assert ts[4..][2..] == [Punct(';')] + rest;
    assert ([Punct(';')] + rest)[1..] == rest;
    assert ParseStrings(ts[4..]) == Some((["imap4flags"], [Punct(';')] + rest));
    assert ["fileinto"] + ["imap4flags"] == ["fileinto", "imap4flags"];
  }

  // ---- evaluating it -------------------------------------------------------

  lemma {:induction false} CondTestsAre(conditions: seq<Cond>)
    ensures |CondTests(conditions)| == |conditions|
    ensures forall i :: 0 <= i < |conditions| ==> CondTests(conditions)[i] == CondTest(conditions[i])
  {
    if conditions != [] { CondTestsAre(conditions[1..]); }
  }

  lemma {:induction false} CondMeans(c: Cond, m: Message)
    ensures TestHolds(CondTest(c), m) <==> CondHolds(c, m)
  {
  }

  lemma {:induction false} GuardMeans(r: Rule, m: Message)
    ensures TestHolds(GuardTest(r), m) <==> RuleHolds(r, m)
  {
    var tests := CondTests(r.conditions);
    CondTestsAre(r.conditions);
    forall c ensures TestHolds(CondTest(c), m) <==> CondHolds(c, m) { CondMeans(c, m); }
    forall c | c in r.conditions ensures CondTest(c) in tests {
      var i :| 0 <= i < |r.conditions| && r.conditions[i] == c;
      assert tests[i] in tests;
    }
    forall t | t in tests ensures exists c :: c in r.conditions && t == CondTest(c) {
      var i :| 0 <= i < |tests| && tests[i] == t;
      assert r.conditions[i] in r.conditions;
    }
  }

  lemma {:induction false} BlockPerforms(acts: seq<Action>, m: Message)
    ensures Perform(Commands(acts), m) == (acts, true)
  {
    if acts != [] {
      BlockPerforms(acts[1..], m);
      assert Commands(acts)[1..] == Commands(acts[1..]);
      assert [acts[0]] + acts[1..] == acts;
    }
  }

  lemma {:induction false} RulesPerform(rules: seq<Rule>, m: Message)
    ensures Perform(RuleCommands(rules), m).0 == FirstMatch(rules, m)
  {
    if rules != [] {
      GuardMeans(rules[0], m);
      BlockPerforms(Supported(rules[0].actions), m);
      RulesPerform(rules[1..], m);
      assert RuleCommands(rules)[1..] == RuleCommands(rules[1..]);
    }
  }

  /** The compiled script performs, on every message, exactly the supported actions
      of the first matching rule in list order. */
  lemma {:induction false} CompiledMeans(rules: seq<Rule>, m: Message)
    requires forall r :: r in rules ==> Harmless(r.name)
    ensures Evaluate(Compiled(rules), m) == Some(FirstMatch(rules, m))
  {
    CompiledParses(rules);
    RulesPerform(rules, m);
    assert ([REQUIREMENT] + RuleCommands(rules))[1..] == RuleCommands(rules);
    assert [] + FirstMatch(rules, m) == FirstMatch(rules, m);
  }

  /** Without the hypothesis on names: a second line of one word is read as a command
      that there is none of, and the script does not parse. */
  lemma {:induction false} SecondLineBreaks(r: Rule, rules: seq<Rule>, first: string, end: char, word: string)
    requires r.name == first + [end] + word && OneLine(first) && IsBreak(end) && IsIdent(word)
    requires forall r :: r in rules ==> Harmless(r.name)
    ensures Parse(Compiled([r] + rules)) == None
  {
    var ts := [Word(word)] + RuleTokens(r);
    SecondLineReads(r, first, end, word);
    RulesRead(rules);
    assert ([r] + rules)[1..] == rules;
    ReadsBoth(RulesText([r] + rules), ts + RulesTokens(rules), RuleText(r), ts, RulesText(rules), RulesTokens(rules));
    LexWhole([r] + rules, ts + RulesTokens(rules));
    RequireParses(ts + RulesTokens(rules));
    NoSuchCommand(ts + RulesTokens(rules));
  }

  lemma {:induction false} NoSuchCommand(ts: seq<Token>)
    requires |ts| > 1 && ts[0].Word? && ts[1] == Word("if")
    ensures ParseCommands(ts) == Some(([], ts))
  {
    assert ParseTest(ts[1..]).None?;
    assert ParseCommand(ts).None?;
  }

  lemma {:induction false} SecondLineReads(r: Rule, first: string, end: char, word: string)
    requires r.name == first + [end] + word && OneLine(first) && IsBreak(end) && IsIdent(word)
    ensures Reads(RuleText(r), [Word(word)] + RuleTokens(r))
  {
    NameLineReads(r.name, first, end, word);
    BodyOfRuleReads(r);
    ReadsBoth(RuleText(r), [Word(word)] + RuleTokens(r), NameLine(r.name), [Word(word)], RuleBody(r), RuleTokens(r));
  }

  lemma {:induction false} NameLineReads(name: string, first: string, end: char, word: string)
    requires name == first + [end] + word && OneLine(first) && IsBreak(end) && IsIdent(word)
    ensures Reads(NameLine(name), [Word(word)])
  {
    FirstLineReads(first, end);
    ReadsWordLine(word);
    NameLineSplits(first, end, word);
    ReadsBoth(NameLine(name), [Word(word)], "\n# " + first + [end], [], word + "\n", [Word(word)]);
  }

  lemma {:induction false} NameLineSplits(first: string, end: char, word: string)
    ensures NameLine(first + [end] + word) == "\n# " + first + [end] + (word + "\n")
  {
  }

  // ---- extensions ----------------------------------------------------------

  lemma {:induction false} CondNeeds(c: Cond)
    ensures TestUsesBody(CondTest(c)) <==> c.field == "body"
  {
    var t := CondTest(c.(op := "contains"));
    assert CondTest(c) == t || CondTest(c) == Not(t) || c.op == "is";
  }

  lemma {:induction false} GuardNeeds(r: Rule)
    ensures TestUsesBody(GuardTest(r)) <==> exists c :: c in r.conditions && c.field == "body"
  {
    var tests := CondTests(r.conditions);
    CondTestsAre(r.conditions);
    forall c ensures TestUsesBody(CondTest(c)) <==> c.field == "body" { CondNeeds(c); }
    forall c | c in r.conditions && c.field == "body" ensures TestUsesBody(GuardTest(r)) {
      var i :| 0 <= i < |r.conditions| && r.conditions[i] == c;
      assert tests[i] in tests && TestUsesBody(tests[i]);
    }
    forall t | t in tests && TestUsesBody(t) ensures exists c :: c in r.conditions && c.field == "body" {
      var i :| 0 <= i < |tests| && tests[i] == t;
      assert r.conditions[i] in r.conditions;
    }
  }

  lemma {:induction false} BlockNeeds(acts: seq<Action>)
    ensures Needs(Commands(acts)) <= {"fileinto", "imap4flags"}
  {
    if acts != [] {
      BlockNeeds(acts[1..]);
      assert Commands(acts)[1..] == Commands(acts[1..]);
    }
  }

  lemma {:induction false} RulesNeed(rules: seq<Rule>)
    ensures Needs(RuleCommands(rules)) <= {"fileinto", "imap4flags", "body"}
    ensures "body" in Needs(RuleCommands(rules)) <==> UsesBody(rules)
  {
    if rules != [] {
      RulesNeed(rules[1..]);
      GuardNeeds(rules[0]);
      BlockNeeds(Supported(rules[0].actions));
      assert RuleCommands(rules)[1..] == RuleCommands(rules[1..]);
    }
  }

  /** Every extension the script uses is declared, exactly when no rule looks at the body. */
  lemma {:induction false} CompiledIsValid(rules: seq<Rule>)
    requires forall r :: r in rules ==> Harmless(r.name)
    ensures Valid(Compiled(rules)) <==> !UsesBody(rules)
  {
    CompiledParses(rules);
    RulesNeed(rules);
    HeaderDeclares(RuleCommands(rules));
  }

  lemma {:induction false} HeaderDeclares(commands: seq<Command>)
    requires commands == [] || !commands[0].Require?
    ensures Declared([REQUIREMENT] + commands) == {"fileinto", "imap4flags"}
    ensures Needs([REQUIREMENT] + commands) == Needs(commands)
  {
    var script := [REQUIREMENT] + commands;
    assert script[1..] == commands;
    forall e ensures e in REQUIREMENT.extensions <==> e == "fileinto" || e == "imap4flags" {}
  }

  // ---- flags ---------------------------------------------------------------

  /** `setflag` replaces the flags set so far (RFC 5232, section 3.1). */
  function FinalFlags(acts: seq<Action>, set0: set<string>): set<string> {
    if acts == [] then set0
    else FinalFlags(acts[1..], if acts[0].SetFlag? then {acts[0].flag} else set0)
  }

  predicate Asks(actions: seq<Act>, kind: string) { exists a :: a in actions && a.kind == kind }

  /** The flags a rule's actions ask for, together. */
  function AllFlags(acts: seq<Action>): set<string> { set a | a in acts && a.SetFlag? :: a.flag }

  /** A rule leaves all the flags it asks for, unless it asks for both. */
  lemma {:induction false} FlagsSurvive(actions: seq<Act>)
    ensures FinalFlags(Supported(actions), {}) == AllFlags(Supported(actions)) <==>
            !(Asks(actions, "markRead") && Asks(actions, "star"))
  {
    FinalIsLast(Supported(actions), {});
    FlagsAsked(actions);
    OneFlagAtMost(AllFlags(Supported(actions)), FinalFlags(Supported(actions), {}));
  }

  lemma {:induction false} OneFlagAtMost(asked: set<string>, kept: set<string>)
    requires forall f :: f in asked ==> f == "\\Seen" || f == "\\Flagged"
    requires asked == {} ==> kept == {}
    requires asked != {} ==> exists f :: f in asked && kept == {f}
    ensures asked == kept <==> !("\\Seen" in asked && "\\Flagged" in asked)
  {
    assert "\\Seen" != "\\Flagged";
  }

  lemma {:induction false} FinalIsLast(acts: seq<Action>, set0: set<string>)
    ensures AllFlags(acts) == {} ==> FinalFlags(acts, set0) == set0
    ensures AllFlags(acts) != {} ==> exists f :: f in AllFlags(acts) && FinalFlags(acts, set0) == {f}
  {
    if acts != [] {
      FinalIsLast(acts[1..], if acts[0].SetFlag? then {acts[0].flag} else set0);
      assert AllFlags(acts) == AllFlags(acts[1..]) + if acts[0].SetFlag? then {acts[0].flag} else {};
    }
  }

  lemma {:induction false} FlagsAsked(actions: seq<Act>)
    ensures forall f :: f in AllFlags(Supported(actions)) <==>
              (f == "\\Seen" && Asks(actions, "markRead")) || (f == "\\Flagged" && Asks(actions, "star"))
  {
    if actions != [] {
      FlagsAsked(actions[1..]);
      var a, rest := actions[0], actions[1..];
      assert Asks(actions, "markRead") <==> a.kind == "markRead" || Asks(rest, "markRead");
      assert Asks(actions, "star") <==> a.kind == "star" || Asks(rest, "star");
      assert AllFlags(Supported(actions)) == AllFlags(Asked(a)) + AllFlags(Supported(rest));
    }
  }

  // ---- the compiler's loop -------------------------------------------------

  /** `compile_sieve`. */
  method CompileSieve(rules: seq<Rule>) returns (out: string)
    ensures out == Compiled(rules)
  {
    out := REQUIRE;
    for i := 0 to |rules|
      invariant out + RulesText(rules[i..]) == Compiled(rules)
    {
      var r, before := rules[i], out;
      out := out + (NameLine(r.name) + Guard(r) + "\n");
      out := PushActions(out, r.actions);
      out := out + "    stop;\n}\n";
      RuleAppended(before, rules, i);
    }
  }

  method PushActions(before: string, actions: seq<Act>) returns (out: string)
    ensures out == before + ActionLines(actions)
  {
    out := before;
    for i := 0 to |actions|
      invariant out + ActionLines(actions[i..]) == before + ActionLines(actions)
    {
      var line := SieveAction(actions[i]);
      assert actions[i..][1..] == actions[i + 1..];
      if line.Some? {
        out := out + line.value;
        out := out + "\n";
      }
    }
  }

  lemma {:induction false} RuleAppended(before: string, rules: seq<Rule>, i: nat)
    requires i < |rules|
    ensures var r := rules[i];
            before + (NameLine(r.name) + Guard(r) + "\n") + ActionLines(r.actions) + "    stop;\n}\n"
            + RulesText(rules[i + 1..]) == before + RulesText(rules[i..])
  {
    var r := rules[i];
    assert rules[i..][1..] == rules[i + 1..];
    Grouped(before, NameLine(r.name), Guard(r), "\n", ActionLines(r.actions), "    stop;\n}\n",
            RulesText(rules[i + 1..]));
  }

  lemma {:induction false} Grouped(a: string, b: string, c: string, d: string, e: string, f: string, g: string)
    ensures a + (b + c + d) + e + f + g == a + ((b + (c + d + e + f)) + g)
  {
  }

  lemma {:induction false} CompiledKeepsMeaning(rules: seq<Rule>)
    ensures (forall r :: r in rules ==> Harmless(r.name)) ==>
              (forall m :: Evaluate(Compiled(rules), m) == Some(FirstMatch(rules, m)))
              && (Valid(Compiled(rules)) <==> !UsesBody(rules))
  {
    if forall r :: r in rules ==> Harmless(r.name) {
      CompiledIsValid(rules);
      forall m ensures Evaluate(Compiled(rules), m) == Some(FirstMatch(rules, m)) { CompiledMeans(rules, m); }
    }
  }
}
