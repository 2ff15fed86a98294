/** Text escaping by chains of whole-string replacements, as vCard, iCalendar and
    XML values go through them, and what exactly the inverse chains undo. */
module Escapes {

  /** `str::replace`: non-overlapping matches, left to right. */
  function Replace(s: string, pattern: string, to: string): string
    requires pattern != []
    decreases |s|
  {
    if |s| < |pattern| then s
    else if s[..|pattern|] == pattern then to + Replace(s[|pattern|..], pattern, to)
    else [s[0]] + Replace(s[1..], pattern, to)
  }

  function EscapeVcard(s: string): string {
    Replace(Replace(Replace(Replace(s, "\\", "\\\\"), "\n", "\\n"), ";", "\\;"), ",", "\\,")
  }

  function UnescapeVcard(s: string): string {
    Replace(Replace(Replace(Replace(Replace(s, "\\n", "\n"), "\\N", "\n"), "\\,", ","), "\\;", ";"), "\\\\", "\\")
  }

  function EscapeIcal(s: string): string {
    Replace(Replace(Replace(Replace(s, "\\", "\\\\"), "\n", "\\n"), ",", "\\,"), ";", "\\;")
  }

  function UnescapeIcal(s: string): string {
    Replace(Replace(Replace(Replace(s, "\\n", "\n"), "\\,", ","), "\\;", ";"), "\\\\", "\\")
  }

  function XmlEscape(s: string): string {
    Replace(Replace(Replace(s, "&", "&amp;"), "<", "&lt;"), ">", "&gt;")
  }

  /** The content of an element, before the final trim: a CDATA wrapper is taken
      off, then the three entities are decoded. */
  function XmlContent(value: string): string {
    var open, close := "<![CDATA[", "]]>";
    var inner :=
      if |open| + |close| <= |value| && value[..|open|] == open && value[|value| - |close|..] == close
      then value[|open|..|value| - |close|] else value;
    Replace(Replace(Replace(inner, "&lt;", "<"), "&gt;", ">"), "&amp;", "&")
  }

  // ---- escaping, character by character ---------------------------------

  lemma {:induction false} ReplaceCharSplits(a: string, b: string, c: char, to: string)
    ensures Replace(a + b, [c], to) == Replace(a, [c], to) + Replace(b, [c], to)
    decreases |a|
  {
    if a == [] {
      assert a + b == b;
    } else {
      assert (a + b)[..1] == a[..1] && (a + b)[1..] == a[1..] + b;
      ReplaceCharSplits(a[1..], b, c, to);
    }
  }

  lemma {:induction false} ReplaceOneChar(d: char, c: char, to: string)
    ensures Replace([d], [c], to) == if d == c then to else [d]
  {
    assert [d][1..] == [] && [d][..1] == [d];
  }

  /** The letter that stands for an escaped character after its backslash. */
  function Letter(c: char): char { if c == '\n' then 'n' else c }

  predicate Special(c: char) { c == '\n' || c == ',' || c == ';' }

  predicate Breaks(letters: set<char>, c: char) { c in letters && (c == 'n' || c == 'N') }

  /** An escaped text some of whose escapes, those for `letters`, have been replaced
      back. A line-break letter of the original that directly follows a backslash is
      caught too, together with half of that backslash's escape. */
  function Partly(s: string, letters: set<char>): string
    decreases |s|
  {
    if s == [] then []
    else if s[0] == '\\' then
      if |s| > 1 && Breaks(letters, s[1]) then "\\\n" + Partly(s[2..], letters)
      else "\\\\" + Partly(s[1..], letters)
    else if Special(s[0]) && Letter(s[0]) !in letters then ['\\', Letter(s[0])] + Partly(s[1..], letters)
    else [s[0]] + Partly(s[1..], letters)
  }

  /** The text after the escaping steps for `done`. */
  function Escaping(s: string, done: set<char>): string
    decreases |s|
  {
    if s == [] then [] else EscapingChar(s[0], done) + Escaping(s[1..], done)
  }

  function EscapingChar(c: char, done: set<char>): (r: string)
    ensures 1 <= |r| <= 2
  {
    if c in done then ['\\', Letter(c)] else [c]
  }

  /** The backslash goes first; after that the steps may come in any order. */
  lemma {:induction false} EscapeStage(s: string, done: set<char>, c: char)
    requires c !in done && if c == '\\' then done == {} else '\\' in done && Special(c)
    requires done <= {'\\', '\n', ',', ';'}
    ensures Replace(Escaping(s, done), [c], ['\\', Letter(c)]) == Escaping(s, done + {c})
    decreases |s|
  {
    if s != [] {
      var head := EscapingChar(s[0], done);
      EscapeStage(s[1..], done, c);
      ReplaceCharSplits(head, Escaping(s[1..], done), c, ['\\', Letter(c)]);
      ReplaceToken(head, c, ['\\', Letter(c)]);
      assert EscapingChar(s[0], done + {c}) == Replace(head, [c], ['\\', Letter(c)]);
    }
  }

  lemma {:induction false} EscapingEnds(s: string)
    ensures Escaping(s, {}) == s
    ensures Escaping(s, {'\\', '\n', ',', ';'}) == Partly(s, {})
    decreases |s|
  {
    if s != [] { EscapingEnds(s[1..]); }
  }

  lemma {:induction false} EscapesAgree(s: string)
    ensures EscapeVcard(s) == Partly(s, {}) == EscapeIcal(s)
  {
    EscapingEnds(s);
    EscapeStage(s, {}, '\\');
    EscapeStage(s, {} + {'\\'}, '\n');
    EscapeStage(s, {} + {'\\'} + {'\n'}, ';');
    EscapeStage(s, {} + {'\\'} + {'\n'} + {';'}, ',');
    EscapeStage(s, {} + {'\\'} + {'\n'}, ',');
    EscapeStage(s, {} + {'\\'} + {'\n'} + {','}, ';');
    assert {} + {'\\'} + {'\n'} + {';'} + {','} == {'\\', '\n', ',', ';'};
    assert {} + {'\\'} + {'\n'} + {','} + {';'} == {'\\', '\n', ',', ';'};
  }

  /** One- and two-character tokens. */
  lemma {:induction false} ReplaceToken(a: string, c: char, to: string)
    requires 1 <= |a| <= 2
    ensures Replace(a, [c], to) ==
      (if a[0] == c then to else [a[0]]) + (if |a| == 1 then [] else if a[1] == c then to else [a[1]])
  {
    ReplaceOneChar(a[0], c, to);
    if |a| == 2 {
      assert a == [a[0]] + [a[1]];
      ReplaceCharSplits([a[0]], [a[1]], c, to);
      ReplaceOneChar(a[1], c, to);
    }
  }

  // ---- unescaping, stage by stage ----------------------------------------

  /** No match at the front: the first character stays. */
  lemma {:induction false} ReplaceSteps(s: string, pattern: string, to: string)
    requires s != [] && pattern != []
    requires |pattern| <= |s| ==> s[..|pattern|] != pattern
    ensures Replace(s, pattern, to) == [s[0]] + Replace(s[1..], pattern, to)
  {
    if |s| < |pattern| { assert Replace(s[1..], pattern, to) == s[1..]; }
  }

  lemma {:induction false} ReplaceSkips(p: char, rest: string, pattern: string, to: string)
    requires pattern != [] && pattern[0] != p
    ensures Replace([p] + rest, pattern, to) == [p] + Replace(rest, pattern, to)
  {
    var s := [p] + rest;
    assert s[1..] == rest;
    assert |pattern| <= |s| ==> s[..|pattern|][0] == p;
    ReplaceSteps(s, pattern, to);
  }

  lemma {:induction false} ReplaceTakes(pattern: string, rest: string, to: string)
    requires pattern != []
    ensures Replace(pattern + rest, pattern, to) == to + Replace(rest, pattern, to)
  {
    assert (pattern + rest)[..|pattern|] == pattern && (pattern + rest)[|pattern|..] == rest;
  }

  /** A backslash with another letter after it. */
  lemma {:induction false} ReplaceSkipsPair(q: char, rest: string, x: char, to: string)
    requires q != x && q != '\\'
    ensures Replace(['\\', q] + rest, ['\\', x], to) == ['\\', q] + Replace(rest, ['\\', x], to)
  {
    var s := ['\\', q] + rest;
    assert s == ['\\'] + ([q] + rest);
    ReplaceSkipsBackslash([q] + rest, x, to);
    ReplaceSkips(q, rest, ['\\', x], to);
  }

  /** A backslash that nothing matching follows. */
  lemma {:induction false} ReplaceSkipsBackslash(rest: string, x: char, to: string)
    requires rest == [] || rest[0] != x
    ensures Replace(['\\'] + rest, ['\\', x], to) == ['\\'] + Replace(rest, ['\\', x], to)
  {
    var s := ['\\'] + rest;
    assert s[1..] == rest;
    if rest != [] { assert s[..2][1] == rest[0]; }
    ReplaceSteps(s, ['\\', x], to);
  }

  /** One replacement of the unescape chain takes its own letter back, nowhere else. */
  lemma {:induction false} UnescapeStage(s: string, letters: set<char>, x: char, y: char)
    requires x !in letters && x in {'n', 'N', ',', ';'}
    requires y == if x == 'n' || x == 'N' then '\n' else x
    ensures Replace(Partly(s, letters), ['\\', x], [y]) == Partly(s, letters + {x})
    decreases |s|
  {
    if s == [] {
    } else if s[0] == '\\' {
      if |s| > 1 && Breaks(letters, s[1]) {
        UnescapeStage(s[2..], letters, x, y);
        ReplaceSkipsPair('\n', Partly(s[2..], letters), x, [y]);
      } else if |s| > 1 && s[1] == x && Breaks({x}, x) {
        UnescapeStage(s[2..], letters, x, y);
        UnescapeCaught(s, letters, x, y);
      } else {
        UnescapeStage(s[1..], letters, x, y);
        UnescapeDouble(s, letters, x, y);
      }
    } else {
      var rest := Partly(s[1..], letters);
      UnescapeStage(s[1..], letters, x, y);
      if Special(s[0]) && Letter(s[0]) !in letters {
        if Letter(s[0]) == x {
          ReplaceTakes(['\\', x], rest, [y]);
        } else {
          ReplaceSkipsPair(Letter(s[0]), rest, x, [y]);
        }
      } else {
        ReplaceSkips(s[0], rest, ['\\', x], [y]);
      }
    }
  }

  /** An escaped backslash followed by the raw letter `x`: its second half is caught. */
  lemma {:induction false} UnescapeCaught(s: string, letters: set<char>, x: char, y: char)
    requires |s| > 1 && s[0] == '\\' && s[1] == x && Breaks({x}, x) && x !in letters && y == '\n'
    requires Replace(Partly(s[2..], letters), ['\\', x], [y]) == Partly(s[2..], letters + {x})
    ensures Replace(Partly(s, letters), ['\\', x], [y]) == Partly(s, letters + {x})
  {
    var rest := Partly(s[2..], letters);
    PartlyOfRaw(s, letters, x);
    ReplaceSkipsBackslash(['\\', x] + rest, x, [y]);
    ReplaceTakes(['\\', x], rest, [y]);
    assert Partly(s, letters + {x}) == ['\\'] + ([y] + Partly(s[2..], letters + {x}));
  }

  lemma {:induction false} PartlyOfRaw(s: string, letters: set<char>, x: char)
    requires |s| > 1 && s[0] == '\\' && s[1] == x && Breaks({x}, x) && x !in letters
    ensures Partly(s, letters) == ['\\'] + (['\\', x] + Partly(s[2..], letters))
  {
    assert s[1..][1..] == s[2..];
    assert Partly(s[1..], letters) == [x] + Partly(s[2..], letters);
  }

  /** An escaped backslash otherwise: both halves stay. */
  lemma {:induction false} UnescapeDouble(s: string, letters: set<char>, x: char, y: char)
    requires s != [] && s[0] == '\\' && x !in letters && x in {'n', 'N', ',', ';'}
    requires |s| > 1 ==> !Breaks(letters, s[1]) && !(s[1] == x && Breaks({x}, x))
    requires Replace(Partly(s[1..], letters), ['\\', x], [y]) == Partly(s[1..], letters + {x})
    ensures Replace(Partly(s, letters), ['\\', x], [y]) == Partly(s, letters + {x})
  {
    var rest := Partly(s[1..], letters);
    assert rest == [] || rest[0] != x;
    DoubleStays(rest, x, [y]);
    assert Partly(s, letters) == "\\\\" + rest;
    assert Partly(s, letters + {x}) == "\\\\" + Partly(s[1..], letters + {x});
  }

  lemma {:induction false} DoubleStays(rest: string, x: char, to: string)
    requires x != '\\' && (rest == [] || rest[0] != x)
    ensures Replace("\\\\" + rest, ['\\', x], to) == "\\\\" + Replace(rest, ['\\', x], to)
  {
    assert "\\\\" + rest == ['\\'] + (['\\'] + rest);
    ReplaceSkipsBackslash(['\\'] + rest, x, to);
    ReplaceSkipsBackslash(rest, x, to);
  }

  /** What a round trip makes of a text: a line-break letter directly after a
      backslash becomes a line break, everything else is kept. */
  function Smudged(s: string, letters: set<char>): (r: string)
    ensures |r| == |s|
    decreases |s|
  {
    if s == [] then []
    else if s[0] == '\\' && |s| > 1 && Breaks(letters, s[1]) then "\\\n" + Smudged(s[2..], letters)
    else [s[0]] + Smudged(s[1..], letters)
  }

  lemma {:induction false} LastStage(s: string, letters: set<char>)
    requires {'n', ',', ';'} <= letters
    ensures Replace(Partly(s, letters), "\\\\", "\\") == Smudged(s, letters)
    decreases |s|
  {
    if s == [] {
    } else if s[0] == '\\' {
      if |s| > 1 && Breaks(letters, s[1]) {
        LastStage(s[2..], letters);
        ReplaceSkipsPair('\n', Partly(s[2..], letters), '\\', "\\");
      } else {
        LastStage(s[1..], letters);
        ReplaceTakes("\\\\", Partly(s[1..], letters), "\\");
      }
    } else {
      LastStage(s[1..], letters);
      ReplaceSkips(s[0], Partly(s[1..], letters), "\\\\", "\\");
    }
  }

  lemma {:induction false} VcardRoundTripIs(s: string)
    ensures UnescapeVcard(EscapeVcard(s)) == Smudged(s, {'n', 'N', ',', ';'})
  {
    EscapesAgree(s);
    UnescapeStage(s, {}, 'n', '\n');
    UnescapeStage(s, {} + {'n'}, 'N', '\n');
    UnescapeStage(s, {} + {'n'} + {'N'}, ',', ',');
    UnescapeStage(s, {} + {'n'} + {'N'} + {','}, ';', ';');
    assert {} + {'n'} + {'N'} + {','} + {';'} == {'n', 'N', ',', ';'};
    LastStage(s, {'n', 'N', ',', ';'});
  }

  lemma {:induction false} IcalRoundTripIs(s: string)
    ensures UnescapeIcal(EscapeIcal(s)) == Smudged(s, {'n', ',', ';'})
  {
    EscapesAgree(s);
    UnescapeStage(s, {}, 'n', '\n');
    UnescapeStage(s, {} + {'n'}, ',', ',');
    UnescapeStage(s, {} + {'n'} + {','}, ';', ';');
    assert {} + {'n'} + {','} + {';'} == {'n', ',', ';'};
    LastStage(s, {'n', ',', ';'});
  }

  lemma {:induction false} SmudgedAt(s: string, letters: set<char>, i: nat)
    requires i < |s|
    ensures Smudged(s, letters)[i] == if i > 0 && s[i - 1] == '\\' && Breaks(letters, s[i]) then '\n' else s[i]
    decreases |s|
  {
    if s[0] == '\\' && |s| > 1 && Breaks(letters, s[1]) {
      if i >= 2 { SmudgedAt(s[2..], letters, i - 2); }
    } else if i >= 1 {
      SmudgedAt(s[1..], letters, i - 1);
    }
  }

  /** A backslash is directly followed by a line-break letter. */
  ghost predicate Ambiguous(s: string, letters: set<char>) {
    exists i :: 0 < i < |s| && s[i - 1] == '\\' && Breaks(letters, s[i])
  }

  lemma {:induction false} SmudgedIsIdentity(s: string, letters: set<char>)
    ensures Smudged(s, letters) == s <==> !Ambiguous(s, letters)
  {
    forall i | 0 <= i < |s|
      ensures Smudged(s, letters)[i] == if i > 0 && s[i - 1] == '\\' && Breaks(letters, s[i]) then '\n' else s[i]
    {
      SmudgedAt(s, letters, i);
    }
    if Ambiguous(s, letters) {
      var i :| 0 < i < |s| && s[i - 1] == '\\' && Breaks(letters, s[i]);
      assert Smudged(s, letters)[i] != s[i];
    } else {
      forall i | 0 <= i < |s| ensures Smudged(s, letters)[i] == s[i] {
        if i > 0 && s[i - 1] == '\\' { assert !Breaks(letters, s[i]); }
      }
    }
  }

  /** A vCard value survives escaping and unescaping if and only if no backslash in it
      is directly followed by `n` or `N`. */
  lemma {:induction false} VcardRoundTrip(s: string)
    ensures UnescapeVcard(EscapeVcard(s)) == s <==>
              !exists i :: 0 < i < |s| && s[i - 1] == '\\' && (s[i] == 'n' || s[i] == 'N')
  {
    VcardRoundTripIs(s);
    SmudgedIsIdentity(s, {'n', 'N', ',', ';'});
    assert Ambiguous(s, {'n', 'N', ',', ';'}) <==>
      exists i :: 0 < i < |s| && s[i - 1] == '\\' && (s[i] == 'n' || s[i] == 'N');
  }

  /** An iCalendar value does if and only if no backslash is followed by `n`. */
  lemma {:induction false} IcalRoundTrip(s: string)
    ensures UnescapeIcal(EscapeIcal(s)) == s <==> !exists i :: 0 < i < |s| && s[i - 1] == '\\' && s[i] == 'n'
  {
    IcalRoundTripIs(s);
    SmudgedIsIdentity(s, {'n', ',', ';'});
    assert Ambiguous(s, {'n', ',', ';'}) <==> exists i :: 0 < i < |s| && s[i - 1] == '\\' && s[i] == 'n';
  }

  // ---- XML ----------------------------------------------------------------

  function Entity(c: char): string {
    if c == '<' then "&lt;" else if c == '>' then "&gt;" else if c == '&' then "&amp;" else [c]
  }

  /** Escaped XML with the entities of `back` decoded again. */
  function PartlyXml(s: string, back: set<char>): string
    decreases |s|
  {
    if s == [] then [] else (if s[0] in back then [s[0]] else Entity(s[0])) + PartlyXml(s[1..], back)
  }

  lemma {:induction false} XmlEscapeIs(s: string)
    ensures XmlEscape(s) == PartlyXml(s, {})
    decreases |s|
  {
    if s != [] {
      var c, t := s[0], s[1..];
      assert s == [c] + t;
      XmlEscapeIs(t);
      var a1, t1 := Replace([c], "&", "&amp;"), Replace(t, "&", "&amp;");
      ReplaceCharSplits([c], t, '&', "&amp;");
      ReplaceOneChar(c, '&', "&amp;");
      var a2, t2 := Replace(a1, "<", "&lt;"), Replace(t1, "<", "&lt;");
      ReplaceCharSplits(a1, t1, '<', "&lt;");
      if c == '&' { AmpIsPlain("&lt;", '<'); } else { ReplaceOneChar(c, '<', "&lt;"); }
      ReplaceCharSplits(a2, t2, '>', "&gt;");
      if c == '&' { AmpIsPlain("&gt;", '>'); }
      else if c == '<' { LtIsPlain(); }
      else { ReplaceOneChar(c, '>', "&gt;"); }
    }
  }

  lemma {:induction false} AmpIsPlain(to: string, c: char)
    requires c == '<' || c == '>'
    ensures Replace("&amp;", [c], to) == "&amp;"
  {
    NoMatch("&amp;", c, to);
  }

  lemma {:induction false} LtIsPlain()
    ensures Replace("&lt;", ">", "&gt;") == "&lt;"
  {
    NoMatch("&lt;", '>', "&gt;");
  }

  lemma {:induction false} NoMatch(s: string, c: char, to: string)
    requires c !in s
    ensures Replace(s, [c], to) == s
    decreases |s|
  {
    if s != [] {
      assert s[0] in s;
      assert s[..1] == [s[0]] && s == [s[0]] + s[1..];
      NoMatch(s[1..], c, to);
    }
  }

  lemma {:induction false} ReplaceSkipsAll(skipped: string, rest: string, pattern: string, to: string)
    requires pattern != [] && pattern[0] !in skipped
    ensures Replace(skipped + rest, pattern, to) == skipped + Replace(rest, pattern, to)
    decreases |skipped|
  {
    if skipped == [] {
      assert skipped + rest == rest;
    } else {
      assert skipped + rest == [skipped[0]] + (skipped[1..] + rest);
      ReplaceSkips(skipped[0], skipped[1..] + rest, pattern, to);
      ReplaceSkipsAll(skipped[1..], rest, pattern, to);
    }
  }

  /** An entity is skipped by the decoding of another one. */
  lemma {:induction false} SkipEntity(e: string, rest: string, pattern: string, to: string)
    requires |e| > 1 && |pattern| > 1 && e[1] != pattern[1] && pattern[0] !in e[1..]
    ensures Replace(e + rest, pattern, to) == e + Replace(rest, pattern, to)
  {
    var s := e + rest;
    assert |pattern| <= |s| ==> s[..|pattern|][1] == e[1];
    ReplaceSteps(s, pattern, to);
    assert s[1..] == e[1..] + rest;
    ReplaceSkipsAll(e[1..], rest, pattern, to);
    assert e == [e[0]] + e[1..];
  }

  lemma {:induction false} XmlStage(s: string, back: set<char>, c: char)
    requires c !in back && (c == '<' || c == '>' || (c == '&' && back == {'<', '>'}))
    requires '&' !in back
    ensures Replace(PartlyXml(s, back), Entity(c), [c]) == PartlyXml(s, back + {c})
    decreases |s|
  {
    if s != [] {
      var d, rest := s[0], PartlyXml(s[1..], back);
      XmlStage(s[1..], back, c);
      if d in back || Entity(d) == [d] { ReplaceSkips(d, rest, Entity(c), [c]); }
      else if d == c { ReplaceTakes(Entity(c), rest, [c]); }
      else { SkipEntity(Entity(d), rest, Entity(c), [c]); }
    }
  }

  lemma {:induction false} XmlAllBack(s: string)
    ensures PartlyXml(s, {'<', '>', '&'}) == s
    decreases |s|
  {
    if s != [] { XmlAllBack(s[1..]); }
  }

  ghost predicate IsCdata(value: string, inner: string) { value == "<![CDATA[" + inner + "]]>" }

  /** What is not a CDATA section is decoded as it is. */
  lemma {:induction false} NotCdata(value: string)
    requires forall inner :: !IsCdata(value, inner)
    ensures XmlContent(value) == Replace(Replace(Replace(value, "&lt;", "<"), "&gt;", ">"), "&amp;", "&")
  {
    var open, close := "<![CDATA[", "]]>";
    if |open| + |close| <= |value| && value[..|open|] == open && value[|value| - |close|..] == close {
      var inner := value[|open|..|value| - |close|];
      assert value == value[..|open|] + inner + value[|value| - |close|..];
      assert IsCdata(value, inner);
    }
  }

  lemma {:induction false} XmlStages(s: string, none: set<char>, lt: set<char>, both: set<char>, all: set<char>)
    requires none == {} && lt == none + {'<'} && both == lt + {'>'} && all == both + {'&'}
    ensures Replace(Replace(Replace(PartlyXml(s, none), "&lt;", "<"), "&gt;", ">"), "&amp;", "&") == PartlyXml(s, all)
  {
    assert both == {'<', '>'};
    XmlStage(s, none, '<');
    XmlStage(s, lt, '>');
    XmlStage(s, both, '&');
  }

  /** Escaped text holds no angle bracket. */
  lemma {:induction false} XmlEscapeIsSafe(s: string)
    ensures '<' !in XmlEscape(s) && '>' !in XmlEscape(s)
  {
    XmlEscapeIs(s);
    PartlyIsSafe(s);
  }

  lemma {:induction false} PartlyIsSafe(s: string)
    ensures '<' !in PartlyXml(s, {}) && '>' !in PartlyXml(s, {})
    decreases |s|
  {
    if s != [] { PartlyIsSafe(s[1..]); }
  }

  lemma {:induction false} EscapedIsNoCdata(s: string)
    ensures forall inner :: !IsCdata(XmlEscape(s), inner)
  {
    XmlEscapeIsSafe(s);
    forall value, inner | IsCdata(value, inner) ensures '<' in value { assert value[0] == '<'; }
  }

  /** Reading an escaped XML value back gives the value, for every string. */
  lemma {:induction false} XmlRoundTrip(s: string)
    ensures XmlContent(XmlEscape(s)) == s
  {
    var all := {'<', '>', '&'};
    XmlEscapeIs(s);
    EscapedIsNoCdata(s);
    NotCdata(XmlEscape(s));
    assert {} + {'<'} == {'<'} && {'<'} + {'>'} == {'<', '>'} && {'<', '>'} + {'&'} == all;
    XmlStages(s, {}, {'<'}, {'<', '>'}, all);
    XmlAllBack(s);
  }

  ghost predicate OccursAt(pattern: string, s: string, i: int) {
    0 <= i <= |s| - |pattern| && s[i..i + |pattern|] == pattern
  }

  ghost predicate Occurs(pattern: string, s: string) {
    exists i :: OccursAt(pattern, s, i)
  }

  /** Replacing by something shorter shortens exactly the texts the pattern occurs in. */
  lemma {:induction false} ReplaceShortens(s: string, pattern: string, to: string)
    requires |to| < |pattern|
    ensures if Occurs(pattern, s) then |Replace(s, pattern, to)| < |s| else Replace(s, pattern, to) == s
    decreases |s|
  {
    if |pattern| <= |s| {
      if s[..|pattern|] == pattern {
        assert OccursAt(pattern, s, 0);
        ReplaceShortens(s[|pattern|..], pattern, to);
      } else {
        ReplaceShortens(s[1..], pattern, to);
        OccursLater(s, pattern);
        assert s == [s[0]] + s[1..];
      }
    }
  }

  lemma {:induction false} OccursLater(s: string, pattern: string)
    requires 0 < |pattern| <= |s| && s[..|pattern|] != pattern
    ensures Occurs(pattern, s) <==> Occurs(pattern, s[1..])
  {
    if Occurs(pattern, s) {
      var i :| OccursAt(pattern, s, i);
      assert i > 0 && s[1..][i - 1..i - 1 + |pattern|] == s[i..i + |pattern|];
      assert OccursAt(pattern, s[1..], i - 1);
    }
    if Occurs(pattern, s[1..]) {
      var i :| OccursAt(pattern, s[1..], i);
      assert s[1..][i..i + |pattern|] == s[i + 1..i + 1 + |pattern|];
      assert OccursAt(pattern, s, i + 1);
    }
  }

  /** A CDATA section is taken for escaped text too: it is read as written if and only if no
      entity occurs in it. */
  lemma {:induction false} CdataRoundTrip(s: string)
    ensures XmlContent("<![CDATA[" + s + "]]>") == s <==>
            !Occurs("&lt;", s) && !Occurs("&gt;", s) && !Occurs("&amp;", s)
  {
    Unwrapped(s);
    var a := Replace(s, "&lt;", "<");
    var b := Replace(a, "&gt;", ">");
    ReplaceShortens(s, "&lt;", "<");
    ReplaceShortens(a, "&gt;", ">");
    ReplaceShortens(b, "&amp;", "&");
  }

  lemma {:induction false} Unwrapped(s: string)
    ensures XmlContent("<![CDATA[" + s + "]]>") == Replace(Replace(Replace(s, "&lt;", "<"), "&gt;", ">"), "&amp;", "&")
  {
    var open, close := "<![CDATA[", "]]>";
    var value := open + s + close;
    assert value[..|open|] == open && value[|value| - |close|..] == close && value[|open|..|value| - |close|] == s;
  }

  /** Escaped text in a CDATA section is read back too. */
  lemma {:induction false} XmlRoundTripInCdata(s: string)
    ensures XmlContent("<![CDATA[" + XmlEscape(s) + "]]>") == s
  {
    Unwrapped(XmlEscape(s));
    XmlEscapeIsSafe(s);
    EscapedIsNoCdata(s);
    NotCdata(XmlEscape(s));
    XmlRoundTrip(s);
  }
}
