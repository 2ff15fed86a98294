/** IMAP modified UTF-7 mailbox names: the decoder, loop and all, against the
    encoding of section 5.1.3 of RFC 3501 (base64 as in section 4 of RFC 4648). */
module Utf7 {
  import opened Basics

  // ---- base64 without padding, ',' in place of '/' ------------------------

  function Digit(n: nat): char
    requires n < 64
  {
    if n < 26 then ('A' as int + n) as char
    else if n < 52 then ('a' as int + (n - 26)) as char
    else if n < 62 then ('0' as int + (n - 52)) as char
    else if n == 62 then '+' else '/'
  }

  function Value(c: char): (r: Option<nat>)
    ensures r.Some? ==> r.value < 64
  {
    if 'A' <= c <= 'Z' then Some(c as int - 'A' as int)
    else if 'a' <= c <= 'z' then Some(c as int - 'a' as int + 26)
    else if '0' <= c <= '9' then Some(c as int - '0' as int + 52)
    else if c == '+' then Some(62) else if c == '/' then Some(63) else None
  }

  function ToComma(c: char): char { if c == '/' then ',' else c }
  function ToSlash(c: char): char { if c == ',' then '/' else c }

  type Sextets = v: seq<nat> | forall i :: 0 <= i < |v| ==> v[i] < 64
  type Bytes = b: seq<nat> | forall i :: 0 <= i < |b| ==> b[i] < 256
  type Units = u: seq<nat> | forall i :: 0 <= i < |u| ==> u[i] < 0x10000

  function Values(s: string): (r: Option<Sextets>)
    ensures r.Some? ==> |r.value| == |s|
    decreases |s|
  {
    if s == [] then Some([])
    else
      var first, rest := Value(ToSlash(s[0])), Values(s[1..]);
      if first.None? || rest.None? then None else Some([first.value] + rest.value)
  }

  function Digits(v: Sextets): (s: string)
    ensures |s| == |v|
    decreases |v|
  {
    if v == [] then [] else [ToComma(Digit(v[0]))] + Digits(v[1..])
  }

  /** The strict decoder: no lone last digit, no stray bits after the last byte. */
  function FromSextets(v: Sextets): Option<Bytes>
    decreases |v|
  {
    if |v| == 0 then Some([])
    else if |v| == 1 then None
    else if |v| == 2 then
      if v[1] % 16 == 0 then Some([v[0] * 4 + v[1] / 16]) else None
    else if |v| == 3 then
      if v[2] % 4 == 0 then Some([v[0] * 4 + v[1] / 16, v[1] % 16 * 16 + v[2] / 4]) else None
    else
      var rest := FromSextets(v[4..]);
      if rest.None? then None
      else Some([v[0] * 4 + v[1] / 16, v[1] % 16 * 16 + v[2] / 4, v[2] % 4 * 64 + v[3]] + rest.value)
  }

  function ToSextets(b: Bytes): Sextets
    decreases |b|
  {
    if |b| == 0 then []
    else if |b| == 1 then [b[0] / 4, b[0] % 4 * 16]
    else if |b| == 2 then [b[0] / 4, b[0] % 4 * 16 + b[1] / 16, b[1] % 16 * 4]
    else [b[0] / 4, b[0] % 4 * 16 + b[1] / 16, b[1] % 16 * 4 + b[2] / 64, b[2] % 64] + ToSextets(b[3..])
  }

  // ---- UTF-16, big-endian -------------------------------------------------

  function FromBytes(b: Bytes): Option<Units>
    decreases |b|
  {
    if |b| == 0 then Some([])
    else if |b| == 1 then None
    else
      var rest := FromBytes(b[2..]);
      if rest.None? then None else Some([b[0] * 256 + b[1]] + rest.value)
  }

  function ToBytes(u: Units): Bytes
    decreases |u|
  {
    if u == [] then [] else [u[0] / 256, u[0] % 256] + ToBytes(u[1..])
  }

  predicate High(u: nat) { 0xD800 <= u < 0xDC00 }
  predicate Low(u: nat) { 0xDC00 <= u < 0xE000 }

  function FromUtf16(u: Units): Option<string>
    decreases |u|
  {
    if u == [] then Some([])
    else if High(u[0]) then
      if |u| > 1 && Low(u[1]) then
        var rest := FromUtf16(u[2..]);
        if rest.None? then None
        else Some([(0x10000 + (u[0] - 0xD800) * 0x400 + (u[1] - 0xDC00)) as char] + rest.value)
      else None
    else if Low(u[0]) then None
    else
      var rest := FromUtf16(u[1..]);
      if rest.None? then None else Some([u[0] as char] + rest.value)
  }

  function UnitsOf(c: char): Units {
    var n := c as int;
    if n < 0x10000 then [n] else [0xD800 + (n - 0x10000) / 0x400, 0xDC00 + (n - 0x10000) % 0x400]
  }

  function ToUtf16(s: string): Units
    decreases |s|
  {
    if s == [] then [] else UnitsOf(s[0]) + ToUtf16(s[1..])
  }

  // ---- runs and names -----------------------------------------------------

  /** `decode_run`. */
  function DecodeRun(chunk: string): Option<string> {
    var v := Values(chunk);
    if v.None? then None
    else
      var b := FromSextets(v.value);
      if b.None? then None
      else
        var u := FromBytes(b.value);
        if u.None? then None else FromUtf16(u.value)
  }

  /** The encoding of a run of characters. */
  function EncodeRun(run: string): string { Digits(ToSextets(ToBytes(ToUtf16(run)))) }

  function Find(s: string, c: char): (r: nat)
    ensures r <= |s| && c !in s[..r] && (r < |s| ==> s[r] == c)
    decreases |s|
  {
    if s == [] || s[0] == c then 0
    else
      var r := Find(s[1..], c);
      assert s[..r + 1] == [s[0]] + s[1..][..r];
      r + 1
  }

  /** What the front of a name decodes to, and what follows: a character, a run, or,
      from an unterminated `&` on, everything. */
  function Front(s: string): (r: (string, string))
    requires s != []
    ensures |r.1| < |s|
  {
    if s[0] != '&' then ([s[0]], s[1..])
    else
      var end := 1 + Find(s[1..], '-');
      if end == |s| then (s, "") else (DecodedRun(s[1..end]), s[end + 1..])
  }

  /** What `decode` returns, one run or character at a time. */
  function Decoded(s: string): string
    decreases |s|
  {
    if s == [] then [] else Front(s).0 + Decoded(Front(s).1)
  }

  function DecodedRun(chunk: string): string {
    if chunk == [] then "&"
    else
      var run := DecodeRun(chunk);
      if run.Some? then run.value else "&" + chunk + "-"
  }

  method Decode(input: string) returns (out: string)
    ensures out == Decoded(input)
  {
    out := [];
    var i := 0;
    while i < |input|
      invariant 0 <= i <= |input|
      invariant Decoded(input) == out + Decoded(input[i..])
    {
      ghost var before, start := out, i;
      if input[i] == '&' {
        var rel := Find(input[i + 1..], '-');
        var end := i + 1 + rel;
        FrontRun(input, i, end);
        if end < |input| {
          var chunk := input[i + 1..end];
          if chunk == [] {
            out := out + "&";
          } else {
            var run := DecodeRun(chunk);
            out := out + if run.Some? then run.value else input[i..end + 1];
          }
          i := end + 1;
        } else {
          out := out + input[i..];
          i := |input|;
        }
      } else {
        assert Front(input[i..]) == ([input[i]], input[i + 1..]);
        out := out + [input[i]];
        i := i + 1;
      }
      Advance(Decoded(input), before, out, input[start..], input[i..]);
    }
  }

  /** The front of what is left, when it is a run up to `end`. */
  lemma {:induction false} FrontRun(input: string, i: nat, end: nat)
    requires i < |input| && input[i] == '&' && end == i + 1 + Find(input[i + 1..], '-')
    ensures end <= |input|
    ensures end == |input| ==> Front(input[i..]) == (input[i..], "")
    ensures end < |input| ==>
      var chunk := input[i + 1..end];
      var decoded := if chunk == [] then "&"
                     else if DecodeRun(chunk).Some? then DecodeRun(chunk).value else input[i..end + 1];
      Front(input[i..]) == (decoded, input[end + 1..])
  {
    var s := input[i..];
    assert s[1..] == input[i + 1..];
    if end < |input| {
      assert s[1..end - i] == input[i + 1..end] && s[end - i + 1..] == input[end + 1..];
      assert input[i..end + 1] == "&" + input[i + 1..end] + "-";
    }
  }

  lemma {:induction false} Advance(goal: string, before: string, out: string, s: string, rest: string)
    requires s != [] && goal == before + Decoded(s) && out == before + Front(s).0 && rest == Front(s).1
    ensures goal == out + Decoded(rest)
  {
    DecodedStep(s);
    Regroup(goal, before, Front(s).0, Decoded(rest));
  }

  lemma {:induction false} DecodedStep(s: string)
    requires s != []
    ensures Decoded(s) == Front(s).0 + Decoded(Front(s).1)
  {
  }

  lemma {:induction false} Regroup(goal: string, a: string, b: string, c: string)
    requires goal == a + (b + c)
    ensures goal == (a + b) + c
  {
  }

  predicate Printable(c: char) { ' ' <= c <= '~' }

  function RunLength(s: string): (n: nat)
    ensures n <= |s|
    ensures s != [] && !Printable(s[0]) ==> n > 0
    decreases |s|
  {
    if s == [] || Printable(s[0]) then 0 else 1 + RunLength(s[1..])
  }

  /** The canonical encoding: printable ASCII as itself, `&` as `&-`, every maximal
      run of other characters shifted into base64. */
  function Encode(s: string): string
    decreases |s|
  {
    if s == [] then []
    else if s[0] == '&' then "&-" + Encode(s[1..])
    else if Printable(s[0]) then [s[0]] + Encode(s[1..])
    else "&" + EncodeRun(s[..RunLength(s)]) + "-" + Encode(s[RunLength(s)..])
  }

  // ---- each layer is inverted, and accepts nothing else ---------------------

  /** A chunk with `/` written as `,`; the decoder takes either. */
  function Commas(s: string): (r: string)
    ensures |r| == |s|
    decreases |s|
  {
    if s == [] then [] else [ToComma(s[0])] + Commas(s[1..])
  }

  lemma {:induction false} ValueInverts(c: char, n: nat)
    requires n < 64
    ensures Value(ToSlash(c)) == Some(n) <==> ToComma(Digit(n)) == ToComma(c)
  {
  }

  lemma {:induction false} DigitsHaveValues(s: string, v: Sextets)
    requires Digits(v) == Commas(s)
    ensures Values(s) == Some(v)
    decreases |s|
  {
    if s != [] {
      assert Digits(v)[0] == Commas(s)[0] && Digits(v)[1..] == Commas(s)[1..];
      ValueInverts(s[0], v[0]);
      DigitsHaveValues(s[1..], v[1..]);
      assert v == [v[0]] + v[1..];
    }
  }

  lemma {:induction false} ValuesHaveDigits(s: string)
    requires Values(s).Some?
    ensures Digits(Values(s).value) == Commas(s)
    decreases |s|
  {
    if s != [] {
      var v := Values(s).value;
      assert v[1..] == Values(s[1..]).value;
      ValueInverts(s[0], v[0]);
      ValuesHaveDigits(s[1..]);
    }
  }

  lemma {:induction false} Quad(p: nat, q: nat, r: nat, s: nat, x: nat, y: nat, z: nat)
    requires p < 64 && q < 64 && r < 64 && s < 64 && x < 256 && y < 256 && z < 256
    ensures (x == p * 4 + q / 16 && y == q % 16 * 16 + r / 4 && z == r % 4 * 64 + s) <==>
            (p == x / 4 && q == x % 4 * 16 + y / 16 && r == y % 16 * 4 + z / 64 && s == z % 64)
  {
    if x == p * 4 + q / 16 && y == q % 16 * 16 + r / 4 && z == r % 4 * 64 + s { QuadSplits(p, q, r, s, x, y, z); }
  }

  lemma {:induction false} QuadSplits(p: nat, q: nat, r: nat, s: nat, x: nat, y: nat, z: nat)
    requires p < 64 && q < 64 && r < 64 && s < 64
    requires x == p * 4 + q / 16 && y == q % 16 * 16 + r / 4 && z == r % 4 * 64 + s
    ensures p == x / 4 && q == x % 4 * 16 + y / 16 && r == y % 16 * 4 + z / 64 && s == z % 64
  {
  }

  lemma {:induction false} BytesFromSextets(b: Bytes)
    ensures FromSextets(ToSextets(b)) == Some(b)
    decreases |b|
  {
    if |b| >= 3 {
      BytesFromSextets(b[3..]);
      var v := ToSextets(b);
      assert v[4..] == ToSextets(b[3..]);
      Quad(v[0], v[1], v[2], v[3], b[0], b[1], b[2]);
      assert b == [b[0], b[1], b[2]] + b[3..];
    } else if |b| == 2 {
      assert b == [b[0], b[1]];
    } else if |b| == 1 {
      assert b == [b[0]];
    }
  }

  lemma {:induction false} Tail(p: nat, q: nat, r: nat)
    requires p < 64 && q < 64 && r < 64
    ensures q % 16 == 0 ==> (p * 4 + q / 16) / 4 == p && (p * 4 + q / 16) % 4 * 16 == q
    ensures r % 4 == 0 ==>
      var x, y := p * 4 + q / 16, q % 16 * 16 + r / 4;
      x / 4 == p && x % 4 * 16 + y / 16 == q && y % 16 * 4 == r
  {
  }

  lemma {:induction false} SextetsFromBytes(v: Sextets)
    requires FromSextets(v).Some?
    ensures ToSextets(FromSextets(v).value) == v
    decreases |v|
  {
    if |v| >= 4 {
      SextetsFromBytes(v[4..]);
      var b := FromSextets(v).value;
      assert b[3..] == FromSextets(v[4..]).value;
      Quad(v[0], v[1], v[2], v[3], b[0], b[1], b[2]);
      assert ToSextets(b) == v[..4] + v[4..];
    } else if |v| == 3 {
      Tail(v[0], v[1], v[2]);
      assert v == [v[0], v[1], v[2]];
    } else if |v| == 2 {
      Tail(v[0], v[1], 0);
      assert v == [v[0], v[1]];
    }
  }

  lemma {:induction false} Halves(n: nat)
    ensures n / 256 * 256 + n % 256 == n
  {
  }

  lemma {:induction false} UnitsFromBytes(u: Units)
    ensures FromBytes(ToBytes(u)) == Some(u)
    decreases |u|
  {
    if u != [] {
      UnitsFromBytes(u[1..]);
      Halves(u[0]);
      var b := ToBytes(u);
      assert b[2..] == ToBytes(u[1..]) && b[0] * 256 + b[1] == u[0];
      assert [u[0]] + u[1..] == u;
    }
  }

  lemma {:induction false} BytesFromUnits(b: Bytes)
    requires FromBytes(b).Some?
    ensures ToBytes(FromBytes(b).value) == b
    decreases |b|
  {
    if |b| >= 2 {
      BytesFromUnits(b[2..]);
      assert FromBytes(b).value[1..] == FromBytes(b[2..]).value;
      assert b == [b[0], b[1]] + b[2..];
    }
  }

  lemma {:induction false} CharsFromUtf16(s: string)
    ensures FromUtf16(ToUtf16(s)) == Some(s)
    decreases |s|
  {
    if s != [] {
      CharsFromUtf16(s[1..]);
      CharFromUtf16(s[0], ToUtf16(s[1..]));
      assert s == [s[0]] + s[1..];
    }
  }

  lemma {:induction false} CharFromUtf16(c: char, rest: Units)
    requires FromUtf16(rest).Some?
    ensures FromUtf16(UnitsOf(c) + rest) == Some([c] + FromUtf16(rest).value)
  {
    var u := UnitsOf(c) + rest;
    assert u[|UnitsOf(c)|..] == rest;
    if |UnitsOf(c)| == 2 {
      assert High(u[0]) && Low(u[1]);
    } else {
      assert u[0] == c as int && !High(u[0]) && !Low(u[0]);
    }
  }

  lemma {:induction false} Utf16FromChars(u: Units)
    requires FromUtf16(u).Some?
    ensures ToUtf16(FromUtf16(u).value) == u
    decreases |u|
  {
    if u != [] {
      var s := FromUtf16(u).value;
      var k := if High(u[0]) then 2 else 1;
      Utf16FromChars(u[k..]);
      assert s[1..] == FromUtf16(u[k..]).value;
      assert UnitsOf(s[0]) == u[..k];
      assert u == u[..k] + u[k..];
    }
  }

  /** A run decodes to `t` if and only if it is the encoding of `t`, `/` and `,` not
      told apart. */
  lemma {:induction false} RunDecodesIffEncoded(chunk: string, t: string)
    ensures DecodeRun(chunk) == Some(t) <==> EncodeRun(t) == Commas(chunk)
  {
    if EncodeRun(t) == Commas(chunk) {
      DigitsHaveValues(chunk, ToSextets(ToBytes(ToUtf16(t))));
      BytesFromSextets(ToBytes(ToUtf16(t)));
      UnitsFromBytes(ToUtf16(t));
      CharsFromUtf16(t);
    }
    if DecodeRun(chunk) == Some(t) {
      ValuesHaveDigits(chunk);
      var v := Values(chunk).value;
      SextetsFromBytes(v);
      BytesFromUnits(FromSextets(v).value);
      Utf16FromChars(FromBytes(FromSextets(v).value).value);
    }
  }

  lemma {:induction false} DigitsAreCanonical(v: Sextets)
    ensures Commas(Digits(v)) == Digits(v) && '-' !in Digits(v) && '&' !in Digits(v)
    decreases |v|
  {
    if v != [] {
      DigitsAreCanonical(v[1..]);
      assert Digits(v)[1..] == Digits(v[1..]);
    }
  }

  lemma {:induction false} EncodedRunDecodes(run: string)
    requires run != []
    ensures DecodedRun(EncodeRun(run)) == run && '-' !in EncodeRun(run)
  {
    DigitsAreCanonical(ToSextets(ToBytes(ToUtf16(run))));
    RunDecodesIffEncoded(EncodeRun(run), run);
    assert ToUtf16(run) != [] && ToBytes(ToUtf16(run)) != [] && EncodeRun(run) != [];
  }

  // ---- names ----------------------------------------------------------------

  lemma {:induction false} FindAfter(chunk: string, rest: string)
    requires '-' !in chunk
    ensures Find(chunk + "-" + rest, '-') == |chunk|
    decreases |chunk|
  {
    var s := chunk + "-" + rest;
    if chunk != [] {
      assert s[0] == chunk[0] && chunk[0] in chunk;
      assert s[1..] == chunk[1..] + "-" + rest;
      FindAfter(chunk[1..], rest);
    }
  }

  lemma {:induction false} FindNothing(s: string, c: char)
    requires c !in s
    ensures Find(s, c) == |s|
    decreases |s|
  {
    if s != [] {
      assert s[0] in s;
      FindNothing(s[1..], c);
    }
  }

  /** A terminated run is replaced on its own, whatever follows. */
  lemma {:induction false} DecodedAtRun(chunk: string, rest: string)
    requires '-' !in chunk
    ensures Decoded("&" + chunk + "-" + rest) == DecodedRun(chunk) + Decoded(rest)
  {
    var s := "&" + chunk + "-" + rest;
    assert s[1..] == chunk + "-" + rest;
    FindAfter(chunk, rest);
    assert s[1..1 + |chunk|] == chunk && s[2 + |chunk|..] == rest;
  }

  /** A prefix without `&` passes through. */
  lemma {:induction false} DecodedAfterPlain(plain: string, rest: string)
    requires '&' !in plain
    ensures Decoded(plain + rest) == plain + Decoded(rest)
    decreases |plain|
  {
    if plain == [] {
      assert plain + rest == rest;
    } else {
      assert plain[0] in plain;
      assert (plain + rest)[1..] == plain[1..] + rest;
      DecodedAfterPlain(plain[1..], rest);
    }
  }

  lemma {:induction false} RoundTripStep(s: string)
    requires s != [] && !Printable(s[0])
    requires Decoded(Encode(s[RunLength(s)..])) == s[RunLength(s)..]
    ensures Decoded(Encode(s)) == s
  {
    var n := RunLength(s);
    EncodedRunDecodes(s[..n]);
    DecodedAtRun(EncodeRun(s[..n]), Encode(s[n..]));
    Splits(s, n);
  }

  lemma {:induction false} Splits(s: string, n: nat)
    requires n <= |s|
    ensures s == s[..n] + s[n..]
  {
  }

  /** Decoding the canonical encoding of any Unicode string returns that string. */
  lemma {:induction false} RoundTrip(s: string)
    ensures Decoded(Encode(s)) == s
    decreases |s|
  {
    if s == [] {
    } else if s[0] == '&' {
      RoundTrip(s[1..]);
      DecodedAtRun([], Encode(s[1..]));
      assert "&" + [] + "-" + Encode(s[1..]) == "&-" + Encode(s[1..]);
    } else if Printable(s[0]) {
      RoundTrip(s[1..]);
      assert Encode(s)[1..] == Encode(s[1..]);
    } else {
      RoundTrip(s[RunLength(s)..]);
      RoundTripStep(s);
    }
  }

  /** Nothing is lost on malformed names: without `&` a name is unchanged … */
  lemma {:induction false} PlainIsKept(plain: string)
    requires '&' !in plain
    ensures Decoded(plain) == plain
  {
    DecodedAfterPlain(plain, []);
    assert plain + [] == plain;
  }

  /** Plain text and terminated runs, well formed or not. */
  predicate Closed(s: string)
    decreases |s|
  {
    s == [] || ((s[0] == '&' ==> Find(s[1..], '-') < |s| - 1) && Closed(Front(s).1))
  }

  lemma {:induction false} FindIn(a: string, b: string, c: char)
    requires Find(a, c) < |a|
    ensures Find(a + b, c) == Find(a, c)
    decreases |a|
  {
    if a[0] != c {
      assert (a + b)[1..] == a[1..] + b;
      FindIn(a[1..], b, c);
    }
  }

  lemma {:induction false} FrontOfClosed(prefix: string, rest: string)
    requires prefix != [] && Closed(prefix)
    ensures Front(prefix + rest) == (Front(prefix).0, Front(prefix).1 + rest)
  {
    var s := prefix + rest;
    assert s[1..] == prefix[1..] + rest;
    if prefix[0] == '&' {
      FindIn(prefix[1..], rest, '-');
      var end := 1 + Find(prefix[1..], '-');
      assert s[1..end] == prefix[1..end] && s[end + 1..] == prefix[end + 1..] + rest;
    }
  }

  /** After a closed prefix decoding starts afresh. */
  lemma {:induction false} DecodedAfter(prefix: string, rest: string)
    requires Closed(prefix)
    ensures Decoded(prefix + rest) == Decoded(prefix) + Decoded(rest)
    decreases |prefix|
  {
    if prefix == [] {
      assert prefix + rest == rest;
    } else {
      FrontOfClosed(prefix, rest);
      DecodedAfter(Front(prefix).1, rest);
    }
  }

  /** Every name is a closed prefix, and possibly one unterminated run. */
  lemma {:induction false} NameSplits(s: string) returns (prefix: string, tail: string)
    ensures s == prefix + tail && Closed(prefix)
    ensures tail == [] || (tail[0] == '&' && '-' !in tail)
    decreases |s|
  {
    if s == [] {
      return [], [];
    } else if s[0] == '&' && Find(s[1..], '-') == |s| - 1 {
      NeverClosed(s);
      return [], s;
    }
    var n := FrontLength(s);
    prefix, tail := NameSplits(s[n..]);
    ClosedGrows(s, n, prefix);
    Reassociate(s, n, prefix, tail);
    prefix := s[..n] + prefix;
  }

  /** How much of a name its first character or terminated run takes. */
  function FrontLength(s: string): (n: nat)
    requires s != [] && (s[0] == '&' ==> Find(s[1..], '-') < |s| - 1)
    ensures 1 <= n <= |s|
  {
    if s[0] == '&' then 2 + Find(s[1..], '-') else 1
  }

  lemma {:induction false} Reassociate(s: string, n: nat, a: string, b: string)
    requires n <= |s| && s[n..] == a + b
    ensures s == (s[..n] + a) + b
  {
    assert s == s[..n] + s[n..];
  }

  lemma {:induction false} NeverClosed(s: string)
    requires s != [] && s[0] == '&' && Find(s[1..], '-') == |s| - 1
    ensures '-' !in s && !Closed(s)
  {
    assert s == ['&'] + s[1..];
  }

  /** A character or a terminated run before a closed name. */
  lemma {:induction false} ClosedGrows(s: string, n: nat, prefix: string)
    requires s != [] && n <= |s| && Closed(prefix)
    requires (s[0] == '&' ==> Find(s[1..], '-') < |s| - 1) && n == FrontLength(s)
    ensures Closed(s[..n] + prefix)
  {
    var whole := s[..n] + prefix;
    if s[0] == '&' {
      assert whole[1..] == s[1..n] + prefix;
      FindHere(s[1..], n - 2);
      assert s[1..][..n - 1] == s[1..n];
      FindIn(s[1..n], prefix, '-');
    }
    assert whole[n..] == prefix && Front(whole).1 == prefix;
  }

  lemma {:induction false} FindHere(s: string, n: nat)
    requires n == Find(s, '-') < |s|
    ensures Find(s[..n + 1], '-') == n
    decreases |s|
  {
    if s[0] != '-' {
      assert s[..n + 1][1..] == s[1..][..n];
      FindHere(s[1..], n - 1);
    }
  }

  /** … an unterminated run is kept as it stands, after any name … */
  lemma {:induction false} UnterminatedIsKept(prefix: string, chunk: string)
    requires Closed(prefix) && '-' !in chunk
    ensures Decoded(prefix + ("&" + chunk)) == Decoded(prefix) + ("&" + chunk)
  {
    DecodedAfter(prefix, "&" + chunk);
    assert ("&" + chunk)[1..] == chunk;
    FindNothing(chunk, '-');
  }

  /** … and so is a run that encodes nothing, whatever surrounds it. */
  lemma {:induction false} UndecodableIsKept(prefix: string, chunk: string, rest: string)
    requires Closed(prefix) && '-' !in chunk && chunk != []
    requires forall t :: EncodeRun(t) != Commas(chunk)
    ensures Decoded(prefix + ("&" + chunk + "-" + rest)) == Decoded(prefix) + ("&" + chunk + "-" + Decoded(rest))
  {
    if DecodeRun(chunk).Some? {
      RunDecodesIffEncoded(chunk, DecodeRun(chunk).value);
      assert false;
    }
    DecodedAfter(prefix, "&" + chunk + "-" + rest);
    DecodedAtRun(chunk, rest);
  }
}
