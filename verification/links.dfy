/** Citations as relative references: percent-encoding (section 2.1 of RFC 3986),
    segments, and the removal of dot segments (section 5.2.4). Text is UTF-8. */
module LinkText {
  import opened Common

  type Octet = c: char | c as int < 256 witness 'a'

  type Text = seq<Octet>

  predicate Letter(c: Octet) {
    'a' <= c <= 'z' || 'A' <= c <= 'Z'
  }

  predicate Digit(c: Octet) {
    '0' <= c <= '9'
  }

  /** What `encodeURIComponent` leaves alone. */
  predicate Unreserved(c: Octet) {
    Letter(c) || Digit(c) || c == '-' || c == '_' || c == '.' || c == '!' || c == '~'
    || c == '*' || c == '\'' || c == '(' || c == ')'
  }

  function HexDigit(n: nat): Octet
    requires n < 16
  {
    if n < 10 then (n + '0' as int) as char else (n - 10 + 'A' as int) as char
  }

  function HexValue(c: Octet): (n: Option<nat>)
    ensures n.Some? ==> n.value < 16
  {
    if Digit(c) then Some(c as int - '0' as int)
    else if 'A' <= c <= 'F' then Some(c as int - 'A' as int + 10)
    else if 'a' <= c <= 'f' then Some(c as int - 'a' as int + 10)
    else None
  }

  function EncodeOctet(c: Octet): Text {
    if Unreserved(c) then [c] else ['%', HexDigit(c as int / 16), HexDigit(c as int % 16)]
  }

  /** `encodeURIComponent`. */
  function Encode(text: Text): Text {
    if text == [] then [] else EncodeOctet(text[0]) + Encode(text[1..])
  }

  /** `decodeURIComponent`; a percent sign without two digits is an error. */
  function Decode(text: Text): Option<Text> {
    if text == [] then Some([])
    else if text[0] != '%' then Prepend(text[0], Decode(text[1..]))
    else if |text| < 3 || HexValue(text[1]).None? || HexValue(text[2]).None? then None
    else Prepend((16 * HexValue(text[1]).value + HexValue(text[2]).value) as char, Decode(text[3..]))
  }

  function Prepend(c: Octet, rest: Option<Text>): Option<Text> {
    if rest.None? then None else Some([c] + rest.value)
  }

  lemma DecodeOctet(c: Octet, rest: Text)
    ensures Decode(EncodeOctet(c) + rest) == Prepend(c, Decode(rest))
  {
    var text := EncodeOctet(c) + rest;
    if Unreserved(c) {
      assert text[1..] == rest;
    } else {
      assert text[3..] == rest;
      assert c as int == 16 * (c as int / 16) + c as int % 16;
    }
  }

  lemma EncodeHead(text: Text, rest: Text)
    requires text != []
    ensures Encode(text) + rest == EncodeOctet(text[0]) + (Encode(text[1..]) + rest)
  {
  }

  function Before(text: Text, rest: Option<Text>): Option<Text> {
    if rest.None? then None else Some(text + rest.value)
  }

  lemma BeforeHead(text: Text, rest: Option<Text>)
    ensures Before([], rest) == rest
    ensures text != [] ==> Before(text, rest) == Prepend(text[0], Before(text[1..], rest))
  {
    if rest.Some? {
      assert [] + rest.value == rest.value;
      if text != [] { assert text + rest.value == [text[0]] + (text[1..] + rest.value); }
    }
  }

  lemma {:induction false} DecodeEncode(text: Text, rest: Text)
    ensures Decode(Encode(text) + rest) == Before(text, Decode(rest))
  {
    BeforeHead(text, Decode(rest));
    if text == [] {
      assert Encode(text) + rest == rest;
    } else {
      DecodeEncode(text[1..], rest);
      EncodeHead(text, rest);
      DecodeOctet(text[0], Encode(text[1..]) + rest);
    }
  }

  lemma DecodeEncoded(text: Text)
    ensures Decode(Encode(text)) == Some(text)
  {
    DecodeEncode(text, []);
    assert Encode(text) + [] == Encode(text) && text + [] == text;
  }

  /** Letters, digits and nine marks. */
  predicate Alone(c: Octet) {
    'a' <= c <= 'z' || 'A' <= c <= 'Z' || '0' <= c <= '9'
    || c in {'-', '_', '.', '!', '~', '*', '\'', '(', ')'}
  }

  /** Encoding leaves exactly these alone; what it rewrites becomes three characters
      that decode to it. */
  lemma EncodedAlone(c: Octet)
    ensures Encode([c]) == [c] <==> Alone(c)
    ensures !Alone(c) ==> |Encode([c])| == 3 && Encode([c])[0] == '%' && Decode(Encode([c])) == Some([c])
  {
    var none: Text := [];
    DecodeEncoded([c]);
    assert [c][1..] == none;
    assert EncodeOctet(c) + none == EncodeOctet(c);
    assert Encode([c]) == EncodeOctet(c);
  }

  /** What may appear in encoded text. */
  predicate Plain(c: Octet) {
    Unreserved(c) || c == '%'
  }

  lemma {:induction false} EncodedIsPlain(text: Text)
    ensures forall c | c in Encode(text) :: Plain(c)
  {
    if text != [] { EncodedIsPlain(text[1..]); }
  }

  // ------------------------------------------------------------------- segments

  function Split(text: Text): (segments: seq<Text>)
    ensures segments != [] && forall s | s in segments :: '/' !in s
  {
    if text == [] then [[]]
    else
      var rest := Split(text[1..]);
      if text[0] == '/' then [[]] + rest else [[text[0]] + rest[0]] + rest[1..]
  }

  function Join(segments: seq<Text>): Text {
    if segments == [] then []
    else if |segments| == 1 then segments[0]
    else segments[0] + ['/'] + Join(segments[1..])
  }

  lemma {:induction false} JoinSplit(text: Text)
    ensures Join(Split(text)) == text
  {
    if text != [] {
      JoinSplit(text[1..]);
      JoinHead(text[0], Split(text[1..]));
    }
  }

  /** A character in front of the first segment, or a slash in front of it. */
  lemma JoinHead(c: Octet, rest: seq<Text>)
    requires rest != []
    ensures Join([[c] + rest[0]] + rest[1..]) == [c] + Join(rest)
    ensures Join([[]] + rest) == ['/'] + Join(rest)
  {
    var longer, none: Text := [[c] + rest[0]] + rest[1..], [];
    assert longer[1..] == rest[1..] && ([none] + rest)[1..] == rest;
    var slash: Text := ['/'];
    assert none + slash == slash;
    if |rest| > 1 {
      Regroup([c], rest[0], slash + Join(rest[1..]));
      Regroup([c] + rest[0], slash, Join(rest[1..]));
      Regroup(rest[0], slash, Join(rest[1..]));
    }
  }

  /** One segment in front. */
  lemma {:induction false} SplitFront(segment: Text, text: Text)
    requires '/' !in segment
    ensures Split(segment + ['/'] + text) == [segment] + Split(text)
  {
    if segment == [] {
      assert (segment + ['/'] + text)[1..] == text;
    } else {
      assert (segment + ['/'] + text)[1..] == segment[1..] + ['/'] + text;
      SplitFront(segment[1..], text);
      var rest := Split(segment[1..] + ['/'] + text);
      assert rest[1..] == Split(text) && [segment[0]] + rest[0] == segment;
    }
  }

  lemma {:induction false} SplitOne(segment: Text)
    requires '/' !in segment
    ensures Split(segment) == [segment]
  {
    if segment != [] {
      SplitOne(segment[1..]);
      assert [segment[0]] + segment[1..] == segment;
    }
  }

  lemma {:induction false} SplitJoin(segments: seq<Text>)
    requires segments != [] && forall s | s in segments :: '/' !in s
    ensures Split(Join(segments)) == segments
  {
    if |segments| == 1 {
      SplitOne(segments[0]);
    } else {
      SplitJoin(segments[1..]);
      SplitFront(segments[0], Join(segments[1..]));
    }
  }

  function EncodeAll(segments: seq<Text>): (encoded: seq<Text>)
    ensures |encoded| == |segments| && forall i | 0 <= i < |segments| :: encoded[i] == Encode(segments[i])
  {
    seq(|segments|, i requires 0 <= i < |segments| => Encode(segments[i]))
  }

  lemma DecodeSlash(text: Text)
    ensures Decode(['/'] + text) == Prepend('/', Decode(text))
  {
    assert (['/'] + text)[1..] == text;
  }

  lemma DecodeNext(first: Text, rest: Text, decoded: Text)
    requires Decode(rest) == Some(decoded)
    ensures Decode(Encode(first) + ['/'] + rest) == Some(first + ['/'] + decoded)
  {
    var slash: Text := ['/'];
    DecodeSlash(rest);
    DecodeEncode(first, slash + rest);
    Regroup(Encode(first), slash, rest);
    Regroup(first, slash, decoded);
    assert Decode(slash + rest) == Some(slash + decoded);
  }

  lemma Regroup(a: Text, b: Text, c: Text)
    ensures a + b + c == a + (b + c)
  {
  }

  lemma EncodeAllHead(segments: seq<Text>)
    requires segments != []
    ensures EncodeAll(segments)[0] == Encode(segments[0]) && EncodeAll(segments)[1..] == EncodeAll(segments[1..])
  {
  }

  /** Decoding what is encoded segment by segment. */
  lemma {:induction false} DecodeJoined(segments: seq<Text>)
    ensures Decode(Join(EncodeAll(segments))) == Some(Join(segments))
  {
    if |segments| == 1 {
      DecodeEncoded(segments[0]);
    } else if segments != [] {
      EncodeAllHead(segments);
      DecodeJoined(segments[1..]);
      DecodeNext(segments[0], Join(EncodeAll(segments[1..])), Join(segments[1..]));
    }
  }

  // ----------------------------------------------------------------- dot segments

  /** A dot, also in its percent-encoded spellings. */
  predicate SingleDot(s: Text) {
    s == ['.'] || s == ['%', '2', 'e'] || s == ['%', '2', 'E']
  }

  predicate DoubleDot(s: Text) {
    (|s| > 1 && SingleDot(s[..1]) && SingleDot(s[1..])) || (|s| > 3 && SingleDot(s[..3]) && SingleDot(s[3..]))
  }

  predicate Dots(s: Text) {
    s == ['.'] || s == ['.', '.']
  }

  /** Segments are taken one by one; a final dot segment leaves an empty one. */
  function Normal(stack: seq<Text>, segments: seq<Text>): (path: seq<Text>)
    ensures |path| <= |stack| + |segments|
    ensures segments != [] ==> path != []
    decreases |segments|
  {
    if segments == [] then stack
    else
      var last := if |segments| == 1 then [[]] else [];
      var next :=
        if DoubleDot(segments[0]) then (if stack == [] then [] else stack[..|stack| - 1]) + last
        else if SingleDot(segments[0]) then stack + last
        else stack + [segments[0]];
      Normal(next, segments[1..])
  }

  predicate NoDots(segments: seq<Text>) {
    forall s | s in segments :: !Dots(s)
  }

  lemma DotDecodes(s: Text, rest: Text)
    requires SingleDot(s)
    ensures Decode(s + rest) == Prepend('.', Decode(rest))
  {
    assert (s + rest)[|s|..] == rest;
    if |s| == 3 { assert (s + rest)[1] == '2' && (s + rest)[2] == s[2]; }
  }

  lemma SingleDotDecodes(s: Text)
    requires SingleDot(s)
    ensures Decode(s) == Some(['.'])
  {
    DotDecodes(s, []);
    var none: Text, one: Text := [], ['.'];
    assert s + none == s && one + none == one;
  }

  lemma DoubleDotDecodes(s: Text)
    requires DoubleDot(s)
    ensures Decode(s) == Some(['.', '.'])
  {
    var n := if SingleDot(s[..1]) && SingleDot(s[1..]) then 1 else 3;
    assert s == s[..n] + s[n..];
    DotDecodes(s[..n], s[n..]);
    SingleDotDecodes(s[n..]);
    var one: Text, two: Text := ['.'], ['.', '.'];
    assert one + one == two;
  }

  /** An encoded segment is a dot segment exactly when the segment is one. */
  lemma EncodedDots(s: Text)
    ensures SingleDot(Encode(s)) <==> s == ['.']
    ensures DoubleDot(Encode(s)) <==> s == ['.', '.']
  {
    DecodeEncoded(s);
    if s == ['.'] {
      assert Encode(s) == ['.'] + Encode([]) == ['.'];
    } else if s == ['.', '.'] {
      assert s[1..] == ['.'] && s[1..][1..] == [];
      assert Encode(s) == ['.'] + Encode(['.']) == ['.', '.'];
    }
    if SingleDot(Encode(s)) { SingleDotDecodes(Encode(s)); }
    if DoubleDot(Encode(s)) { DoubleDotDecodes(Encode(s)); }
  }

  lemma {:induction false} DecodeLength(s: Text)
    requires Decode(s).Some?
    ensures |s| <= 3 * |Decode(s).value| && (Decode(s).value == [] ==> s == [])
    decreases |s|
  {
    if s != [] { DecodeLength(if s[0] != '%' then s[1..] else s[3..]); }
  }

  lemma HexDot(a: Octet, b: Octet)
    requires HexValue(a).Some? && HexValue(b).Some?
    requires (16 * HexValue(a).value + HexValue(b).value) as char == '.'
    ensures a == '2' && (b == 'e' || b == 'E')
  {
    assert HexValue(a).value == 2 && HexValue(b).value == 14;
  }

  /** The spelling of the first character of what a text decodes to. */
  lemma DotSpelled(s: Text)
    requires Decode(s).Some? && Decode(s).value != [] && Decode(s).value[0] == '.'
    ensures var n := if s[0] == '.' then 1 else 3;
      n <= |s| && SingleDot(s[..n]) && Decode(s[n..]) == Some(Decode(s).value[1..])
  {
    if s[0] == '%' {
      HexDot(s[1], s[2]);
      assert s[..3] == [s[0], s[1], s[2]];
    } else {
      assert s[..1] == [s[0]];
    }
  }

  /** A segment is a dot segment, in whichever spelling, exactly when it decodes to one. */
  lemma DotsDecode(s: Text)
    ensures SingleDot(s) <==> Decode(s) == Some(['.'])
    ensures DoubleDot(s) <==> Decode(s) == Some(['.', '.'])
  {
    if SingleDot(s) { SingleDotDecodes(s); }
    if DoubleDot(s) { DoubleDotDecodes(s); }
    if Decode(s) == Some(['.']) || Decode(s) == Some(['.', '.']) {
      DotSpelled(s);
      var n := if s[0] == '.' then 1 else 3;
      assert s == s[..n] + s[n..];
      if Decode(s) == Some(['.']) {
        DecodeLength(s[n..]);
        assert s[..n] == s;
      } else {
        DotSpelled(s[n..]);
        var m := if s[n] == '.' then 1 else 3;
        assert Decode(s[n..][m..]) == Some([]);
        DecodeLength(s[n..][m..]);
        assert s[n..][..m] == s[n..];
      }
    }
  }
}
