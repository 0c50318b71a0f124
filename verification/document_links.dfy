/** Where a citation in a document leads, and the citations of a chat answer
    rewritten so that they lead to the same place from a nested report. */
module DocumentLinks {
  import opened Common
  import opened LinkText

  /** What this model does not look into: which authorities are the workspace's own,
      and where a reference that carries a scheme leads. */
  datatype Net = Net(ours: Text -> bool, absolute: Text -> Option<Text>)

  predicate Blank(c: Octet) {
    c <= ' '
  }

  function TrimStart(text: Text): Text {
    if text != [] && Blank(text[0]) then TrimStart(text[1..]) else text
  }

  function TrimEnd(text: Text): Text {
    if text != [] && Blank(text[|text| - 1]) then TrimEnd(text[..|text| - 1]) else text
  }

  function DropTabs(text: Text): Text {
    if text == [] then []
    else if text[0] == '\t' || text[0] == '\n' || text[0] == '\r' then DropTabs(text[1..])
    else [text[0]] + DropTabs(text[1..])
  }

  function Clean(text: Text): Text {
    DropTabs(TrimEnd(TrimStart(text)))
  }

  predicate SchemeRest(text: Text) {
    text != [] &&
    (text[0] == ':' ||
     (&& (Letter(text[0]) || Digit(text[0]) || text[0] == '+' || text[0] == '.' || text[0] == '-')
      && SchemeRest(text[1..])))
  }

  predicate HasScheme(text: Text) {
    text != [] && Letter(text[0]) && SchemeRest(text[1..])
  }

  /** Up to the query or fragment; a backslash counts as a slash. */
  function PathPart(text: Text): Text {
    if text == [] || text[0] == '?' || text[0] == '#' then []
    else [if text[0] == '\\' then '/' else text[0]] + PathPart(text[1..])
  }

  function SkipSlashes(text: Text): Text {
    if text != [] && text[0] == '/' then SkipSlashes(text[1..]) else text
  }

  predicate TwoSlashes(text: Text) {
    |text| >= 2 && text[0] == '/' && text[1] == '/'
  }

  /** The path of a document as a base: no dot segments left. */
  function Base(report: Text): (path: seq<Text>)
    ensures path != []
  {
    Normal([], EncodeAll(Split(report)))
  }

  function AuthorityPath(path: Text, net: Net): Option<seq<Text>> {
    var rest := SkipSlashes(path);
    var parts := Split(rest);
    if rest == [] || !net.ours(parts[0]) then None
    else Some(Normal([], if |parts| == 1 then [[]] else parts[1..]))
  }

  function ResolvedPath(report: Text, path: Text, net: Net): Option<seq<Text>> {
    if TwoSlashes(path) then AuthorityPath(path, net)
    else if path == [] then Some(Base(report))
    else if path[0] == '/' then Some(Normal([], Split(path[1..])))
    else Some(Normal(Base(report)[..|Base(report)| - 1], Split(path)))
  }

  /** `documentLink`. */
  function DocumentLink(report: Text, href: Text, net: Net): Option<Text> {
    var text := Clean(href);
    if HasScheme(text) then net.absolute(text)
    else
      var path := ResolvedPath(report, PathPart(text), net);
      if path.None? then None else Decode(Join(path.value))
  }

  /** The citation that chat answers carry for a workspace path. */
  function Rewritten(path: Text): Text {
    ['/'] + Join(EncodeAll(Split(path)))
  }

  predicate Local(url: Text) {
    !(url != [] && url[0] == '#') && !HasScheme(url) && !TwoSlashes(url)
  }

  function Rewrite(url: Text, net: Net): Text {
    if !Local(url) || DocumentLink([], url, net).None? then url
    else Rewritten(DocumentLink([], url, net).value)
  }

  predicate LeadingSlash(path: Text) {
    path != [] && path[0] == '/'
  }

  // ---------------------------------------------------------- rewritten citations

  predicate Tame(text: Text) {
    forall c | c in text :: Plain(c) || c == '/'
  }

  lemma {:induction false} JoinTame(segments: seq<Text>)
    requires forall s | s in segments :: Tame(s)
    ensures Tame(Join(segments))
  {
    if |segments| > 1 {
      JoinTame(segments[1..]);
      assert segments[0] in segments;
    }
  }

  lemma {:induction false} TameTabs(text: Text)
    requires Tame(text)
    ensures DropTabs(text) == text
  {
    if text != [] {
      assert text[0] in text;
      TameTabs(text[1..]);
    }
  }

  lemma {:induction false} TamePath(text: Text)
    requires Tame(text)
    ensures PathPart(text) == text
  {
    if text != [] {
      assert text[0] in text;
      TamePath(text[1..]);
    }
  }

  lemma NotBlank(c: Octet)
    requires Plain(c) || c == '/'
    ensures !Blank(c)
  {
  }

  lemma TameClean(text: Text)
    requires Tame(text) && text != []
    ensures Clean(text) == text == PathPart(text)
  {
    assert text[0] in text && text[|text| - 1] in text;
    NotBlank(text[0]);
    NotBlank(text[|text| - 1]);
    assert TrimStart(text) == text && TrimEnd(text) == text;
    TameTabs(text);
    TamePath(text);
  }

  /** Nothing in a rewritten citation is stripped, cut off or read as a scheme. */
  lemma RewrittenIsTame(path: Text)
    ensures Tame(Rewritten(path))
    ensures Clean(Rewritten(path)) == Rewritten(path) == PathPart(Rewritten(path))
  {
    var encoded := EncodeAll(Split(path));
    forall s | s in encoded ensures Tame(s) {
      var i :| 0 <= i < |encoded| && encoded[i] == s;
      EncodedIsPlain(Split(path)[i]);
    }
    JoinTame(encoded);
    TameClean(Rewritten(path));
  }

  lemma EncodedHasNoSlash(segments: seq<Text>)
    ensures forall s | s in EncodeAll(segments) :: '/' !in s
  {
    forall s | s in EncodeAll(segments) ensures '/' !in s {
      var i :| 0 <= i < |segments| && EncodeAll(segments)[i] == s;
      EncodedIsPlain(segments[i]);
    }
  }

  /** Dot segments of plain text. */
  function Undotted(stack: seq<Text>, segments: seq<Text>): (path: seq<Text>)
    ensures |path| <= |stack| + |segments|
    ensures segments != [] ==> path != []
    decreases |segments|
  {
    if segments == [] then stack
    else
      var last := if |segments| == 1 then [[]] else [];
      var next :=
        if segments[0] == ['.', '.'] then (if stack == [] then [] else stack[..|stack| - 1]) + last
        else if segments[0] == ['.'] then stack + last
        else stack + [segments[0]];
      Undotted(next, segments[1..])
  }

  lemma EncodeAllLast(stack: seq<Text>, last: seq<Text>)
    ensures EncodeAll(stack + last) == EncodeAll(stack) + EncodeAll(last)
    ensures stack != [] ==> EncodeAll(stack[..|stack| - 1]) == EncodeAll(stack)[..|stack| - 1]
  {
  }

  /** Removing dots commutes with encoding. */
  lemma {:induction false} NormalEncoded(stack: seq<Text>, segments: seq<Text>)
    ensures Normal(EncodeAll(stack), EncodeAll(segments)) == EncodeAll(Undotted(stack, segments))
    decreases |segments|
  {
    if segments != [] {
      var first := segments[0];
      EncodedDots(first);
      assert EncodeAll(segments)[1..] == EncodeAll(segments[1..]);
      var last: seq<Text> := if |segments| == 1 then [[]] else [];
      assert EncodeAll(last) == last;
      var popped := if stack == [] then [] else stack[..|stack| - 1];
      EncodeAllLast(stack, []);
      EncodeAllLast(popped, last);
      EncodeAllLast(stack, last);
      EncodeAllLast(stack, [first]);
      assert EncodeAll([first]) == [Encode(first)];
      if first == ['.', '.'] { NormalEncoded(popped + last, segments[1..]); }
      else if first == ['.'] { NormalEncoded(stack + last, segments[1..]); }
      else { NormalEncoded(stack + [first], segments[1..]); }
    }
  }

  lemma {:induction false} UndottedWithoutDots(stack: seq<Text>, segments: seq<Text>)
    requires NoDots(segments)
    ensures Undotted(stack, segments) == stack + segments
    decreases |segments|
  {
    if segments != [] {
      assert segments[0] in segments;
      UndottedWithoutDots(stack + [segments[0]], segments[1..]);
      assert stack + [segments[0]] + segments[1..] == stack + segments;
    }
  }

  predicate Segments(segments: seq<Text>) {
    forall s | s in segments :: '/' !in s
  }

  lemma {:induction false} UndottedHasNoDots(stack: seq<Text>, segments: seq<Text>)
    requires NoDots(stack) && Segments(stack) && Segments(segments)
    ensures NoDots(Undotted(stack, segments)) && Segments(Undotted(stack, segments))
    decreases |segments|
  {
    if segments != [] {
      var last: seq<Text> := if |segments| == 1 then [[]] else [];
      assert segments[0] in segments;
      if segments[0] == ['.', '.'] {
        UndottedHasNoDots((if stack == [] then [] else stack[..|stack| - 1]) + last, segments[1..]);
      } else if segments[0] == ['.'] {
        UndottedHasNoDots(stack + last, segments[1..]);
      } else {
        UndottedHasNoDots(stack + [segments[0]], segments[1..]);
      }
    }
  }

  /** What encoded segments resolve to. */
  lemma DecodedPath(segments: seq<Text>)
    requires segments != [] && Segments(segments)
    ensures var path := Undotted([], segments);
      && Decode(Join(Normal([], EncodeAll(segments)))) == Some(Join(path))
      && Split(Join(path)) == path && NoDots(path) && |path| <= |segments|
  {
    NormalEncoded([], segments);
    assert EncodeAll([]) == [];
    DecodeJoined(Undotted([], segments));
    UndottedHasNoDots([], segments);
    SplitJoin(Undotted([], segments));
  }

  lemma LeadingSlashSegments(path: Text)
    ensures LeadingSlash(path) <==> TwoSlashes(Rewritten(path))
    ensures LeadingSlash(path) ==> |Split(path)| > 1
  {
    var segments := Split(path);
    var encoded := EncodeAll(segments);
    EncodedHasNoSlash(segments);
    assert encoded[0] in encoded;
    if segments[0] != [] { assert encoded[0] != [] by { DecodeEncoded(segments[0]); } }
    if encoded[0] != [] { assert Join(encoded)[0] == encoded[0][0] && encoded[0][0] in encoded[0]; }
    if path != [] && path[0] != '/' { assert segments[0] != []; }
    if path == [] { assert Join(encoded) == []; }
  }

  function Decoded(path: Option<seq<Text>>): Option<Text> {
    if path.None? then None else Decode(Join(path.value))
  }

  lemma RewrittenLink(report: Text, path: Text, net: Net)
    ensures DocumentLink(report, Rewritten(path), net) == Decoded(ResolvedPath(report, Rewritten(path), net))
  {
    RewrittenIsTame(path);
    assert Rewritten(path)[0] == '/';
  }

  lemma RewrittenAtRoot(report: Text, path: Text, net: Net)
    requires !LeadingSlash(path)
    ensures ResolvedPath(report, Rewritten(path), net) == Some(Normal([], EncodeAll(Split(path))))
  {
    LeadingSlashSegments(path);
    EncodedHasNoSlash(Split(path));
    SplitJoin(EncodeAll(Split(path)));
    assert Rewritten(path)[1..] == Join(EncodeAll(Split(path)));
  }

  /** A path without a leading slash. */
  lemma ResolvesAtRoot(report: Text, path: Text, net: Net)
    requires !LeadingSlash(path)
    ensures DocumentLink(report, Rewritten(path), net) == Some(Join(Undotted([], Split(path))))
  {
    RewrittenLink(report, path, net);
    RewrittenAtRoot(report, path, net);
    DecodedPath(Split(path));
  }

  lemma UndottedIsSame(segments: seq<Text>)
    requires segments != [] && Segments(segments)
    ensures Join(Undotted([], segments)) == Join(segments) <==> NoDots(segments)
  {
    SplitJoin(segments);
    DecodedPath(segments);
    if NoDots(segments) {
      UndottedWithoutDots([], segments);
      var none: seq<Text> := [];
      assert none + segments == segments;
    }
  }

  function DropEmpty(segments: seq<Text>): (rest: seq<Text>)
    ensures |rest| <= |segments|
    ensures rest != [] ==> rest[0] != []
    ensures forall s | s in rest :: s in segments
  {
    if segments != [] && segments[0] == [] then DropEmpty(segments[1..]) else segments
  }

  lemma {:induction false} SkipJoined(segments: seq<Text>)
    requires Segments(segments)
    ensures SkipSlashes(Join(segments)) == Join(DropEmpty(segments))
  {
    if segments != [] {
      if segments[0] != [] {
        assert segments[0] in segments && segments[0][0] in segments[0];
        assert Join(segments)[0] == segments[0][0];
      } else if |segments| > 1 {
        SkipJoined(segments[1..]);
        assert Join(segments)[1..] == Join(segments[1..]);
      }
    }
  }

  lemma {:induction false} DropEmptyEncoded(segments: seq<Text>)
    ensures DropEmpty(EncodeAll(segments)) == EncodeAll(DropEmpty(segments))
  {
    if segments != [] {
      DecodeEncoded(segments[0]);
      assert EncodeAll(segments)[1..] == EncodeAll(segments[1..]);
      if segments[0] == [] { DropEmptyEncoded(segments[1..]); }
    }
  }

  /** The authority a rewritten path with a leading slash names, if any. */
  lemma RewrittenAuthority(path: Text, net: Net)
    requires LeadingSlash(path)
    ensures var named := DropEmpty(Split(path));
      AuthorityPath(Rewritten(path), net) ==
        if named == [] || !net.ours(Encode(named[0])) then None
        else Some(Normal([], EncodeAll(if |named| == 1 then [[]] else named[1..])))
  {
    var segments := Split(path);
    var encoded := EncodeAll(segments);
    EncodedHasNoSlash(segments);
    SkipJoined(encoded);
    assert Rewritten(path)[1..] == Join(encoded);
    DropEmptyEncoded(segments);
    var named := DropEmpty(segments);
    if named != [] {
      EncodedHasNoSlash(named);
      SplitJoin(EncodeAll(named));
      DecodeEncoded(named[0]);
      NamedStart(named);
      EncodedTail(named);
    }
  }

  lemma NamedStart(named: seq<Text>)
    requires named != [] && named[0] != []
    ensures Join(EncodeAll(named)) != []
  {
    DecodeEncoded(named[0]);
  }

  lemma EncodedTail(named: seq<Text>)
    requires named != []
    ensures EncodeAll(if |named| == 1 then [[]] else named[1..]) ==
            if |named| == 1 then [[]] else EncodeAll(named)[1..]
  {
  }

  /** A leading slash makes the first segment with a name an authority. */
  lemma ResolvesElsewhere(report: Text, path: Text, net: Net)
    requires LeadingSlash(path)
    ensures DocumentLink(report, Rewritten(path), net) != Some(path)
  {
    RewrittenLink(report, path, net);
    LeadingSlashSegments(path);
    RewrittenAuthority(path, net);
    var named := DropEmpty(Split(path));
    if named != [] {
      var tail: seq<Text> := if |named| == 1 then [[]] else named[1..];
      DecodedPath(tail);
    }
  }

  /** Resolving a rewritten citation gives the path back, from any report, exactly
      when the path has no leading slash and no dot segments. */
  lemma RewrittenResolvesBack(report: Text, path: Text, net: Net)
    ensures DocumentLink(report, Rewritten(path), net) == Some(path)
       <==> !LeadingSlash(path) && NoDots(Split(path))
  {
    if LeadingSlash(path) {
      ResolvesElsewhere(report, path, net);
    } else {
      ResolvesAtRoot(report, path, net);
      JoinSplit(path);
      UndottedIsSame(Split(path));
    }
  }

  /** Meaning is preserved: a citation that is rewritten leads from any report where
      the original led from the workspace root, under the same condition. */
  lemma RewritingPreservesMeaning(report: Text, url: Text, net: Net)
    requires Local(url) && DocumentLink([], url, net).Some?
    ensures var path := DocumentLink([], url, net).value;
      DocumentLink(report, Rewrite(url, net), net) == DocumentLink([], url, net)
      <==> !LeadingSlash(path) && NoDots(Split(path))
  {
    RewrittenResolvesBack(report, DocumentLink([], url, net).value, net);
  }

  /** Rewriting twice equals rewriting once exactly when there is nothing to rewrite,
      or the path has a leading slash (then the second pass leaves it alone) or no
      dot segments. */
  lemma RewritingTwice(url: Text, net: Net)
    ensures Rewrite(Rewrite(url, net), net) == Rewrite(url, net) <==>
      (Local(url) && DocumentLink([], url, net).Some? ==>
        var path := DocumentLink([], url, net).value; LeadingSlash(path) || NoDots(Split(path)))
  {
    if Local(url) && DocumentLink([], url, net).Some? {
      var path := DocumentLink([], url, net).value;
      var once := Rewritten(path);
      LeadingSlashSegments(path);
      if !LeadingSlash(path) {
        assert Local(once);
        ResolvesAtRoot([], path, net);
        RewrittenResolvesBack([], path, net);
        var again := DocumentLink([], once, net).value;
        if Rewritten(again) == once { RewrittenInjective(again, path); }
      }
    }
  }

  lemma RewrittenInjective(a: Text, b: Text)
    requires Rewritten(a) == Rewritten(b)
    ensures a == b
  {
    assert Rewritten(a)[1..] == Join(EncodeAll(Split(a)));
    assert Rewritten(b)[1..] == Join(EncodeAll(Split(b)));
    DecodeJoined(Split(a));
    DecodeJoined(Split(b));
    JoinSplit(a);
    JoinSplit(b);
  }

  /** A percent-encoded slash hides a dot segment from the first resolution, so only
      the second removes it. */
  lemma HiddenDotsMove(net: Net)
    ensures var url: Text := ['x', '%', '2', 'F', '.', '.'];
      && DocumentLink([], url, net) == Some(['x', '/', '.', '.'])
      && DocumentLink([], Rewritten(['x', '/', '.', '.']), net) != Some(['x', '/', '.', '.'])
  {
    HiddenDotsPass(net);
    var path: Text := ['x', '/', '.', '.'];
    DotsAtTheEnd(['x']);
    RewrittenResolvesBack([], path, net);
  }

  lemma DotsAtTheEnd(segment: Text)
    requires '/' !in segment
    ensures !NoDots(Split(segment + ['/', '.', '.']))
  {
    var dots: Text, slash: Text := ['.', '.'], ['/'];
    SplitFront(segment, dots);
    SplitOne(dots);
    assert segment + ['/', '.', '.'] == segment + slash + dots;
    assert Split(segment + ['/', '.', '.'])[1] == dots && Dots(dots);
  }

  /** A single plain segment leads from the root to what it decodes to. */
  lemma SegmentLink(segment: Text, net: Net)
    requires segment != [] && '/' !in segment && !SingleDot(segment) && !DoubleDot(segment)
    requires Tame(segment) && !HasScheme(segment)
    ensures DocumentLink([], segment, net) == Decode(segment)
  {
    TameClean(segment);
    RootOf(segment, net);
    assert Join([segment]) == segment;
  }

  lemma HiddenDotsPass(net: Net)
    ensures DocumentLink([], ['x', '%', '2', 'F', '.', '.'], net) == Some(['x', '/', '.', '.'])
  {
    var url: Text := ['x', '%', '2', 'F', '.', '.'];
    assert url[1] == '%';
    SegmentLink(url, net);
    HiddenDots();
  }

  lemma HiddenDots()
    ensures Decode(['x', '%', '2', 'F', '.', '.']) == Some(['x', '/', '.', '.'])
  {
    var none: Text, slash: Text, dots: Text := [], ['/'], ['.', '.'];
    DecodeEncode(dots, none);
    EncodedDots(dots);
    assert Encode(['.', '.']) == ['.', '.'] by {
      assert dots[1..] == ['.'] && dots[1..][1..] == none;
      assert Encode(['.']) == ['.'] + Encode(none);
    }
    DecodeEncoded(dots);
    var tail: Text := ['%', '2', 'F', '.', '.'];
    assert tail[3..] == dots;
    assert Decode(tail) == Some(['/'] + dots);
    assert (['x'] + tail)[1..] == tail;
    assert ['x'] + (['/'] + dots) == ['x', '/', '.', '.'];
  }

  lemma RootBase()
    ensures Base([]) == [[]]
  {
    var none: seq<Text>, root: seq<Text> := [], [[]];
    assert EncodeAll(root) == root;
    assert none + root == root;
  }

  lemma RootOf(segment: Text, net: Net)
    requires segment != [] && '/' !in segment && !SingleDot(segment) && !DoubleDot(segment)
    ensures ResolvedPath([], segment, net) == Some([segment])
  {
    RootBase();
    SplitOne(segment);
    assert segment[0] in segment;
    var none: seq<Text> := [];
    assert Base([])[..0] == none && none + [segment] == [segment];
    assert Normal(none, [segment]) == Normal([segment], none) == [segment];
  }
}
