/** Where a relative reference in a report leads: from the report's own folder, a
    folder up for each `..` in front, and never above the workspace root. */
module RelativeLinks {
  import opened Common
  import opened LinkText
  import opened DocumentLinks

  const UP: Text := ['.', '.']

  const BACKSLASH: Octet := '\\'

  /** The segments of a reference that goes up so many folders first. */
  function Climbing(up: nat, path: seq<Text>): (segments: seq<Text>)
    requires path != []
    ensures |segments| == up + |path|
    ensures forall s | s in segments :: s == UP || s in path
  {
    if up == 0 then path else [UP] + Climbing(up - 1, path)
  }

  /** What is left of a folder that many levels up. */
  function Above(folder: seq<Text>, up: nat): seq<Text> {
    if up < |folder| then folder[..|folder| - up] else []
  }

  lemma {:induction false} ClimbingUndotted(folder: seq<Text>, up: nat, path: seq<Text>)
    requires path != [] && NoDots(path)
    ensures Undotted(folder, Climbing(up, path)) == Above(folder, up) + path
    decreases up
  {
    if up == 0 {
      UndottedWithoutDots(folder, path);
      assert folder[..|folder|] == folder;
    } else {
      var popped := if folder == [] then [] else folder[..|folder| - 1];
      var none: seq<Text> := [];
      assert popped + none == popped;
      assert Climbing(up, path)[1..] == Climbing(up - 1, path);
      ClimbingUndotted(popped, up - 1, path);
      assert Above(popped, up - 1) == Above(folder, up);
    }
  }

  /** Encoded text names no scheme, as a colon is encoded. */
  lemma {:induction false} TameHasNoScheme(text: Text)
    requires Tame(text)
    ensures !SchemeRest(text)
  {
    if text != [] {
      assert text[0] in text;
      TameHasNoScheme(text[1..]);
    }
  }

  lemma EncodedIsTame(segments: seq<Text>)
    ensures Tame(Join(EncodeAll(segments)))
  {
    forall s | s in EncodeAll(segments) ensures Tame(s) {
      var i :| 0 <= i < |segments| && EncodeAll(segments)[i] == s;
      EncodedIsPlain(segments[i]);
    }
    JoinTame(EncodeAll(segments));
  }

  lemma EncodedStart(segments: seq<Text>)
    requires segments != [] && segments[0] != []
    ensures Join(EncodeAll(segments)) != [] && Join(EncodeAll(segments))[0] != '/'
  {
    EncodedHasNoSlash(segments);
    DecodeEncoded(segments[0]);
    var first := EncodeAll(segments)[0];
    assert first in EncodeAll(segments) && first != [] && first[0] in first;
    assert Join(EncodeAll(segments))[0] == first[0];
  }

  /** The folder of a report, as the base of its references. */
  lemma FolderOfBase(folder: seq<Text>, name: Text)
    requires NoDots(folder + [name]) && Segments(folder + [name])
    ensures var base := Base(Join(folder + [name])); base[..|base| - 1] == EncodeAll(folder)
  {
    var none: seq<Text>, report := [], folder + [name];
    SplitJoin(report);
    NormalEncoded(none, report);
    UndottedWithoutDots(none, report);
    assert none + report == report && EncodeAll(none) == none;
    assert EncodeAll(report)[..|folder|] == EncodeAll(folder);
  }

  /** Any encoded relative reference, taken from the folder of the report. */
  lemma ReferenceLeads(folder: seq<Text>, name: Text, segments: seq<Text>, net: Net)
    requires NoDots(folder + [name]) && Segments(folder + [name])
    requires segments != [] && segments[0] != [] && Segments(segments)
    ensures DocumentLink(Join(folder + [name]), Join(EncodeAll(segments)), net) ==
            Some(Join(Undotted(folder, segments)))
  {
    var href := Join(EncodeAll(segments));
    EncodedStart(segments);
    EncodedIsTame(segments);
    TameClean(href);
    assert Tame(href[1..]);
    TameHasNoScheme(href[1..]);
    EncodedHasNoSlash(segments);
    SplitJoin(EncodeAll(segments));
    FolderOfBase(folder, name);
    NormalEncoded(folder, segments);
    DecodeJoined(Undotted(folder, segments));
  }

  /** A path without dot segments, with any number of `..` before it, leads to that
      path in the folder that many levels above the report's, or in the root. */
  lemma RelativeReferencesClimb(folder: seq<Text>, name: Text, up: nat, path: seq<Text>, net: Net)
    requires NoDots(folder + [name]) && Segments(folder + [name])
    requires path != [] && path[0] != [] && NoDots(path) && Segments(path)
    ensures DocumentLink(Join(folder + [name]), Join(EncodeAll(Climbing(up, path))), net) ==
            Some(Join(Above(folder, up) + path))
  {
    assert UP != [] && '/' !in UP;
    assert path[0] in path;
    ReferenceLeads(folder, name, Climbing(up, path), net);
    ClimbingUndotted(folder, up, path);
  }

  // ------------------------------------------------------------- the same as text

  /** `encodeURIComponent` on each segment of a path. */
  function Encoded(path: Text): Text {
    Join(EncodeAll(Split(path)))
  }

  lemma {:induction false} JoinAppend(a: seq<Text>, b: seq<Text>)
    requires a != [] && b != []
    ensures Join(a + b) == Join(a) + ['/'] + Join(b)
  {
    if |a| == 1 {
      assert (a + b)[1..] == b;
    } else {
      assert (a + b)[1..] == a[1..] + b;
      JoinAppend(a[1..], b);
    }
  }

  lemma SplitAtSlash(folder: Text, name: Text)
    ensures Split(folder + ['/'] + name) == Split(folder) + Split(name)
  {
    JoinSplit(folder);
    JoinSplit(name);
    JoinAppend(Split(folder), Split(name));
    SplitJoin(Split(folder) + Split(name));
  }

  lemma PlainStart(path: Text)
    requires path != [] && path[0] != '/'
    ensures Split(path)[0] != []
  {
  }

  /** A plain path leads into the report's folder. */
  lemma SiblingLinks(folder: Text, name: Text, path: Text, net: Net)
    requires '/' !in name && NoDots(Split(folder + ['/'] + name))
    requires path != [] && path[0] != '/' && NoDots(Split(path))
    ensures DocumentLink(folder + ['/'] + name, Encoded(path), net) == Some(folder + ['/'] + path)
  {
    var folders := Split(folder);
    SplitAtSlash(folder, name);
    SplitOne(name);
    JoinSplit(folder + ['/'] + name);
    PlainStart(path);
    RelativeReferencesClimb(folders, name, 0, Split(path), net);
    assert Above(folders, 0) == folders;
    SplitAtSlash(folder, path);
    JoinSplit(folder + ['/'] + path);
  }

  /** One level up, from a folder in another and from a folder in the root, and from
      the root itself, where it stays. */
  lemma ParentLinks(parent: Text, folder: Text, name: Text, path: Text, net: Net)
    requires '/' !in folder && '/' !in name && NoDots(Split(parent)) && !Dots(folder) && !Dots(name)
    requires path != [] && path[0] != '/' && NoDots(Split(path))
    ensures var href := UP + ['/'] + Encoded(path);
      && DocumentLink(parent + ['/'] + folder + ['/'] + name, href, net) == Some(parent + ['/'] + path)
      && DocumentLink(folder + ['/'] + name, href, net) == Some(path)
      && DocumentLink(name, href, net) == Some(path)
  {
    var segments := Split(path);
    PlainStart(path);
    JoinSplit(path);
    ClimbOnce(segments);
    FromAFolder(parent, folder, name, path, net);
    FromTheRoot(folder, name, segments, net);
  }

  lemma NestedReport(parent: Text, folder: Text, name: Text)
    requires '/' !in folder && '/' !in name
    ensures Join(Split(parent) + [folder] + [name]) == parent + ['/'] + folder + ['/'] + name
    ensures Segments(Split(parent) + [folder] + [name])
  {
    SplitOne(folder);
    SplitOne(name);
    SplitAtSlash(parent, folder);
    SplitAtSlash(parent + ['/'] + folder, name);
    JoinSplit(parent + ['/'] + folder + ['/'] + name);
  }

  lemma FromAFolder(parent: Text, folder: Text, name: Text, path: Text, net: Net)
    requires '/' !in folder && '/' !in name && NoDots(Split(parent)) && !Dots(folder) && !Dots(name)
    requires path != [] && path[0] != '/' && NoDots(Split(path))
    ensures DocumentLink(parent + ['/'] + folder + ['/'] + name, Join(EncodeAll(Climbing(1, Split(path)))), net) ==
            Some(parent + ['/'] + path)
  {
    var nested := Split(parent) + [folder];
    NestedReport(parent, folder, name);
    PlainStart(path);
    RelativeReferencesClimb(nested, name, 1, Split(path), net);
    assert Above(nested, 1) == Split(parent);
    SplitAtSlash(parent, path);
    JoinSplit(parent + ['/'] + path);
  }

  lemma ClimbOnce(segments: seq<Text>)
    requires segments != []
    ensures Join(EncodeAll(Climbing(1, segments))) == UP + ['/'] + Join(EncodeAll(segments))
  {
    var all := Climbing(1, segments);
    assert all == [UP] + segments && all[1..] == segments;
    EncodeAllHead(all);
    var dot: Text, none: Text := ['.'], [];
    assert UP[1..] == dot && dot[1..] == none;
    assert Encode(UP) == ['.'] + (['.'] + Encode(none)) == UP;
  }

  lemma FromTheRoot(folder: Text, name: Text, segments: seq<Text>, net: Net)
    requires '/' !in folder && '/' !in name && !Dots(folder) && !Dots(name)
    requires segments != [] && segments[0] != [] && NoDots(segments) && Segments(segments)
    ensures var href := Join(EncodeAll(Climbing(1, segments)));
      && DocumentLink(folder + ['/'] + name, href, net) == Some(Join(segments))
      && DocumentLink(name, href, net) == Some(Join(segments))
  {
    var none: seq<Text> := [];
    RelativeReferencesClimb([folder], name, 1, segments, net);
    assert Above([folder], 1) + segments == segments;
    assert Join([folder] + [name]) == folder + ['/'] + name by { assert ([folder] + [name])[1..] == [name]; }
    RelativeReferencesClimb(none, name, 1, segments, net);
    assert Above(none, 1) + segments == segments;
    assert none + [name] == [name];
  }

  // ----------------------------------------------------- blanks, tabs, backslashes

  predicate AllBlank(text: Text) {
    forall c | c in text :: Blank(c)
  }

  lemma {:induction false} TrimStartConcat(a: Text, b: Text)
    ensures TrimStart(a + b) == if AllBlank(a) then TrimStart(b) else TrimStart(a) + b
  {
    if a == [] {
      assert a + b == b;
    } else {
      assert a == [a[0]] + a[1..] && (a + b)[1..] == a[1..] + b;
      if Blank(a[0]) {
        TrimStartConcat(a[1..], b);
        assert AllBlank(a) <==> AllBlank(a[1..]);
      } else {
        assert a[0] in a;
      }
    }
  }

  lemma {:induction false} TrimEndConcat(a: Text, b: Text)
    ensures TrimEnd(a + b) == if AllBlank(b) then TrimEnd(a) else a + TrimEnd(b)
    decreases |b|
  {
    if b == [] {
      assert a + b == a;
    } else {
      var init, last := b[..|b| - 1], b[|b| - 1];
      assert b == init + [last] && (a + b)[..|a + b| - 1] == a + init;
      if Blank(last) {
        TrimEndConcat(a, init);
        assert AllBlank(b) <==> AllBlank(init);
      } else {
        assert last in b;
      }
    }
  }

  lemma {:induction false} DropTabsConcat(a: Text, b: Text)
    ensures DropTabs(a + b) == DropTabs(a) + DropTabs(b)
  {
    if a == [] {
      assert a + b == b;
    } else {
      assert (a + b)[1..] == a[1..] + b;
      DropTabsConcat(a[1..], b);
    }
  }

  lemma TrimBlank(text: Text)
    requires AllBlank(text)
    ensures TrimStart(text) == [] && TrimEnd(text) == []
  {
    var none: Text := [];
    TrimStartConcat(text, none);
    TrimEndConcat(none, text);
    assert text + none == text && none + text == text;
  }

  /** Blanks around a reference do not matter. */
  lemma BlanksDoNotMatter(report: Text, before: Text, href: Text, after: Text, net: Net)
    requires AllBlank(before) && AllBlank(after)
    ensures DocumentLink(report, before + (href + after), net) == DocumentLink(report, href, net)
  {
    TrimStartConcat(before, href + after);
    TrimStartConcat(href, after);
    TrimEndConcat(TrimStart(href), after);
    if AllBlank(href) {
      TrimBlank(href);
      TrimBlank(after);
    }
  }

  predicate IsTab(c: Octet) {
    c == '\t' || c == '\n' || c == '\r'
  }

  lemma CleanTab(a: Text, tab: Octet, b: Text)
    requires IsTab(tab)
    ensures Clean(a + ([tab] + b)) == Clean(a + b)
  {
    var none: Text := [];
    TrimStartConcat(a, [tab] + b);
    TrimStartConcat(a, b);
    TrimStartConcat([tab], b);
    if !AllBlank(a) {
      var start := TrimStart(a);
      TrimEndConcat(start, [tab] + b);
      TrimEndConcat(start, b);
      TrimEndConcat([tab], b);
      assert AllBlank([tab] + b) <==> AllBlank(b) by { assert forall c :: c in [tab] + b <==> c == tab || c in b; }
      if !AllBlank(b) {
        DropTabsConcat(start, [tab] + TrimEnd(b));
        DropTabsConcat(start, TrimEnd(b));
        assert ([tab] + TrimEnd(b))[1..] == TrimEnd(b);
      }
    }
  }

  /** Nor do tabs and line breaks anywhere in it. */
  lemma TabsDoNotMatter(report: Text, a: Text, tab: Octet, b: Text, net: Net)
    requires IsTab(tab)
    ensures DocumentLink(report, a + ([tab] + b), net) == DocumentLink(report, a + b, net)
  {
    CleanTab(a, tab, b);
  }

  // ------------------------------------------------------- queries and fragments

  /** A plain beginning and a mark behind it survive the cleaning. */
  lemma CleanKeeps(href: Text, mark: Octet, more: Text)
    requires Tame(href) && !Blank(mark)
    ensures Clean(href + ([mark] + more)) == href + ([mark] + DropTabs(TrimEnd(more)))
  {
    var all := href + ([mark] + more);
    if href != [] {
      assert href[0] in href;
      NotBlank(href[0]);
    }
    assert TrimStart(all) == all;
    assert mark in [mark] + more;
    TrimEndConcat(href, [mark] + more);
    TrimEndConcat([mark], more);
    if AllBlank(more) { TrimBlank(more); }
    assert TrimEnd([mark]) == [mark];
    var none: Text := [];
    assert [mark] + none == [mark];
    assert TrimEnd(all) == href + ([mark] + TrimEnd(more));
    DropTabsConcat(href, [mark] + TrimEnd(more));
    TameTabs(href);
    assert ([mark] + TrimEnd(more))[1..] == TrimEnd(more);
  }

  predicate EndsPath(mark: Octet) {
    mark == '?' || mark == '#'
  }

  lemma {:induction false} PathPartStops(text: Text, mark: Octet, rest: Text)
    requires Tame(text)
    ensures EndsPath(mark) ==> PathPart(text + ([mark] + rest)) == text
    ensures mark == BACKSLASH || mark == '/' ==> PathPart(text + ([mark] + rest)) == text + (['/'] + PathPart(rest))
    ensures EndsPath(mark) || mark == BACKSLASH || mark == '/' ==> !SchemeRest(text + ([mark] + rest))
  {
    if text == [] {
      assert text + ([mark] + rest) == [mark] + rest && ([mark] + rest)[1..] == rest;
    } else {
      assert text[0] in text && (text + ([mark] + rest))[1..] == text[1..] + ([mark] + rest);
      PathPartStops(text[1..], mark, rest);
      assert [text[0]] + text[1..] == text;
    }
  }

  lemma NoScheme(href: Text, mark: Octet, rest: Text)
    requires Tame(href) && (EndsPath(mark) || mark == BACKSLASH || mark == '/')
    ensures !HasScheme(href + ([mark] + rest))
  {
    if href == [] {
      assert href + ([mark] + rest) == [mark] + rest;
    } else {
      assert (href + ([mark] + rest))[1..] == href[1..] + ([mark] + rest);
      PathPartStops(href[1..], mark, rest);
    }
  }

  /** Whatever follows a question mark or a number sign does not change where an
      encoded reference leads. */
  lemma QueriesAndFragmentsDoNotMatter(report: Text, href: Text, mark: Octet, more: Text, net: Net)
    requires Tame(href) && EndsPath(mark)
    ensures DocumentLink(report, href + ([mark] + more), net) == DocumentLink(report, href, net)
  {
    var rest := DropTabs(TrimEnd(more));
    CleanKeeps(href, mark, more);
    PathPartStops(href, mark, rest);
    NoScheme(href, mark, rest);
    if href != [] {
      TameClean(href);
      TameHasNoScheme(href[1..]);
    }
  }

  /** A backslash behind a plain beginning is a slash. */
  lemma BackslashesAreSlashes(report: Text, href: Text, more: Text, net: Net)
    requires Tame(href)
    ensures DocumentLink(report, href + ([BACKSLASH] + more), net) == DocumentLink(report, href + (['/'] + more), net)
  {
    var rest := DropTabs(TrimEnd(more));
    CleanKeeps(href, BACKSLASH, more);
    CleanKeeps(href, '/', more);
    PathPartStops(href, BACKSLASH, rest);
    PathPartStops(href, '/', rest);
    NoScheme(href, BACKSLASH, rest);
    NoScheme(href, '/', rest);
  }

  /** A fragment alone leads to the report itself. */
  lemma FragmentsLeadToTheReport(report: Text, more: Text, net: Net)
    requires NoDots(Split(report))
    ensures DocumentLink(report, ['#'] + more, net) == Some(report)
  {
    var none: Text := [];
    QueriesAndFragmentsDoNotMatter(report, none, '#', more, net);
    assert none + (['#'] + more) == ['#'] + more;
    var nothing: seq<Text> := [];
    NormalEncoded(nothing, Split(report));
    UndottedWithoutDots(nothing, Split(report));
    assert nothing + Split(report) == Split(report) && EncodeAll(nothing) == nothing;
    DecodeJoined(Split(report));
    JoinSplit(report);
  }

  // ------------------------------------------------------ schemes and authorities

  predicate SchemeText(scheme: Text) {
    forall c | c in scheme :: Letter(c) || Digit(c) || c == '.' || c == '-'
  }

  lemma {:induction false} SchemeEnds(scheme: Text, rest: Text)
    requires SchemeText(scheme)
    ensures SchemeRest(scheme + ([':'] + rest))
  {
    if scheme == [] {
      assert scheme + ([':'] + rest) == [':'] + rest;
    } else {
      assert scheme[0] in scheme && (scheme + ([':'] + rest))[1..] == scheme[1..] + ([':'] + rest);
      SchemeEnds(scheme[1..], rest);
    }
  }

  /** A reference with a scheme does not depend on the report at all. */
  lemma SchemesLeadElsewhere(report: Text, scheme: Text, more: Text, net: Net)
    requires scheme != [] && Letter(scheme[0]) && SchemeText(scheme)
    ensures DocumentLink(report, scheme + ([':'] + more), net) ==
            net.absolute(scheme + ([':'] + DropTabs(TrimEnd(more))))
  {
    var rest := DropTabs(TrimEnd(more));
    CleanKeeps(scheme, ':', more);
    SchemeEnds(scheme[1..], rest);
    assert (scheme + ([':'] + rest))[1..] == scheme[1..] + ([':'] + rest);
  }

  /** Two slashes name an authority. A path on one of the workspace's own is taken from
      the root, whatever the report; any other leads nowhere. */
  lemma AuthoritiesAreTold(report: Text, host: Text, path: Text, net: Net)
    requires host != [] && '/' !in host && Tame(host) && NoDots(Split(path))
    ensures DocumentLink(report, ['/', '/'] + (host + ['/'] + Encoded(path)), net) ==
            if net.ours(host) then Some(path) else None
    ensures DocumentLink(report, ['/', '/'] + host, net) == if net.ours(host) then Some([]) else None
    ensures DocumentLink(report, ['/', '/'], net) == None
  {
    var segments := Split(path);
    AuthorityReads(report, host + ['/'] + Encoded(path), net) by {
      EncodedIsTame(segments);
    }
    AuthorityReads(report, host, net);
    SplitOne(host);
    SplitFront(host, Encoded(path));
    EncodedHasNoSlash(segments);
    SplitJoin(EncodeAll(segments));
    OwnPath(segments);
    JoinSplit(path);
    NoAuthority(report, net);
  }

  lemma AuthorityReads(report: Text, rest: Text, net: Net)
    requires Tame(rest) && rest != [] && rest[0] != '/'
    ensures DocumentLink(report, ['/', '/'] + rest, net) ==
      if !net.ours(Split(rest)[0]) then None
      else Decode(Join(Normal([], if |Split(rest)| == 1 then [[]] else Split(rest)[1..])))
  {
    var all: Text := ['/', '/'] + rest;
    TameClean(all);
    assert all[1..] == ['/'] + rest && all[2..] == rest && all[1..][1..] == rest;
    assert SkipSlashes(rest) == rest;
    assert SkipSlashes(all) == rest;
  }

  lemma NoAuthority(report: Text, net: Net)
    ensures DocumentLink(report, ['/', '/'], net) == None
  {
    var all: Text, none: Text := ['/', '/'], [];
    TameClean(all);
    assert all[1..] == ['/'] && all[1..][1..] == none;
    assert SkipSlashes(all) == none;
  }

  lemma OwnPath(segments: seq<Text>)
    requires segments != [] && NoDots(segments)
    ensures Decode(Join(Normal([], EncodeAll(segments)))) == Some(Join(segments))
    ensures Decode(Join(Normal([], [[]]))) == Some([])
  {
    var none: seq<Text>, root: seq<Text> := [], [[]];
    NormalEncoded(none, segments);
    UndottedWithoutDots(none, segments);
    assert none + segments == segments && EncodeAll(none) == none;
    DecodeJoined(segments);
    assert Normal(none, root) == Normal(none + root, none) == root;
    assert none + root == root;
  }

  // ------------------------------------------------------------ what is rewritten

  lemma SchemeIsNotLocal(scheme: Text, more: Text)
    requires scheme != [] && Letter(scheme[0]) && SchemeText(scheme)
    ensures !Local(scheme + ([':'] + more))
  {
    var url := scheme + ([':'] + more);
    SchemeEnds(scheme[1..], more);
    assert url[1..] == scheme[1..] + ([':'] + more);
    assert HasScheme(url);
  }

  lemma PlainIsLocal(text: Text)
    requires Tame(text) && text != [] && text[0] != '/'
    ensures Local(text)
  {
    assert text[0] in text && Tame(text[1..]);
    TameHasNoScheme(text[1..]);
  }

  lemma RootLink(segments: seq<Text>, net: Net)
    requires segments != [] && segments[0] != [] && NoDots(segments) && Segments(segments)
    ensures DocumentLink([], Join(EncodeAll(segments)), net) == Some(Join(segments))
  {
    var none: seq<Text>, nowhere: Text := [], [];
    ReferenceLeads(none, nowhere, segments, net);
    assert none + [nowhere] == [nowhere] && Join([nowhere]) == nowhere;
    UndottedWithoutDots(none, segments);
    assert none + segments == segments;
  }

  lemma RelativeIsRewritten(path: Text, net: Net)
    requires path != [] && path[0] != '/' && NoDots(Split(path))
    ensures Rewrite(Encoded(path), net) == Rewritten(path)
  {
    var segments := Split(path);
    PlainStart(path);
    EncodedStart(segments);
    EncodedIsTame(segments);
    PlainIsLocal(Encoded(path));
    RootLink(segments, net);
    JoinSplit(path);
  }

  lemma OthersStay(url: Text, net: Net)
    requires !Local(url)
    ensures Rewrite(url, net) == url
  {
  }

  /** Fragments, references with a scheme and references to an authority stay as they are. */
  lemma ForeignCitationsStay(scheme: Text, more: Text, net: Net)
    requires scheme != [] && Letter(scheme[0]) && SchemeText(scheme)
    ensures Rewrite(['#'] + more, net) == ['#'] + more
    ensures Rewrite(['/', '/'] + more, net) == ['/', '/'] + more
    ensures Rewrite(scheme + ([':'] + more), net) == scheme + ([':'] + more)
  {
    SchemeIsNotLocal(scheme, more);
    OthersStay(['#'] + more, net);
    OthersStay(['/', '/'] + more, net);
    OthersStay(scheme + ([':'] + more), net);
  }

  /** A plain relative citation becomes the same path from the root. */
  lemma PlainCitationsAreRooted(path: Text, net: Net)
    requires path != [] && path[0] != '/' && NoDots(Split(path))
    ensures Rewrite(Encoded(path), net) == ['/'] + Encoded(path)
  {
    RelativeIsRewritten(path, net);
  }
}
