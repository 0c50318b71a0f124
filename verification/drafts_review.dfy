/** Which files may be reviewed as text, what counts as material, and how drafts
    begin. */
module DraftReview {
  import opened Common
  import opened Drafts

  /** The same word but for the case of its letters. */
  predicate SameWord(s: string, word: string) {
    |s| == |word| && forall i | 0 <= i < |s| :: Lower(s[i]) == word[i]
  }

  lemma {:induction false} LowerAllMeans(s: string)
    ensures |LowerAll(s)| == |s| && forall i | 0 <= i < |s| :: LowerAll(s)[i] == Lower(s[i])
  {
    if s != [] { LowerAllMeans(s[1..]); }
  }

  /** A path that ends in a dot and an extension, with something of a name before it. */
  predicate HasExtension(path: string, ext: string) {
    && |path| > |ext| + 1 && path[|path| - |ext|..] == ext && path[|path| - |ext| - 1] == '.'
    && path[|path| - |ext| - 2] != '/' && '.' !in ext && '/' !in ext
  }

  lemma {:induction false} ExtensionDown(path: string, end: nat)
    requires end <= |path| && forall i | end <= i < |path| :: path[i] != '.' && path[i] != '/'
    ensures Extension(path, |path|) == Extension(path, end)
    decreases |path| - end
  {
    if end < |path| { ExtensionDown(path, end + 1); }
  }

  lemma ExtensionIs(path: string, ext: string)
    requires HasExtension(path, ext)
    ensures Extension(path, |path|) == "." + ext
  {
    var dot := |path| - |ext| - 1;
    forall i | dot + 1 <= i < |path| ensures path[i] != '.' && path[i] != '/' {
      assert path[i] == path[|path| - |ext|..][i - dot - 1] == ext[i - dot - 1];
      assert ext[i - dot - 1] in ext;
    }
    ExtensionDown(path, dot + 1);
    assert Extension(path, dot + 1) == path[dot..];
    assert path[dot..] == [path[dot]] + path[dot + 1..];
  }

  /** What `extname` finds, if anything, is what stands behind the last dot of the last
      segment, together with the dot. */
  lemma ExtensionMeans(path: string, ext: string)
    ensures Extension(path, |path|) == "." + ext <==> HasExtension(path, ext)
  {
    if HasExtension(path, ext) {
      ExtensionIs(path, ext);
    } else if Extension(path, |path|) == "." + ext {
      ExtensionFound(path, |path|, ext);
    }
  }

  lemma {:induction false} ExtensionFound(path: string, end: nat, ext: string)
    requires end <= |path| && forall i | end <= i < |path| :: path[i] != '.' && path[i] != '/'
    requires Extension(path, end) == "." + ext
    ensures HasExtension(path, ext)
    decreases end
  {
    if end > 0 && path[end - 1] == '.' {
      assert path[end - 1..] == "." + ext;
      assert path[end..] == path[end - 1..][1..] == ext;
      assert |path| == end + |ext|;
      assert '.' !in ext && '/' !in ext;
    } else {
      ExtensionFound(path, end - 1, ext);
    }
  }

  /** A file is reviewed as text exactly when it has no zero byte, is shorter than half
      a million bytes, and is not a Word or PDF file, in whatever case that is spelled. */
  lemma ReviewableMeans(path: string, content: Content)
    ensures ReviewableAsText(path, content) <==>
      && (forall byte | byte in content :: byte != 0) && |content| < 500000
      && !exists ext :: HasExtension(path, ext) && (SameWord(ext, "docx") || SameWord(ext, "pdf"))
  {
    var found := Extension(path, |path|);
    LowerAllMeans(found);
    forall ext | HasExtension(path, ext)
      ensures found == "." + ext
      ensures LowerAll(found) == ".docx" <==> SameWord(ext, "docx")
      ensures LowerAll(found) == ".pdf" <==> SameWord(ext, "pdf")
    {
      ExtensionMeans(path, ext);
      SuffixWord(found, ext, "docx");
      SuffixWord(found, ext, "pdf");
    }
    if LowerAll(found) == ".docx" || LowerAll(found) == ".pdf" {
      assert found == "." + found[1..] by { DotKept(found); }
      ExtensionMeans(path, found[1..]);
    }
  }

  lemma DotKept(s: string)
    requires s != [] && LowerAll(s)[0] == '.'
    ensures s == "." + s[1..]
  {
  }

  lemma SuffixWord(s: string, ext: string, word: string)
    requires s == "." + ext
    ensures LowerAll(s) == "." + word <==> SameWord(ext, word)
  {
    LowerAllMeans(s);
    if SameWord(ext, word) {
      forall i | 0 <= i < |s| ensures LowerAll(s)[i] == ("." + word)[i] {
        if i > 0 { assert s[i] == ext[i - 1]; }
      }
    }
    if LowerAll(s) == "." + word {
      forall i | 0 <= i < |ext| ensures Lower(ext[i]) == word[i] {
        assert s[i + 1] == ext[i] && LowerAll(s)[i + 1] == ("." + word)[i + 1];
      }
    }
  }

  /** Everything prepared counts as material but the index and extracted text. */
  lemma MaterialMeans(name: string)
    ensures !IsMaterial(name) <==>
      name == "SOURCE_INDEX.md" || exists stem :: name == stem + ".extracted.txt"
  {
    var suffix := ".extracted.txt";
    if EndsWith(name, suffix) { assert name == name[..|name| - |suffix|] + suffix; }
    if stem :| name == stem + suffix { assert name[|name| - |suffix|..] == suffix; }
  }

  /** A draft begins as a copy of the working files, committed as they are, exactly when
      there was none and the files are within the limits. */
  lemma CreateMeans(s: Space, c: string)
    ensures var u := Next(s, Create(c));
      if c !in s.drafts && |s.source| <= 2000 && Bytes(s.source, s.source.Keys) <= 60000000 then
        && u.source == s.source && u.drafts.Keys == s.drafts.Keys + {c}
        && (forall other | other in s.drafts :: u.drafts[other] == s.drafts[other])
        && u.drafts[c].files == s.source && u.drafts[c].head == s.source && Consistent(u.drafts[c])
      else u == s
  {
  }

  /** What is placed stands in the batch folder under its prepared name, and all of it. */
  lemma PlacedMeans(batch: string, stage: Files, placed: Files, name: string)
    requires IsPlaced(batch, stage, placed)
    ensures name in stage <==> batch + "/" + name in placed
    ensures name in stage ==> placed[batch + "/" + name] == stage[name]
    ensures forall path | path in placed :: exists other :: other in stage && path == batch + "/" + other
  {
    var here := batch + "/" + name;
    assert here[|batch| + 1..] == name;
    assert Find(placed, here) == if IsIn(batch, stage, here) then Some(stage[here[|batch| + 1..]]) else None;
    forall path | path in placed ensures exists other :: other in stage && path == batch + "/" + other {
      assert Find(placed, path) == if IsIn(batch, stage, path) then Some(stage[path[|batch| + 1..]]) else None;
    }
  }
}
