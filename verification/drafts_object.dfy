/** The draft operations over the files themselves, changed one at a time. */
module DraftsObject {
  import opened Common
  import D = Drafts

  class Workspace {
    var source: D.Files
    var drafts: map<string, D.Draft>

    ghost function At(): D.Space
      reads this
    {
      D.Space(source, drafts)
    }

    constructor (source: D.Files)
      ensures At() == D.Space(source, map[])
    {
      this.source := source;
      drafts := map[];
    }

    /** `inventory`: every working file is counted before anything is copied. */
    method Inventory(files: D.Files) returns (paths: Option<set<string>>)
      ensures paths.Some? ==> paths.value == files.Keys
      ensures paths.Some? <==> D.Fits(files)
    {
      var todo, done, bytes := files.Keys, {}, 0;
      while todo != {}
        invariant done !! todo && done + todo == files.Keys
        invariant bytes == D.Bytes(files, done) <= D.MAX_DRAFT_BYTES && |done| <= D.MAX_FILES
        decreases |todo|
      {
        var path :| path in todo;
        D.BytesAdd(files, done, path);
        todo, done, bytes := todo - {path}, done + {path}, bytes + |files[path]|;
        if |done| > D.MAX_FILES || bytes > D.MAX_DRAFT_BYTES {
          D.BytesGrow(files, done, files.Keys);
          Grow(done, files.Keys);
          return None;
        }
      }
      assert done == files.Keys;
      return Some(files.Keys);
    }

    method CopyAll(paths: set<string>) returns (files: D.Files, baseline: map<string, D.Digest>)
      requires paths == source.Keys
      ensures D.Draft(files, files, baseline) == D.DraftOf(source)
    {
      var todo := paths;
      ghost var done: set<string> := {};
      files, baseline := map[], map[];
      while todo != {}
        invariant done !! todo && done + todo == source.Keys
        invariant files == Part(source, done) && baseline == PartDigests(source, done)
        decreases |todo|
      {
        var path :| path in todo;
        var contents := source[path];
        PartNext(source, done, path);
        baseline := baseline[path := D.Digest(contents)];
        files := files[path := contents];
        todo, done := todo - {path}, done + {path};
      }
      PartAll(source, done);
    }

    /** `createDraft`: a copy of every working file, committed and digested. */
    method CreateDraft(conversation: string) returns (created: bool)
      modifies this`drafts
      ensures created <==> conversation !in old(drafts) && D.Fits(source)
      ensures At() == D.Next(old(At()), D.Create(conversation))
    {
      if conversation in drafts { return false; }
      var paths := Inventory(source);
      if paths.None? { return false; }
      var files, baseline := CopyAll(paths.value);
      drafts := drafts[conversation := D.Draft(files, files, baseline)];
      return true;
    }

    /** `changes`: one entry for each path that has one, and no other; the listing
        fails when the draft has grown too large. */
    method Changes(conversation: string) returns (entries: Option<seq<D.Change>>)
      requires conversation in drafts
      ensures entries.Some? <==> D.Fits(drafts[conversation].files)
      ensures entries.Some? ==> ListedAll(source, drafts[conversation], entries.value)
    {
      var d := drafts[conversation];
      var paths := Inventory(d.files);
      if paths.None? { return None; }
      var todo := d.baseline.Keys + paths.value;
      ghost var done: set<string> := {};
      var result: seq<D.Change> := [];
      while todo != {}
        invariant Listed(source, d, result, done)
        invariant done !! todo && done + todo == d.baseline.Keys + d.files.Keys
        decreases |todo|
      {
        var path :| path in todo;
        var entry := ChangeFor(d, path);
        ListedNext(source, d, result, done, path);
        if entry.Some? { result := result + [entry.value]; }
        todo, done := todo - {path}, done + {path};
      }
      forall path | D.ChangeAt(source, d, path).Some? ensures exists change :: change in result && change.path == path {
        assert path in done;
      }
      return Some(result);
    }

    method ChangeFor(d: D.Draft, path: string) returns (entry: Option<D.Change>)
      ensures entry == D.ChangeAt(source, d, path)
    {
      var present := path in d.files;
      var after := if present then d.files[path] else [];
      if present && path in d.baseline && D.Digest(after) == d.baseline[path] { return None; }
      if !present && path !in d.baseline { return None; }
      var before := if path in d.baseline then FindOr(d.head, path, []) else [];
      var sourceHash := D.DigestAt(source, path);
      return Some(D.Change(
        path,
        if !present then D.Deleted else if path !in d.baseline then D.Added else D.Modified,
        before, after,
        D.ReviewableAsText(path, after) && present,
        sourceHash != Find(d.baseline, path)));
    }

    /** `applyLocalChange`: the entry decides; only then is the file replaced and the draft checkpointed. */
    method ApplyLocalChange(conversation: string, path: string) returns (r: Result<(), D.Error>)
      modifies this
      ensures r.Ok? <==> D.Apply(old(At()), conversation, path).Ok?
      ensures r.Err? ==> At() == old(At()) && D.Apply(old(At()), conversation, path).error == r.error
      ensures At() == D.Next(old(At()), D.ApplyChange(conversation, path))
    {
      if conversation !in drafts { return Err(D.NoDraft); }
      var listed := Changes(conversation);
      if listed.None? { return Err(D.TooLarge); }
      var entries := listed.value;
      var found: Option<D.Change> := None;
      for i := 0 to |entries|
        invariant found.Some? ==> found.value in entries && found.value.path == path
        invariant found.None? ==> forall j :: 0 <= j < i ==> entries[j].path != path
      {
        if found.None? && entries[i].path == path { found := Some(entries[i]); }
      }
      if found.None? || !found.value.applicable { return Err(D.NotApplicable); }
      if found.value.conflict { return Err(D.Conflict); }
      source := source[path := drafts[conversation].files[path]];
      CheckpointDraft(conversation, path);
      return Ok(());
    }

    method CheckpointDraft(conversation: string, path: string)
      requires conversation in drafts && path in drafts[conversation].files
      modifies this`drafts
      ensures drafts == old(drafts)[conversation := D.Checkpoint(old(drafts)[conversation], path)]
    {
      var d := drafts[conversation];
      var manifest := d.baseline[path := D.Digest(d.files[path])];
      drafts := drafts[conversation := d.(head := d.head[path := d.files[path]], baseline := manifest)];
    }

    method TooMuch(stage: D.Files) returns (tooMuch: bool)
      ensures !tooMuch <==> |Materials(stage)| <= D.MAX_MATERIALS && D.Bytes(stage, stage.Keys) <= D.MAX_MATERIAL_BYTES
    {
      var todo, done, count, bytes := stage.Keys, {}, {}, 0;
      while todo != {}
        invariant done !! todo && done + todo == stage.Keys
        invariant bytes == D.Bytes(stage, done) && count == MaterialsIn(done)
        decreases |todo|
      {
        var name :| name in todo;
        D.BytesAdd(stage, done, name);
        MaterialsAdd(done, name);
        if D.IsMaterial(name) { count := count + {name}; }
        todo, done, bytes := todo - {name}, done + {name}, bytes + |stage[name]|;
      }
      assert done == stage.Keys;
      return |count| > D.MAX_MATERIALS || bytes > D.MAX_MATERIAL_BYTES;
    }

    method Digested(baseline: map<string, D.Digest>, placed: D.Files) returns (extended: map<string, D.Digest>)
      ensures extended == DigestedBut(baseline, placed, {})
    {
      extended := baseline;
      var todo := placed.Keys;
      while todo != {}
        invariant todo <= placed.Keys
        invariant extended == DigestedBut(baseline, placed, todo)
        decreases |todo|
      {
        var path :| path in todo;
        DigestedNext(baseline, placed, todo, path);
        extended := extended[path := D.Digest(placed[path])];
        todo := todo - {path};
      }
    }

    /** The prepared files under their names in the batch folder. */
    method Place(batch: string, stage: D.Files) returns (placed: D.Files)
      ensures D.IsPlaced(batch, stage, placed)
    {
      placed := map[];
      var todo := stage.Keys;
      while todo != {}
        invariant todo <= stage.Keys
        invariant forall path | path in placed :: D.IsIn(batch, stage, path)
        invariant forall path | D.IsIn(batch, stage, path) && path[|batch| + 1..] !in todo ::
          Find(placed, path) == Some(stage[path[|batch| + 1..]])
        decreases |todo|
      {
        var name :| name in todo;
        assert D.InBatch(batch, name)[|batch| + 1..] == name;
        placed := placed[D.InBatch(batch, name) := stage[name]];
        todo := todo - {name};
      }
    }

    /** `installMaterials`, for a batch of prepared files in a folder that is used by
        nobody yet: refused when it has too much in it, and otherwise added to
        everything at once. */
    method InstallMaterials(batch: string, stage: D.Files, conversation: Option<string>)
      returns (installed: bool, placed: D.Files)
      requires D.UnusedFolder(At(), batch, stage)
      modifies this
      ensures installed <==> |Materials(stage)| <= D.MAX_MATERIALS && D.Bytes(stage, stage.Keys) <= D.MAX_MATERIAL_BYTES
      ensures installed ==> D.IsPlaced(batch, stage, placed)
      ensures installed ==> At() == D.Next(old(At()), D.InstallBatch(batch, stage, placed, conversation))
      ensures !installed ==> At() == old(At())
    {
      var tooMuch := TooMuch(stage);
      if tooMuch { return false, map[]; }
      placed := Place(batch, stage);
      D.FolderIsUnused(At(), batch, stage, placed);
      Extend(placed, conversation);
      return true, placed;
    }

    /** Source, draft, HEAD and manifest are extended together. */
    method Extend(placed: D.Files, conversation: Option<string>)
      modifies this
      ensures At() == D.Install(old(At()), placed, conversation)
    {
      if conversation.Some? && conversation.value in drafts {
        var d := drafts[conversation.value];
        var baseline := Digested(d.baseline, placed);
        DigestedIsExtended(d, placed);
        drafts := drafts[conversation.value := D.Draft(d.files + placed, d.head + placed, baseline)];
      }
      source := source + placed;
    }
  }

  function DigestedBut(baseline: map<string, D.Digest>, placed: D.Files, todo: set<string>): map<string, D.Digest> {
    baseline + map path | path in placed && path !in todo :: D.Digest(placed[path])
  }

  lemma DigestedIsExtended(d: D.Draft, placed: D.Files)
    ensures D.Draft(d.files + placed, d.head + placed, DigestedBut(d.baseline, placed, {})) == D.Extended(d, placed)
  {
    var a, b := DigestedBut(d.baseline, placed, {}), D.Extended(d, placed).baseline;
    assert a.Keys == b.Keys;
    assert forall path | path in a :: a[path] == b[path];
  }

  lemma DigestedNext(baseline: map<string, D.Digest>, placed: D.Files, todo: set<string>, path: string)
    requires path in placed && path in todo
    ensures DigestedBut(baseline, placed, todo)[path := D.Digest(placed[path])] ==
            DigestedBut(baseline, placed, todo - {path})
  {
  }

  ghost function Part(files: D.Files, done: set<string>): D.Files {
    map path | path in files && path in done :: files[path]
  }

  ghost function PartDigests(files: D.Files, done: set<string>): map<string, D.Digest> {
    map path | path in files && path in done :: D.Digest(files[path])
  }

  lemma PartNext(files: D.Files, done: set<string>, path: string)
    requires path in files
    ensures Part(files, done)[path := files[path]] == Part(files, done + {path})
    ensures PartDigests(files, done)[path := D.Digest(files[path])] == PartDigests(files, done + {path})
  {
  }

  lemma PartAll(files: D.Files, done: set<string>)
    requires done == files.Keys
    ensures Part(files, done) == files && PartDigests(files, done) == D.DraftOf(files).baseline
  {
  }

  function MaterialsIn(names: set<string>): set<string> {
    set name | name in names && D.IsMaterial(name)
  }

  function Materials(stage: D.Files): set<string> {
    MaterialsIn(stage.Keys)
  }

  lemma MaterialsAdd(names: set<string>, name: string)
    ensures MaterialsIn(names + {name}) == MaterialsIn(names) + (if D.IsMaterial(name) then {name} else {})
  {
  }

  /** The entries of some of the paths, each once. */
  ghost predicate Listed(source: D.Files, d: D.Draft, result: seq<D.Change>, done: set<string>) {
    && (forall i, j :: 0 <= i < j < |result| ==> result[i].path != result[j].path)
    && (forall change :: change in result ==> change.path in done && D.ChangeAt(source, d, change.path) == Some(change))
    && (forall path :: path in done && D.ChangeAt(source, d, path).Some? ==>
          exists change :: change in result && change.path == path)
  }

  /** One entry for each path that has one, and no other. */
  ghost predicate ListedAll(source: D.Files, d: D.Draft, result: seq<D.Change>) {
    && (forall i, j :: 0 <= i < j < |result| ==> result[i].path != result[j].path)
    && (forall change :: change in result ==> D.ChangeAt(source, d, change.path) == Some(change))
    && (forall path :: D.ChangeAt(source, d, path).Some? ==> exists change :: change in result && change.path == path)
  }

  lemma ListedNext(source: D.Files, d: D.Draft, result: seq<D.Change>, done: set<string>, path: string)
    requires Listed(source, d, result, done) && path !in done
    ensures var entry := D.ChangeAt(source, d, path);
      Listed(source, d, if entry.Some? then result + [entry.value] else result, done + {path})
  {
    var entry := D.ChangeAt(source, d, path);
    if entry.Some? {
      var more := result + [entry.value];
      assert entry.value in more && entry.value.path == path;
      assert forall change :: change in result ==> change in more;
      assert forall i :: 0 <= i < |result| ==> result[i] in result;
    }
  }

  lemma {:induction false} Grow(some: set<string>, all: set<string>)
    requires some <= all
    ensures |some| <= |all|
    decreases |all - some|
  {
    if all - some == {} {
      assert some == all;
    } else {
      var path :| path in all - some;
      Grow(some + {path}, all);
    }
  }
}
