/** Draft consistency: a project's working files, and drafts of it that keep
    their own files, a committed version (git HEAD) and a manifest of digests. A
    check and the write it guards are one step, and so are a commit and the
    manifest that goes with it. */
module Drafts {
  import opened Common

  type Content = seq<Byte>

  /** The digest is taken to be injective. */
  datatype Digest = Digest(of: Content)

  type Files = map<string, Content>

  datatype Draft = Draft(files: Files, head: Files, baseline: map<string, Digest>)

  datatype Space = Space(source: Files, drafts: map<string, Draft>)

  datatype Kind = Added | Modified | Deleted

  /** An entry of the review list; `before` and `after` are what its diff is made of. */
  datatype Change = Change(path: string, kind: Kind, before: Content, after: Content, applicable: bool, conflict: bool)

  datatype Error = NoDraft | TooLarge | NotApplicable | Conflict

  const MAX_FILES := 2000
  const MAX_DRAFT_BYTES := 60000000
  const MAX_TEXT := 500000
  const MAX_MATERIALS := 50
  const MAX_MATERIAL_BYTES := 50000000

  // ---------------------------------------------------------------------- paths

  function LowerAll(s: string): string {
    if s == [] then [] else [Lower(s[0])] + LowerAll(s[1..])
  }

  /** `extname`: from the last dot of the last segment, unless the segment begins with it. */
  function Extension(path: string, end: nat): string
    requires end <= |path|
    decreases end
  {
    if end == 0 || path[end - 1] == '/' then ""
    else if path[end - 1] == '.' then
      if end == 1 || path[end - 2] == '/' then "" else path[end - 1..]
    else Extension(path, end - 1)
  }

  predicate ReviewableAsText(path: string, content: Content) {
    && 0 !in content
    && |content| < MAX_TEXT
    && LowerAll(Extension(path, |path|)) !in {".docx", ".pdf"}
  }

  // ---------------------------------------------------------------------- limits

  /** The sizes of some of the files, added up. */
  ghost function Bytes(files: Files, paths: set<string>): nat
    requires paths <= files.Keys
    decreases |paths|
  {
    if paths == {} then 0
    else var path :| path in paths; |files[path]| + Bytes(files, paths - {path})
  }

  lemma {:induction false} BytesAdd(files: Files, paths: set<string>, path: string)
    requires paths <= files.Keys && path in files && path !in paths
    ensures Bytes(files, paths + {path}) == Bytes(files, paths) + |files[path]|
    decreases |paths|
  {
    var all := paths + {path};
    var first :| first in all && Bytes(files, all) == |files[first]| + Bytes(files, all - {first});
    if first == path {
      assert all - {path} == paths;
    } else {
      assert all - {first} == (paths - {first}) + {path};
      BytesAdd(files, paths - {first}, path);
      BytesAdd(files, paths - {first}, first);
      assert (paths - {first}) + {first} == paths;
    }
  }

  lemma {:induction false} BytesGrow(files: Files, some: set<string>, all: set<string>)
    requires some <= all <= files.Keys
    ensures Bytes(files, some) <= Bytes(files, all)
    decreases |all - some|
  {
    if all - some == {} {
      assert some == all;
    } else {
      var path :| path in all - some;
      BytesAdd(files, some, path);
      BytesGrow(files, some + {path}, all);
    }
  }

  /** What `inventory` accepts. */
  ghost predicate Fits(files: Files) {
    |files| <= MAX_FILES && Bytes(files, files.Keys) <= MAX_DRAFT_BYTES
  }

  // -------------------------------------------------------------------- changes

  function DigestAt(files: Files, path: string): Option<Digest> {
    if path in files then Some(Digest(files[path])) else None
  }

  function ChangeAt(source: Files, d: Draft, path: string): Option<Change> {
    if path in d.files && Some(Digest(d.files[path])) == Find(d.baseline, path) then None
    else if path !in d.files && path !in d.baseline then None
    else
      var after := FindOr(d.files, path, []);
      Some(Change(
        path,
        if path !in d.files then Deleted else if path !in d.baseline then Added else Modified,
        if path in d.baseline then FindOr(d.head, path, []) else [],
        after,
        ReviewableAsText(path, after) && path in d.files,
        DigestAt(source, path) != Find(d.baseline, path)))
  }

  function Checkpoint(d: Draft, path: string): Draft {
    if path in d.files then
      d.(head := d.head[path := d.files[path]], baseline := d.baseline[path := Digest(d.files[path])])
    else d
  }

  ghost function Apply(s: Space, conversation: string, path: string): Result<Space, Error> {
    if conversation !in s.drafts then Err(NoDraft)
    else
      var d := s.drafts[conversation];
      var change := ChangeAt(s.source, d, path);
      if !Fits(d.files) then Err(TooLarge)
      else if change.None? || !change.value.applicable then Err(NotApplicable)
      else if change.value.conflict then Err(Conflict)
      else Ok(Space(
        s.source[path := FindOr(d.files, path, [])],
        s.drafts[conversation := Checkpoint(d, path)]))
  }

  function DraftOf(source: Files): Draft {
    Draft(source, source, map path | path in source :: Digest(source[path]))
  }

  // ------------------------------------------------------------------ materials

  function InBatch(batch: string, name: string): string {
    batch + "/" + name
  }

  predicate EndsWith(s: string, suffix: string) {
    |s| >= |suffix| && s[|s| - |suffix|..] == suffix
  }

  predicate IsMaterial(name: string) {
    name != "SOURCE_INDEX.md" && !EndsWith(name, ".extracted.txt")
  }

  predicate IsIn(batch: string, stage: Files, path: string) {
    |path| > |batch| && path[|batch| + 1..] in stage && path == InBatch(batch, path[|batch| + 1..])
  }

  /** Every prepared file under its name in the batch folder, and nothing else. */
  ghost predicate IsPlaced(batch: string, stage: Files, placed: Files) {
    forall path :: Find(placed, path) == if IsIn(batch, stage, path) then Some(stage[path[|batch| + 1..]]) else None
  }

  /** The random batch folder is used by nobody yet. */
  predicate Unused(s: Space, placed: Files) {
    && placed.Keys !! s.source.Keys
    && forall c | c in s.drafts :: placed.Keys !! s.drafts[c].files.Keys + s.drafts[c].head.Keys
  }

  predicate UnusedFolder(s: Space, batch: string, stage: Files) {
    && (forall path | path in s.source :: !IsIn(batch, stage, path))
    && (forall c | c in s.drafts :: forall path | path in s.drafts[c].files.Keys + s.drafts[c].head.Keys ::
          !IsIn(batch, stage, path))
  }

  lemma FolderIsUnused(s: Space, batch: string, stage: Files, placed: Files)
    requires UnusedFolder(s, batch, stage) && IsPlaced(batch, stage, placed)
    ensures Unused(s, placed)
  {
    forall path | path in placed ensures IsIn(batch, stage, path) {
      assert Find(placed, path) == if IsIn(batch, stage, path) then Some(stage[path[|batch| + 1..]]) else None;
    }
  }

  function Extended(d: Draft, placed: Files): Draft {
    Draft(d.files + placed, d.head + placed, d.baseline + map path | path in placed :: Digest(placed[path]))
  }

  function Install(s: Space, placed: Files, conversation: Option<string>): Space {
    Space(
      s.source + placed,
      if conversation.Some? && conversation.value in s.drafts
      then s.drafts[conversation.value := Extended(s.drafts[conversation.value], placed)]
      else s.drafts)
  }

  // ----------------------------------------------------------------------- runs

  datatype Step =
    | Create(conversation: string)
    | WriteDraft(conversation: string, path: string, content: Content)
    | DeleteDraft(conversation: string, path: string)
    | WriteSource(path: string, content: Content)
    | DeleteSource(path: string)
    | ApplyChange(conversation: string, path: string)
    | InstallBatch(batch: string, stage: Files, placed: Files, target: Option<string>)

  /** One step; a refused one changes nothing. */
  ghost function Next(s: Space, step: Step): Space {
    match step
    case Create(c) => if c in s.drafts || !Fits(s.source) then s else s.(drafts := s.drafts[c := DraftOf(s.source)])
    case WriteDraft(c, path, content) =>
      if c in s.drafts then
        s.(drafts := s.drafts[c := s.drafts[c].(files := s.drafts[c].files[path := content])]) else s
    case DeleteDraft(c, path) =>
      if c in s.drafts then
        s.(drafts := s.drafts[c := s.drafts[c].(files := s.drafts[c].files - {path})]) else s
    case WriteSource(path, content) => s.(source := s.source[path := content])
    case DeleteSource(path) => s.(source := s.source - {path})
    case ApplyChange(c, path) =>
      var r := Apply(s, c, path);
      if r.Ok? then r.value else s
    case InstallBatch(batch, stage, placed, c) =>
      if IsPlaced(batch, stage, placed) && Unused(s, placed) then Install(s, placed, c) else s
  }

  ghost function Run(s: Space, steps: seq<Step>): Space
    decreases |steps|
  {
    if steps == [] then s else Run(Next(s, steps[0]), steps[1..])
  }

  /** The manifest is the digest of HEAD, path by path. */
  predicate Consistent(d: Draft) {
    && d.baseline.Keys == d.head.Keys
    && forall path | path in d.head :: d.baseline[path] == Digest(d.head[path])
  }

  predicate Inv(s: Space) {
    forall c | c in s.drafts :: Consistent(s.drafts[c])
  }

  lemma CheckpointKeeps(d: Draft, path: string)
    requires Consistent(d)
    ensures Consistent(Checkpoint(d, path))
  {
  }

  lemma ApplyKeeps(s: Space, c: string, path: string)
    requires Inv(s)
    ensures Inv(Next(s, ApplyChange(c, path)))
  {
    if c in s.drafts { CheckpointKeeps(s.drafts[c], path); }
  }

  lemma InstallKeeps(s: Space, placed: Files, target: Option<string>)
    requires Inv(s)
    ensures Inv(Install(s, placed, target))
  {
    if target.Some? && target.value in s.drafts { ExtendedConsistent(s.drafts[target.value], placed); }
  }

  lemma ExtendedConsistent(d: Draft, placed: Files)
    requires Consistent(d)
    ensures Consistent(Extended(d, placed))
  {
  }

  lemma EditKeeps(s: Space, c: string, files: Files)
    requires Inv(s) && c in s.drafts
    ensures Inv(s.(drafts := s.drafts[c := s.drafts[c].(files := files)]))
  {
    assert Consistent(s.drafts[c].(files := files));
  }

  lemma CreateKeeps(s: Space, c: string)
    requires Inv(s)
    ensures Inv(Next(s, Create(c)))
  {
    assert Consistent(DraftOf(s.source));
  }

  lemma WriteKeeps(s: Space, c: string, path: string, content: Content)
    requires Inv(s)
    ensures Inv(Next(s, WriteDraft(c, path, content)))
  {
    if c in s.drafts { EditKeeps(s, c, s.drafts[c].files[path := content]); }
  }

  lemma DeleteKeeps(s: Space, c: string, path: string)
    requires Inv(s)
    ensures Inv(Next(s, DeleteDraft(c, path)))
  {
    if c in s.drafts { EditKeeps(s, c, s.drafts[c].files - {path}); }
  }

  lemma NextKeeps(s: Space, step: Step)
    requires Inv(s)
    ensures Inv(Next(s, step))
  {
    match step
    case Create(c) => CreateKeeps(s, c);
    case WriteDraft(c, path, content) => WriteKeeps(s, c, path, content);
    case DeleteDraft(c, path) => DeleteKeeps(s, c, path);
    case ApplyChange(c, path) => ApplyKeeps(s, c, path);
    case InstallBatch(_, _, placed, target) => InstallKeeps(s, placed, target);
    case _ =>
  }

  lemma {:induction false} RunKeeps(s: Space, steps: seq<Step>)
    requires Inv(s)
    ensures Inv(Run(s, steps))
    decreases |steps|
  {
    if steps != [] {
      NextKeeps(s, steps[0]);
      RunKeeps(Next(s, steps[0]), steps[1..]);
    }
  }

  /** At every step each manifest holds the digest of HEAD on the same paths. */
  lemma ManifestsFollowHead(source: Files, steps: seq<Step>, c: string)
    requires c in Run(Space(source, map[]), steps).drafts
    ensures Consistent(Run(Space(source, map[]), steps).drafts[c])
  {
    RunKeeps(Space(source, map[]), steps);
  }

  // -------------------------------------------------------- what an entry means

  /** An entry is listed exactly when the draft differs from HEAD, and flags a
      conflict exactly when the working file differs from HEAD. */
  lemma EntriesCompareWithHead(source: Files, d: Draft, path: string)
    requires Consistent(d)
    ensures ChangeAt(source, d, path).None? <==> Find(d.files, path) == Find(d.head, path)
    ensures ChangeAt(source, d, path).Some? ==>
      var change := ChangeAt(source, d, path).value;
      && (change.conflict <==> Find(source, path) != Find(d.head, path))
      && change.before == FindOr(d.head, path, []) && change.after == FindOr(d.files, path, [])
      && (change.kind.Deleted? <==> path !in d.files)
      && (change.kind.Added? <==> path in d.files && path !in d.head)
  {
  }

  /** A new draft starts without entries. */
  lemma NewDraftHasNoChanges(source: Files, path: string)
    ensures Consistent(DraftOf(source)) && ChangeAt(source, DraftOf(source), path).None?
  {
  }

  /** Applying leaves nothing to list for the path, and every other path alone. */
  lemma CheckpointChanges(source: Files, d: Draft, path: string, p: string)
    requires Consistent(d) && path in d.files
    ensures var e := Checkpoint(d, path); var after := source[path := d.files[path]];
      && e.files == d.files && Find(e.head, path) == Some(d.files[path]) == Find(after, path)
      && Find(e.baseline, path) == Some(Digest(d.files[path]))
      && ChangeAt(after, e, path).None?
      && (p != path ==> Find(after, p) == Find(source, p) && ChangeAt(after, e, p) == ChangeAt(source, d, p))
  {
  }

  /** A change is applied only over a working file that still is what HEAD has
      (or that both lack); then working file, draft, HEAD and manifest agree on the
      path, and nothing else moved: no other file, no other entry of this draft,
      and of other drafts no entry but the one for that path. */
  lemma ApplyIsGuardedAndLocal(s: Space, c: string, path: string)
    requires Inv(s) && c in s.drafts
    ensures var d := s.drafts[c];
      Apply(s, c, path).Ok? <==>
        && Fits(d.files) && path in d.files && Find(d.files, path) != Find(d.head, path)
        && ReviewableAsText(path, d.files[path])
        && Find(s.source, path) == Find(d.head, path)
    ensures Apply(s, c, path).Ok? ==>
      var t := Apply(s, c, path).value; var d, e := s.drafts[c], t.drafts[c];
      && t.drafts.Keys == s.drafts.Keys
      && path in d.files && e.files == d.files
      && Find(t.source, path) == Find(e.head, path) == Some(d.files[path])
      && Find(e.baseline, path) == Some(Digest(d.files[path]))
      && ChangeAt(t.source, e, path).None?
      && (forall p :: p != path ==>
            && Find(t.source, p) == Find(s.source, p)
            && ChangeAt(t.source, e, p) == ChangeAt(s.source, d, p))
      && (forall other :: other in s.drafts && other != c ==>
            && t.drafts[other] == s.drafts[other]
            && forall p :: p != path ==>
                 ChangeAt(t.source, t.drafts[other], p) == ChangeAt(s.source, s.drafts[other], p))
  {
    EntriesCompareWithHead(s.source, s.drafts[c], path);
    if Apply(s, c, path).Ok? {
      forall p { CheckpointChanges(s.source, s.drafts[c], path, p); }
    }
  }

  /** In another draft an applied path that is still listed there now flags a
      conflict unless that draft's HEAD happens to hold the same content. */
  lemma ApplyFlagsOtherDrafts(s: Space, c: string, other: string, path: string)
    requires Inv(s) && c in s.drafts && other in s.drafts && other != c && Apply(s, c, path).Ok?
    requires ChangeAt(s.source, s.drafts[other], path).Some?
    ensures var t := Apply(s, c, path).value;
      && ChangeAt(t.source, t.drafts[other], path).Some?
      && (ChangeAt(t.source, t.drafts[other], path).value.conflict <==>
            Find(s.drafts[other].head, path) != Some(s.drafts[c].files[path]))
  {
    EntriesCompareWithHead(Apply(s, c, path).value.source, s.drafts[other], path);
  }

  lemma ExtendedChanges(source: Files, d: Draft, placed: Files, path: string)
    requires Consistent(d) && placed.Keys !! source.Keys && placed.Keys !! d.files.Keys + d.head.Keys
    ensures var e := Extended(d, placed);
      && Consistent(e)
      && (path in placed ==> ChangeAt(source + placed, e, path).None?)
      && (path !in placed ==> ChangeAt(source + placed, e, path) == ChangeAt(source, d, path))
  {
    ExtendedConsistent(d, placed);
    EntriesCompareWithHead(source + placed, Extended(d, placed), path);
  }

  lemma UntouchedChanges(source: Files, d: Draft, placed: Files, path: string)
    requires Consistent(d) && placed.Keys !! d.files.Keys + d.head.Keys
    ensures path in placed ==> ChangeAt(source + placed, d, path).None?
    ensures path !in placed ==> ChangeAt(source + placed, d, path) == ChangeAt(source, d, path)
  {
  }

  lemma InstalledDraft(s: Space, placed: Files, conversation: Option<string>, c: string)
    requires c in s.drafts
    ensures var t := Install(s, placed, conversation);
      && t.drafts.Keys == s.drafts.Keys && t.source == s.source + placed
      && t.drafts[c] == if conversation == Some(c) then Extended(s.drafts[c], placed) else s.drafts[c]
  {
  }

  /** Installing material extends source, draft, HEAD and manifest together: no
      draft gets an entry for it, and every other entry stays as it was. */
  lemma InstallAddsNoChange(s: Space, placed: Files, conversation: Option<string>, c: string, path: string)
    requires Inv(s) && Unused(s, placed) && c in s.drafts
    ensures var t := Install(s, placed, conversation);
      && t.drafts.Keys == s.drafts.Keys && Consistent(t.drafts[c])
      && (path in placed ==> t.source[path] == placed[path] && ChangeAt(t.source, t.drafts[c], path).None?)
      && (path !in placed ==>
            && Find(t.source, path) == Find(s.source, path)
            && ChangeAt(t.source, t.drafts[c], path) == ChangeAt(s.source, s.drafts[c], path))
  {
    InstalledDraft(s, placed, conversation, c);
    if conversation == Some(c) {
      ExtendedChanges(s.source, s.drafts[c], placed, path);
    } else {
      UntouchedChanges(s.source, s.drafts[c], placed, path);
    }
  }

  /** A batch goes into its own folder: every prepared file is there under its name,
      and nothing else came. */
  lemma BatchIsPlaced(s: Space, batch: string, stage: Files, placed: Files, target: Option<string>, path: string)
    requires IsPlaced(batch, stage, placed) && Unused(s, placed)
    ensures Find(Next(s, InstallBatch(batch, stage, placed, target)).source, path) ==
      if IsIn(batch, stage, path) then Some(stage[path[|batch| + 1..]]) else Find(s.source, path)
    ensures path in stage ==>
      Find(Next(s, InstallBatch(batch, stage, placed, target)).source, InBatch(batch, path)) == Some(stage[path])
  {
    assert Find(placed, path) == if IsIn(batch, stage, path) then Some(stage[path[|batch| + 1..]]) else None;
    if path in stage {
      assert InBatch(batch, path)[|batch| + 1..] == path;
      assert IsIn(batch, stage, InBatch(batch, path));
      assert Find(placed, InBatch(batch, path)) == Some(stage[path]);
    }
  }

  /** No step but an outside edit, an application or an installation changes a
      working file, and an installation only adds. */
  lemma WorkingFilesChangeOnlyByApplication(s: Space, step: Step, path: string)
    requires Inv(s) && !step.WriteSource? && !step.DeleteSource?
    requires path in s.source && Find(Next(s, step).source, path) != Find(s.source, path)
    ensures step.ApplyChange? && step.path == path && step.conversation in s.drafts
    ensures var d := s.drafts[step.conversation];
      && Find(s.source, path) == Find(d.head, path)
      && Find(Next(s, step).source, path) == Find(d.files, path)
  {
    if step.ApplyChange? && step.conversation in s.drafts { ApplyIsGuardedAndLocal(s, step.conversation, step.path); }
  }
}
