/** What `transform` of the draft engine guarantees about its result: one
    folder per distinct folder name, files with distinct names in each
    folder, every action in the folder and under the name its path
    dictates, and exactly one action per operation of the document. */
module DraftProperties {
  import opened Js
  import opened Strings
  import opened Lists
  import opened Document
  import opened DraftResolver
  import opened DraftFolders
  import opened DraftTransform
  import SrcProps = TransformProperties
  import P = Placement

  /** An action belongs in the folder of its path, under its path's name,
      and its method is in capitals. */
  predicate Placed(folderName: Option<string>, a: Action) {
    folderName == FolderName(a.path) && a.name == ActionName(a.path) && ToUpper(a.httpMethod) == a.httpMethod
  }

  predicate FolderWellFormed(f: FolderVal) {
    && NoDups(ValueFileNames(f.files))
    && forall j, a :: 0 <= j < |f.files| && a in f.files[j].actions ==> Placed(f.name, a)
  }

  predicate WellFormed(fs: seq<FolderVal>) {
    NoDups(ValueFolderNames(fs)) && forall k :: 0 <= k < |fs| ==> FolderWellFormed(fs[k])
  }

  /** The number of actions in a list of files. */
  function FileActions(cs: seq<FileVal>): nat {
    if cs == [] then 0 else |cs[0].actions| + FileActions(cs[1..])
  }

  /** The number of actions in a list of folders. */
  function FolderActions(fs: seq<FolderVal>): nat {
    if fs == [] then 0 else FileActions(fs[0].files) + FolderActions(fs[1..])
  }

  // ---------------------------------------------------------------------
  // counting

  lemma {:induction false} FileActionsUpdate(cs: seq<FileVal>, j: nat, c: FileVal)
    requires j < |cs|
    ensures FileActions(cs[j := c]) + |cs[j].actions| == FileActions(cs) + |c.actions|
    decreases cs
  {
    if j > 0 {
      assert cs[j := c][1..] == cs[1..][j - 1 := c];
      FileActionsUpdate(cs[1..], j - 1, c);
    }
  }

  lemma {:induction false} FileActionsSnoc(cs: seq<FileVal>, c: FileVal)
    ensures FileActions(cs + [c]) == FileActions(cs) + |c.actions|
    decreases cs
  {
    if cs != [] {
      assert (cs + [c])[1..] == cs[1..] + [c];
      FileActionsSnoc(cs[1..], c);
    }
  }

  lemma {:induction false} FolderActionsUpdate(fs: seq<FolderVal>, k: nat, f: FolderVal)
    requires k < |fs|
    ensures FolderActions(fs[k := f]) + FileActions(fs[k].files) == FolderActions(fs) + FileActions(f.files)
    decreases fs
  {
    if k > 0 {
      assert fs[k := f][1..] == fs[1..][k - 1 := f];
      FolderActionsUpdate(fs[1..], k - 1, f);
    }
  }

  lemma {:induction false} FolderActionsSnoc(fs: seq<FolderVal>, f: FolderVal)
    ensures FolderActions(fs + [f]) == FolderActions(fs) + FileActions(f.files)
    decreases fs
  {
    if fs != [] {
      assert (fs + [f])[1..] == fs[1..] + [f];
      FolderActionsSnoc(fs[1..], f);
    }
  }

  /** One pushed action is one more action in the folder. */
  lemma AddActionCounts(f: FolderVal, fileName: string, a: Action)
    ensures FileActions(AddAction(f, fileName, a).files) == FileActions(f.files) + 1
  {
    var (g, j) := FindOrAddFile(f, fileName);
    if fileName !in ValueFileNames(f.files) {
      FileActionsSnoc(f.files, FileVal(fileName, []));
    }
    assert FileActions(g.files) == FileActions(f.files);
    FileActionsUpdate(g.files, j, Push(g.files[j], a));
  }

  /** The operations of one path add one action each to its folder. */
  lemma {:induction false} MethodsIntoCounts(f: FolderVal, path: string, item: PathItem)
    requires MethodsInto(f, path, item).Ok?
    ensures FileActions(MethodsInto(f, path, item).value.files) == FileActions(f.files) + |item|
    decreases item
  {
    if item != [] {
      var (httpMethod, op) := item[0];
      var (fileName, a) := MethodAction(path, httpMethod, op).value;
      AddActionCounts(f, fileName, a);
      MethodsIntoCounts(AddAction(f, fileName, a), path, item[1..]);
    }
  }

  /** One path adds one action per operation. */
  lemma PathStepCounts(fs: seq<FolderVal>, path: string, item: PathItem)
    requires PathStep(fs, path, item).Ok?
    ensures FolderActions(PathStep(fs, path, item).value) == FolderActions(fs) + |item|
  {
    var (fs', k) := FindOrAddFolder(fs, FolderName(path));
    if FolderName(path) !in ValueFolderNames(fs) {
      FolderActionsSnoc(fs, FolderVal(FolderName(path), []));
    }
    assert FolderActions(fs') == FolderActions(fs);
    MethodsIntoCounts(fs'[k], path, item);
    FolderActionsUpdate(fs', k, MethodsInto(fs'[k], path, item).value);
  }

  /** The loop over paths adds one action per operation of the document. */
  lemma {:induction false} PathsFromCounts(fs: seq<FolderVal>, paths: seq<(string, PathItem)>)
    requires PathsFrom(fs, paths).Ok?
    ensures FolderActions(PathsFrom(fs, paths).value) == FolderActions(fs) + SrcProps.Operations(paths)
    decreases paths
  {
    if paths != [] {
      PathStepCounts(fs, paths[0].0, paths[0].1);
      var fs' := PathStep(fs, paths[0].0, paths[0].1).value;
      assert PathsFrom(fs, paths) == PathsFrom(fs', paths[1..]);
      PathsFromCounts(fs', paths[1..]);
    }
  }

  // ---------------------------------------------------------------------
  // the shape of the grouping

  lemma FindOrAddFileWellFormed(f: FolderVal, fileName: string)
    requires FolderWellFormed(f)
    ensures FolderWellFormed(FindOrAddFile(f, fileName).0)
  {
    var g := FindOrAddFile(f, fileName).0;
    if fileName !in ValueFileNames(f.files) {
      assert ValueFileNames(g.files) == ValueFileNames(f.files) + [fileName];
      NoDupsSnoc(ValueFileNames(f.files), fileName);
    }
  }

  lemma AddActionWellFormed(f: FolderVal, fileName: string, a: Action)
    requires FolderWellFormed(f) && Placed(f.name, a)
    ensures FolderWellFormed(AddAction(f, fileName, a))
  {
    var (g, j) := FindOrAddFile(f, fileName);
    FindOrAddFileWellFormed(f, fileName);
    var h := AddAction(f, fileName, a);
    assert ValueFileNames(h.files) == ValueFileNames(g.files);
    forall i, b | 0 <= i < |h.files| && b in h.files[i].actions
      ensures Placed(h.name, b)
    {
      if i == j && b !in g.files[j].actions {
        assert b == a;
      }
    }
  }

  lemma {:induction false} MethodsIntoWellFormed(f: FolderVal, path: string, item: PathItem)
    requires FolderWellFormed(f) && f.name == FolderName(path)
    requires MethodsInto(f, path, item).Ok?
    ensures FolderWellFormed(MethodsInto(f, path, item).value)
    decreases item
  {
    if item != [] {
      var (httpMethod, op) := item[0];
      var (fileName, a) := MethodAction(path, httpMethod, op).value;
      UpperIdempotent(httpMethod);
      AddActionWellFormed(f, fileName, a);
      MethodsIntoWellFormed(AddAction(f, fileName, a), path, item[1..]);
    }
  }

  /** One path keeps the grouping well formed. */
  lemma PathStepShape(fs: seq<FolderVal>, path: string, item: PathItem)
    requires WellFormed(fs) && PathStep(fs, path, item).Ok?
    ensures WellFormed(PathStep(fs, path, item).value)
  {
    var x := FolderName(path);
    var (fs', k) := FindOrAddFolder(fs, x);
    var names := ValueFolderNames(fs);
    if x !in names {
      assert ValueFolderNames(fs') == names + [x];
      NoDupsSnoc(names, x);
    }
    assert WellFormed(fs');
    MethodsIntoWellFormed(fs'[k], path, item);
    assert ValueFolderNames(PathStep(fs, path, item).value) == ValueFolderNames(fs');
  }

  /** One path adds its folder name when it is new. */
  lemma PathStepNames(fs: seq<FolderVal>, path: string, item: PathItem)
    requires NoDups(ValueFolderNames(fs)) && PathStep(fs, path, item).Ok?
    ensures ValueFolderNames(PathStep(fs, path, item).value) == Distinct(ValueFolderNames(fs) + [FolderName(path)])
    ensures NoDups(ValueFolderNames(PathStep(fs, path, item).value))
  {
    var x := FolderName(path);
    var (fs', k) := FindOrAddFolder(fs, x);
    var names := ValueFolderNames(fs);
    if x !in names {
      assert ValueFolderNames(fs') == names + [x];
      NoDupsSnoc(names, x);
    }
    assert ValueFolderNames(PathStep(fs, path, item).value) == ValueFolderNames(fs');
    DistinctOfNoDups(names);
    DistinctSnoc(names, x);
  }

  /** The loop over paths keeps the grouping well formed. */
  lemma {:induction false} PathsFromWellFormed(fs: seq<FolderVal>, paths: seq<(string, PathItem)>)
    requires WellFormed(fs) && PathsFrom(fs, paths).Ok?
    ensures WellFormed(PathsFrom(fs, paths).value)
    decreases paths
  {
    if paths != [] {
      PathStepShape(fs, paths[0].0, paths[0].1);
      var fs' := PathStep(fs, paths[0].0, paths[0].1).value;
      assert PathsFrom(fs, paths) == PathsFrom(fs', paths[1..]);
      PathsFromWellFormed(fs', paths[1..]);
    }
  }

  /** The folders the loop over paths yields are the distinct folder names
      of the paths, in order of first appearance. */
  lemma {:induction false} PathsFromNames(fs: seq<FolderVal>, paths: seq<(string, PathItem)>)
    requires NoDups(ValueFolderNames(fs)) && PathsFrom(fs, paths).Ok?
    ensures ValueFolderNames(PathsFrom(fs, paths).value) == Distinct(ValueFolderNames(fs) + SrcProps.PathFolders(paths))
    decreases paths
  {
    if paths == [] {
      assert ValueFolderNames(fs) + SrcProps.PathFolders(paths) == ValueFolderNames(fs);
      DistinctOfNoDups(ValueFolderNames(fs));
    } else {
      var x := FolderName(paths[0].0);
      var names := ValueFolderNames(fs);
      PathStepNames(fs, paths[0].0, paths[0].1);
      var fs' := PathStep(fs, paths[0].0, paths[0].1).value;
      var rest := SrcProps.PathFolders(paths[1..]);
      assert PathsFrom(fs, paths) == PathsFrom(fs', paths[1..]);
      PathsFromNames(fs', paths[1..]);
      DistinctThrough(names, x, rest);
      SrcProps.PathFoldersCons(paths);
    }
  }

  // ---------------------------------------------------------------------
  // where the actions go, and in which order

  /** A folder reduced to its name and, per file, its actions. */
  function ProjectFolder(f: FolderVal): (r: P.FolderT<Action>)
    ensures r.name == f.name && |r.files| == |f.files|
    ensures forall j :: 0 <= j < |f.files| ==> r.files[j] == P.FileT(f.files[j].name, f.files[j].actions)
  {
    P.FolderT(f.name, seq(|f.files|, j requires 0 <= j < |f.files| => P.FileT(f.files[j].name, f.files[j].actions)))
  }

  function Project(fs: seq<FolderVal>): (r: seq<P.FolderT<Action>>)
    ensures |r| == |fs| && forall k :: 0 <= k < |fs| ==> r[k] == ProjectFolder(fs[k])
  {
    seq(|fs|, k requires 0 <= k < |fs| => ProjectFolder(fs[k]))
  }

  /** The action an operation contributes. When building it throws,
      `transform` throws, so the placeholder never shows in a result; it
      still carries the operation's path and its method in capitals. */
  function OperationAction(path: string, httpMethod: string, op: Operation): (r: Action)
    ensures r.path == path && r.httpMethod == ToUpper(httpMethod)
    ensures MethodAction(path, httpMethod, op).Ok? ==> r == MethodAction(path, httpMethod, op).value.1
  {
    match MethodAction(path, httpMethod, op)
    case Ok((_, a)) => a
    case Err(_) => Action(ActionName(path), None, [], ToUpper(httpMethod), path)
  }

  /** The operations of one path, each with its file and its action, in
      document order. */
  function PathOps(path: string, item: PathItem): (r: seq<(string, Action)>)
    ensures |r| == |item| && forall i :: 0 <= i < |item| ==>
      r[i] == (SrcProps.OperationFile(item[i].1), OperationAction(path, item[i].0, item[i].1))
  {
    seq(|item|, i requires 0 <= i < |item| => (SrcProps.OperationFile(item[i].1), OperationAction(path, item[i].0, item[i].1)))
  }

  function DocPaths(paths: seq<(string, PathItem)>): (r: seq<(Option<string>, seq<(string, Action)>)>)
    ensures |r| == |paths| && forall i :: 0 <= i < |paths| ==> r[i] == (FolderName(paths[i].0), PathOps(paths[i].0, paths[i].1))
  {
    seq(|paths|, i requires 0 <= i < |paths| => (FolderName(paths[i].0), PathOps(paths[i].0, paths[i].1)))
  }

  /** The action of every operation of the document, in traversal order,
      keyed by its folder and file. */
  function DocSlots(paths: seq<(string, PathItem)>): seq<P.Slot<Action>> {
    P.Flatten(DocPaths(paths))
  }

  lemma FileKeysAgree(f: FolderVal)
    ensures P.FileKeys(ProjectFolder(f).files) == ValueFileNames(f.files)
  {
  }

  lemma FolderKeysAgree(fs: seq<FolderVal>)
    ensures P.FolderKeys(Project(fs)) == ValueFolderNames(fs)
  {
  }

  /** Pushing an action is one step of the generic walk. */
  lemma ProjectAddAction(f: FolderVal, fileName: string, a: Action)
    ensures ProjectFolder(AddAction(f, fileName, a)) == P.AddToFolder(ProjectFolder(f), fileName, a)
  {
    var (g, j) := FindOrAddFile(f, fileName);
    var h := AddAction(f, fileName, a);
    var pf := ProjectFolder(f);
    var e := a;
    FileKeysAgree(f);
    if fileName in ValueFileNames(f.files) {
      assert ProjectFolder(h).files == pf.files[j := P.FileT(fileName, pf.files[j].entries + [e])];
    } else {
      assert j == |f.files| && h.files == f.files + [Push(FileVal(fileName, []), a)];
      assert Push(FileVal(fileName, []), a).actions == [a];
      var got := ProjectFolder(h).files;
      assert |got| == |pf.files| + 1;
      assert forall n :: 0 <= n < |pf.files| ==> got[n] == pf.files[n];
      assert got[|pf.files|] == P.FileT(fileName, [e]);
      assert got == pf.files + [P.FileT(fileName, [e])];
    }
  }

  lemma PathOpsCons(path: string, item: PathItem)
    requires item != []
    ensures PathOps(path, item)[0] == (SrcProps.OperationFile(item[0].1), OperationAction(path, item[0].0, item[0].1))
    ensures PathOps(path, item)[1..] == PathOps(path, item[1..])
  {
  }

  /** The operations of one path are the generic walk's operations in one
      folder. */
  lemma {:induction false} ProjectMethodsInto(f: FolderVal, path: string, item: PathItem)
    requires MethodsInto(f, path, item).Ok?
    ensures ProjectFolder(MethodsInto(f, path, item).value) == P.FolderFold(ProjectFolder(f), PathOps(path, item))
    decreases item
  {
    if item != [] {
      var (httpMethod, op) := item[0];
      var (fileName, a) := MethodAction(path, httpMethod, op).value;
      assert fileName == SrcProps.OperationFile(op) && a == OperationAction(path, httpMethod, op);
      ProjectAddAction(f, fileName, a);
      ProjectMethodsInto(AddAction(f, fileName, a), path, item[1..]);
      PathOpsCons(path, item);
    }
  }

  lemma ProjectUpdate(fs: seq<FolderVal>, k: nat, f: FolderVal)
    requires k < |fs|
    ensures Project(fs[k := f]) == Project(fs)[k := ProjectFolder(f)]
  {
  }

  lemma ProjectSnoc(fs: seq<FolderVal>, f: FolderVal)
    ensures Project(fs + [f]) == Project(fs) + [ProjectFolder(f)]
  {
  }

  /** One path is one step of the generic walk. */
  lemma ProjectPathStep(fs: seq<FolderVal>, path: string, item: PathItem)
    requires PathStep(fs, path, item).Ok?
    ensures Project(PathStep(fs, path, item).value) == P.AddPath(Project(fs), FolderName(path), PathOps(path, item))
  {
    var x := FolderName(path);
    var (fs', k) := FindOrAddFolder(fs, x);
    var f := MethodsInto(fs'[k], path, item).value;
    FolderKeysAgree(fs);
    ProjectMethodsInto(fs'[k], path, item);
    if x in ValueFolderNames(fs) {
      ProjectUpdate(fs, k, f);
    } else {
      var empty := FolderVal(x, []);
      assert ProjectFolder(empty) == P.FolderT(x, []);
      assert fs'[k := f] == fs + [f];
      ProjectSnoc(fs, f);
    }
  }

  /** The loop over paths is the generic walk. */
  lemma {:induction false} ProjectPathsFrom(fs: seq<FolderVal>, paths: seq<(string, PathItem)>)
    requires PathsFrom(fs, paths).Ok?
    ensures Project(PathsFrom(fs, paths).value) == P.Walk(Project(fs), DocPaths(paths))
    decreases paths
  {
    if paths != [] {
      ProjectPathStep(fs, paths[0].0, paths[0].1);
      var fs' := PathStep(fs, paths[0].0, paths[0].1).value;
      assert PathsFrom(fs, paths) == PathsFrom(fs', paths[1..]);
      ProjectPathsFrom(fs', paths[1..]);
      assert DocPaths(paths)[1..] == DocPaths(paths[1..]);
    }
  }

  /** Every operation under `paths` builds its action. */
  ghost predicate AllBuild(paths: seq<(string, PathItem)>) {
    forall i, m :: 0 <= i < |paths| && 0 <= m < |paths[i].1| ==>
      MethodAction(paths[i].0, paths[i].1[m].0, paths[i].1[m].1).Ok?
  }

  /** A path's operations succeed only when every one of them builds its
      action. */
  lemma {:induction false} MethodsIntoBuilds(f: FolderVal, path: string, item: PathItem)
    requires MethodsInto(f, path, item).Ok?
    ensures forall m :: 0 <= m < |item| ==> MethodAction(path, item[m].0, item[m].1).Ok?
    decreases item
  {
    if item != [] {
      var (fileName, a) := MethodAction(path, item[0].0, item[0].1).value;
      MethodsIntoBuilds(AddAction(f, fileName, a), path, item[1..]);
      forall m | 1 <= m < |item|
        ensures MethodAction(path, item[m].0, item[m].1).Ok?
      {
        assert item[m] == item[1..][m - 1];
      }
    }
  }

  /** The draft loop over paths succeeds only when every operation builds
      its action. */
  lemma {:induction false} PathsFromBuilds(fs: seq<FolderVal>, paths: seq<(string, PathItem)>)
    requires PathsFrom(fs, paths).Ok?
    ensures AllBuild(paths)
    decreases paths
  {
    if paths != [] {
      var (fs', k) := FindOrAddFolder(fs, FolderName(paths[0].0));
      MethodsIntoBuilds(fs'[k], paths[0].0, paths[0].1);
      var next := PathStep(fs, paths[0].0, paths[0].1).value;
      assert PathsFrom(fs, paths) == PathsFrom(next, paths[1..]);
      PathsFromBuilds(next, paths[1..]);
      forall i, m | 1 <= i < |paths| && 0 <= m < |paths[i].1|
        ensures MethodAction(paths[i].0, paths[i].1[m].0, paths[i].1[m].1).Ok?
      {
        assert paths[i] == paths[1..][i - 1];
      }
    }
  }

  /** The actions of the draft `transform`'s result: every operation builds
      its action; each file holds exactly the actions of the operations of
      the document keyed to its folder and file name, in document order of
      path, then method; and every operation's folder and file exist. */
  lemma ActionOrder(doc: Doc)
    requires TransformSpec(doc).Ok?
    ensures var fs := TransformSpec(doc).value;
      var slots := DocSlots(doc.paths.value);
      && (forall k, j :: 0 <= k < |fs| && 0 <= j < |fs[k].files| ==>
            fs[k].files[j].actions == P.Select(slots, fs[k].name, fs[k].files[j].name))
      && (forall i :: 0 <= i < |slots| ==>
            && slots[i].folder in ValueFolderNames(fs)
            && slots[i].file in ValueFileNames(fs[IndexOf(ValueFolderNames(fs), slots[i].folder)].files))
      && AllBuild(doc.paths.value)
  {
    var paths := doc.paths.value;
    var fs := PathsFrom([], paths).value;
    var slots := DocSlots(paths);
    PathsFromBuilds([], paths);
    ProjectPathsFrom([], paths);
    var empty: seq<P.FolderT<Action>> := [];
    assert Project([]) == empty;
    assert P.Inv(empty, []);
    P.WalkInv(empty, [], DocPaths(paths));
    assert [] + slots == slots;
    FolderKeysAgree(fs);
    forall k, j | 0 <= k < |fs| && 0 <= j < |fs[k].files|
      ensures fs[k].files[j].actions == P.Select(slots, fs[k].name, fs[k].files[j].name)
    {
      assert P.FolderInv(Project(fs)[k], slots);
    }
    forall i | 0 <= i < |slots|
      ensures slots[i].file in ValueFileNames(fs[IndexOf(ValueFolderNames(fs), slots[i].folder)].files)
    {
      var k := IndexOf(ValueFolderNames(fs), slots[i].folder);
      assert P.FolderInv(Project(fs)[k], slots);
      FileKeysAgree(fs[k]);
    }
  }

  // ---------------------------------------------------------------------
  // the whole transformation

  /** `transform(json)` of the draft: without `paths` it throws; otherwise,
      when it returns, there is one folder per distinct folder name of the
      paths, in order of first appearance; each folder's files have
      distinct names; every action sits in the folder of its path under its
      path's name with its method in capitals; there are exactly as many
      actions as operations; each file holds the actions of the operations
      keyed to it, in document order of path, then method; and every
      operation builds its action. */
  lemma TransformShape(doc: Doc)
    ensures doc.paths.None? ==> TransformSpec(doc).Err?
    ensures TransformSpec(doc).Ok? ==>
      var fs := TransformSpec(doc).value;
      && ValueFolderNames(fs) == Distinct(SrcProps.PathFolders(doc.paths.value))
      && WellFormed(fs)
      && FolderActions(fs) == SrcProps.Operations(doc.paths.value)
      && (forall k, j :: 0 <= k < |fs| && 0 <= j < |fs[k].files| ==>
            fs[k].files[j].actions == P.Select(DocSlots(doc.paths.value), fs[k].name, fs[k].files[j].name))
      && AllBuild(doc.paths.value)
  {
    if TransformSpec(doc).Ok? {
      ActionOrder(doc);
      var paths := doc.paths.value;
      PathsFromWellFormed([], paths);
      PathsFromNames([], paths);
      PathsFromCounts([], paths);
      assert [] + SrcProps.PathFolders(paths) == SrcProps.PathFolders(paths);
    }
  }
}
