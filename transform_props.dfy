/** What `transform` of src/transform.js guarantees about its result: one
    folder per distinct folder name, every action in the folder and under
    the name its path dictates, client file imports that summarize their
    actions, and a model file in each folder for every import of its client
    files. */
module TransformProperties {
  import opened Js
  import opened Strings
  import opened Lists
  import opened Document
  import opened Descriptors
  import opened Folders
  import opened ModelGraph
  import opened Transform
  import P = Placement

  // ---------------------------------------------------------------------
  // the shape of the grouping

  /** The import lists of the actions, one after the other. */
  function AllImports(actions: seq<Action>): seq<Option<string>> {
    if actions == [] then []
    else AllImports(actions[..|actions| - 1]) + ActionImports(actions[|actions| - 1])
  }

  /** A client file's imports are the non-empty imports of its actions,
      each once, in order of first appearance. */
  predicate ImportsSummarize(c: ClientFileVal) {
    c.imports == Distinct(Present(AllImports(c.actions)))
  }

  /** An action belongs in the folder of its path, under its path's name. */
  predicate Placed(folderName: Option<string>, a: Action) {
    folderName == FolderName(a.path) && a.name == ActionName(a.path)
  }

  predicate FolderWellFormed(f: FolderVal) {
    && NoDups(ValueFileNames(f.clientFiles))
    && forall j :: 0 <= j < |f.clientFiles| ==>
         && ImportsSummarize(f.clientFiles[j])
         && forall a :: a in f.clientFiles[j].actions ==> Placed(f.name, a)
  }

  predicate WellFormed(fs: seq<FolderVal>) {
    NoDups(ValueFolderNames(fs)) && forall k :: 0 <= k < |fs| ==> FolderWellFormed(fs[k])
  }

  /** The folder name of each path, in document order. */
  function PathFolders(paths: seq<(string, PathItem)>): (r: seq<Option<string>>)
    ensures |r| == |paths| && forall i :: 0 <= i < |paths| ==> r[i] == FolderName(paths[i].0)
  {
    seq(|paths|, i requires 0 <= i < |paths| => FolderName(paths[i].0))
  }

  /** The first path's folder name heads the list. */
  lemma PathFoldersCons(paths: seq<(string, PathItem)>)
    requires paths != []
    ensures PathFolders(paths) == [FolderName(paths[0].0)] + PathFolders(paths[1..])
  {
    var r := [FolderName(paths[0].0)] + PathFolders(paths[1..]);
    assert forall i :: 0 <= i < |paths| ==> PathFolders(paths)[i] == r[i];
  }

  /** Summarized imports are non-empty and never repeated. */
  lemma SummarizedImportsClean(c: ClientFileVal)
    requires ImportsSummarize(c)
    ensures NoDups(c.imports)
    ensures forall x :: x in c.imports <==> x != "" && Some(x) in AllImports(c.actions)
  {
    DistinctMembers(Present(AllImports(c.actions)));
    PresentMembers(AllImports(c.actions));
  }

  /** Pushing an action and merging its imports, first occurrence kept,
      keeps the imports a summary of the actions. */
  lemma RecordSummarizes(c: ClientFileVal, a: Action)
    requires ImportsSummarize(c)
    ensures ImportsSummarize(Record(c, a))
    ensures Record(c, a).actions == c.actions + [a] && Record(c, a).name == c.name
  {
    var all := AllImports(c.actions);
    assert (c.actions + [a])[..|c.actions|] == c.actions;
    assert AllImports(c.actions + [a]) == all + ActionImports(a);
    PresentAppend(all, ActionImports(a));
    DistinctIdempotentPrefix(Present(all), Present(ActionImports(a)));
  }

  lemma FindOrAddFileWellFormed(f: FolderVal, fileName: string)
    requires FolderWellFormed(f)
    ensures FolderWellFormed(FindOrAddFile(f, fileName).0)
  {
    var g := FindOrAddFile(f, fileName).0;
    if fileName !in ValueFileNames(f.clientFiles) {
      assert ValueFileNames(g.clientFiles) == ValueFileNames(f.clientFiles) + [fileName];
      NoDupsSnoc(ValueFileNames(f.clientFiles), fileName);
      assert ImportsSummarize(g.clientFiles[|f.clientFiles|]);
    }
  }

  lemma RecordAtWellFormed(g: FolderVal, j: nat, a: Action)
    requires FolderWellFormed(g) && j < |g.clientFiles| && Placed(g.name, a)
    ensures FolderWellFormed(g.(clientFiles := g.clientFiles[j := Record(g.clientFiles[j], a)]))
  {
    var h := g.(clientFiles := g.clientFiles[j := Record(g.clientFiles[j], a)]);
    RecordSummarizes(g.clientFiles[j], a);
    assert ValueFileNames(h.clientFiles) == ValueFileNames(g.clientFiles);
    forall i | 0 <= i < |h.clientFiles|
      ensures ImportsSummarize(h.clientFiles[i]) && forall b :: b in h.clientFiles[i].actions ==> Placed(h.name, b)
    {
      if i == j {
        assert h.clientFiles[i].actions == g.clientFiles[j].actions + [a];
      }
    }
  }

  lemma AddActionWellFormed(f: FolderVal, fileName: string, a: Action)
    requires FolderWellFormed(f) && Placed(f.name, a)
    ensures FolderWellFormed(AddAction(f, fileName, a))
  {
    var (g, j) := FindOrAddFile(f, fileName);
    FindOrAddFileWellFormed(f, fileName);
    RecordAtWellFormed(g, j, a);
  }

  lemma {:induction false} MethodsIntoWellFormed(f: FolderVal, path: string, item: PathItem)
    requires FolderWellFormed(f) && f.name == FolderName(path)
    requires MethodsInto(f, path, item).Ok?
    ensures FolderWellFormed(MethodsInto(f, path, item).value)
    decreases item
  {
    if item != [] {
      var (httpMethod, op) := item[0];
      var (fileName, a) := MethodAction(path, httpMethod, op).value;
      AddActionWellFormed(f, fileName, a);
      MethodsIntoWellFormed(AddAction(f, fileName, a), path, item[1..]);
    }
  }

  predicate NoModels(fs: seq<FolderVal>) {
    forall k :: 0 <= k < |fs| ==> fs[k].modelFiles == []
  }

  /** One path keeps the grouping well formed, adds its folder name when it
      is new, and adds no model file. */
  lemma PathStepShape(fs: seq<FolderVal>, path: string, item: PathItem)
    requires WellFormed(fs) && PathStep(fs, path, item).Ok?
    ensures WellFormed(PathStep(fs, path, item).value)
    ensures NoModels(fs) ==> NoModels(PathStep(fs, path, item).value)
  {
    var x := FolderName(path);
    var (fs', k) := FindOrAddFolder(fs, x);
    var names := ValueFolderNames(fs);
    if x !in names {
      assert ValueFolderNames(fs') == names + [x];
      NoDupsSnoc(names, x);
      assert FolderWellFormed(fs'[|fs|]);
    }
    assert WellFormed(fs');
    MethodsIntoWellFormed(fs'[k], path, item);
    var fs'' := PathStep(fs, path, item).value;
    assert ValueFolderNames(fs'') == ValueFolderNames(fs');
  }

  lemma PathStepNames(fs: seq<FolderVal>, path: string, item: PathItem)
    requires NoDups(ValueFolderNames(fs)) && PathStep(fs, path, item).Ok?
    ensures ValueFolderNames(PathStep(fs, path, item).value) == Distinct(ValueFolderNames(fs) + [FolderName(path)])
    ensures NoDups(ValueFolderNames(PathStep(fs, path, item).value))
  {
    var x := FolderName(path);
    var (fs', k) := FindOrAddFolder(fs, x);
    var names := ValueFolderNames(fs);
    if x !in names {
      assert ValueFolderNames(fs') == names + [x];
      NoDupsSnoc(names, x);
    }
    assert ValueFolderNames(PathStep(fs, path, item).value) == ValueFolderNames(fs');
    DistinctOfNoDups(names);
    DistinctSnoc(names, x);
  }

  /** The loop over paths keeps the grouping well formed and adds no model
      file. */
  lemma {:induction false} PathsFromWellFormed(fs: seq<FolderVal>, paths: seq<(string, PathItem)>)
    requires WellFormed(fs) && PathsFrom(fs, paths).Ok?
    ensures WellFormed(PathsFrom(fs, paths).value)
    ensures NoModels(fs) ==> NoModels(PathsFrom(fs, paths).value)
    decreases paths
  {
    if paths != [] {
      PathStepShape(fs, paths[0].0, paths[0].1);
      var fs' := PathStep(fs, paths[0].0, paths[0].1).value;
      assert PathsFrom(fs, paths) == PathsFrom(fs', paths[1..]);
      PathsFromWellFormed(fs', paths[1..]);
    }
  }

  /** The folders the loop over paths yields are the distinct folder names
      of the paths, in order of first appearance. */
  lemma {:induction false} PathsFromNames(fs: seq<FolderVal>, paths: seq<(string, PathItem)>)
    requires NoDups(ValueFolderNames(fs)) && PathsFrom(fs, paths).Ok?
    ensures ValueFolderNames(PathsFrom(fs, paths).value) == Distinct(ValueFolderNames(fs) + PathFolders(paths))
    decreases paths
  {
    if paths == [] {
      assert ValueFolderNames(fs) + PathFolders(paths) == ValueFolderNames(fs);
      DistinctOfNoDups(ValueFolderNames(fs));
    } else {
      var x := FolderName(paths[0].0);
      var names := ValueFolderNames(fs);
      PathStepNames(fs, paths[0].0, paths[0].1);
      var fs' := PathStep(fs, paths[0].0, paths[0].1).value;
      var rest := PathFolders(paths[1..]);
      var out := PathsFrom(fs', paths[1..]).value;
      assert PathsFrom(fs, paths).value == out;
      PathsFromNames(fs', paths[1..]);
      assert ValueFolderNames(out) == Distinct(Distinct(names + [x]) + rest);
      DistinctThrough(names, x, rest);
      PathFoldersCons(paths);
    }
  }

  // ---------------------------------------------------------------------
  // where the actions go, and in which order

  /** A folder reduced to its name and, per client file, its actions. */
  function ProjectFolder(f: FolderVal): (r: P.FolderT<Action>)
    ensures r.name == f.name && |r.files| == |f.clientFiles|
    ensures forall j :: 0 <= j < |f.clientFiles| ==>
      r.files[j] == P.FileT(f.clientFiles[j].name, f.clientFiles[j].actions)
  {
    P.FolderT(f.name, seq(|f.clientFiles|, j requires 0 <= j < |f.clientFiles| =>
      P.FileT(f.clientFiles[j].name, f.clientFiles[j].actions)))
  }

  function Project(fs: seq<FolderVal>): (r: seq<P.FolderT<Action>>)
    ensures |r| == |fs| && forall k :: 0 <= k < |fs| ==> r[k] == ProjectFolder(fs[k])
  {
    seq(|fs|, k requires 0 <= k < |fs| => ProjectFolder(fs[k]))
  }

  /** The client file an operation's action goes to. When `tags` is missing
      `transform` throws, so the placeholder `""` never shows in a result. */
  function OperationFile(op: Operation): string {
    match FileName(op)
    case Ok(n) => n
    case Err(_) => ""
  }

  /** The action an operation contributes. When building it throws,
      `transform` throws, so the placeholder never shows in a result; it
      still carries the operation's path and method. */
  function OperationAction(path: string, httpMethod: string, op: Operation): (r: Action)
    ensures r.path == path && r.httpMethod == httpMethod
    ensures MethodAction(path, httpMethod, op).Ok? ==> r == MethodAction(path, httpMethod, op).value.1
  {
    match MethodAction(path, httpMethod, op)
    case Ok((_, a)) => a
    case Err(_) => Action(ActionName(path), NoType, [], httpMethod, path)
  }

  /** The operations of one path, each with its client file and its action,
      in document order. */
  function PathOps(path: string, item: PathItem): (r: seq<(string, Action)>)
    ensures |r| == |item| && forall i :: 0 <= i < |item| ==>
      r[i] == (OperationFile(item[i].1), OperationAction(path, item[i].0, item[i].1))
  {
    seq(|item|, i requires 0 <= i < |item| => (OperationFile(item[i].1), OperationAction(path, item[i].0, item[i].1)))
  }

  function DocPaths(paths: seq<(string, PathItem)>): (r: seq<(Option<string>, seq<(string, Action)>)>)
    ensures |r| == |paths| && forall i :: 0 <= i < |paths| ==> r[i] == (FolderName(paths[i].0), PathOps(paths[i].0, paths[i].1))
  {
    seq(|paths|, i requires 0 <= i < |paths| => (FolderName(paths[i].0), PathOps(paths[i].0, paths[i].1)))
  }

  /** The action of every operation of the document, in traversal order
      (paths in document order, then each path's methods in document order),
      keyed by its folder and client file. */
  function DocSlots(paths: seq<(string, PathItem)>): seq<P.Slot<Action>> {
    P.Flatten(DocPaths(paths))
  }

  /** The number of operations under a list of paths. */
  function Operations(paths: seq<(string, PathItem)>): nat {
    if paths == [] then 0 else |paths[0].1| + Operations(paths[1..])
  }

  /** The number of actions in a list of folders. */
  function ActionCount(fs: seq<FolderVal>): nat {
    P.Count(Project(fs))
  }

  lemma FileKeysAgree(f: FolderVal)
    ensures P.FileKeys(ProjectFolder(f).files) == ValueFileNames(f.clientFiles)
  {
  }

  lemma FolderKeysAgree(fs: seq<FolderVal>)
    ensures P.FolderKeys(Project(fs)) == ValueFolderNames(fs)
  {
  }

  /** Recording an action is one step of the generic walk. */
  lemma ProjectAddAction(f: FolderVal, fileName: string, a: Action)
    ensures ProjectFolder(AddAction(f, fileName, a)) == P.AddToFolder(ProjectFolder(f), fileName, a)
  {
    var (g, j) := FindOrAddFile(f, fileName);
    var h := AddAction(f, fileName, a);
    var pf := ProjectFolder(f);
    var e := a;
    FileKeysAgree(f);
    if fileName in ValueFileNames(f.clientFiles) {
      assert ProjectFolder(h).files == pf.files[j := P.FileT(fileName, pf.files[j].entries + [e])];
    } else {
      assert j == |f.clientFiles| && h.clientFiles == f.clientFiles + [Record(ClientFileVal(fileName, [], []), a)];
      assert Record(ClientFileVal(fileName, [], []), a).actions == [a];
      var got := ProjectFolder(h).files;
      assert |got| == |pf.files| + 1;
      assert forall n :: 0 <= n < |pf.files| ==> got[n] == pf.files[n];
      assert got[|pf.files|] == P.FileT(fileName, [e]);
      assert got == pf.files + [P.FileT(fileName, [e])];
    }
  }

  lemma PathOpsCons(path: string, item: PathItem)
    requires item != []
    ensures PathOps(path, item)[0] == (OperationFile(item[0].1), OperationAction(path, item[0].0, item[0].1))
    ensures PathOps(path, item)[1..] == PathOps(path, item[1..])
  {
  }

  /** The operations of one path are the generic walk's operations in one
      folder. */
  lemma {:induction false} ProjectMethodsInto(f: FolderVal, path: string, item: PathItem)
    requires MethodsInto(f, path, item).Ok?
    ensures ProjectFolder(MethodsInto(f, path, item).value) == P.FolderFold(ProjectFolder(f), PathOps(path, item))
    decreases item
  {
    if item != [] {
      var (httpMethod, op) := item[0];
      var (fileName, a) := MethodAction(path, httpMethod, op).value;
      assert fileName == OperationFile(op) && a == OperationAction(path, httpMethod, op);
      ProjectAddAction(f, fileName, a);
      ProjectMethodsInto(AddAction(f, fileName, a), path, item[1..]);
      PathOpsCons(path, item);
    }
  }

  lemma ProjectUpdate(fs: seq<FolderVal>, k: nat, f: FolderVal)
    requires k < |fs|
    ensures Project(fs[k := f]) == Project(fs)[k := ProjectFolder(f)]
  {
  }

  lemma ProjectSnoc(fs: seq<FolderVal>, f: FolderVal)
    ensures Project(fs + [f]) == Project(fs) + [ProjectFolder(f)]
  {
  }

  /** One path is one step of the generic walk. */
  lemma ProjectPathStep(fs: seq<FolderVal>, path: string, item: PathItem)
    requires PathStep(fs, path, item).Ok?
    ensures Project(PathStep(fs, path, item).value) == P.AddPath(Project(fs), FolderName(path), PathOps(path, item))
  {
    var x := FolderName(path);
    var (fs', k) := FindOrAddFolder(fs, x);
    var f := MethodsInto(fs'[k], path, item).value;
    FolderKeysAgree(fs);
    ProjectMethodsInto(fs'[k], path, item);
    if x in ValueFolderNames(fs) {
      ProjectUpdate(fs, k, f);
    } else {
      var empty := FolderVal(x, [], []);
      assert ProjectFolder(empty) == P.FolderT(x, []);
      assert fs'[k := f] == fs + [f];
      ProjectSnoc(fs, f);
    }
  }

  /** The loop over paths is the generic walk. */
  lemma {:induction false} ProjectPathsFrom(fs: seq<FolderVal>, paths: seq<(string, PathItem)>)
    requires PathsFrom(fs, paths).Ok?
    ensures Project(PathsFrom(fs, paths).value) == P.Walk(Project(fs), DocPaths(paths))
    decreases paths
  {
    if paths != [] {
      ProjectPathStep(fs, paths[0].0, paths[0].1);
      var fs' := PathStep(fs, paths[0].0, paths[0].1).value;
      assert PathsFrom(fs, paths) == PathsFrom(fs', paths[1..]);
      ProjectPathsFrom(fs', paths[1..]);
      assert DocPaths(paths)[1..] == DocPaths(paths[1..]);
    }
  }

  lemma {:induction false} SlotCount(paths: seq<(string, PathItem)>)
    ensures |DocSlots(paths)| == Operations(paths)
    decreases paths
  {
    if paths != [] {
      assert DocPaths(paths)[1..] == DocPaths(paths[1..]);
      SlotCount(paths[1..]);
    }
  }

  /** Every operation under `paths` builds its action. */
  ghost predicate AllBuild(paths: seq<(string, PathItem)>) {
    forall i, m :: 0 <= i < |paths| && 0 <= m < |paths[i].1| ==>
      MethodAction(paths[i].0, paths[i].1[m].0, paths[i].1[m].1).Ok?
  }

  /** A path's operations succeed only when every one of them builds its
      action. */
  lemma {:induction false} MethodsIntoBuilds(f: FolderVal, path: string, item: PathItem)
    requires MethodsInto(f, path, item).Ok?
    ensures forall m :: 0 <= m < |item| ==> MethodAction(path, item[m].0, item[m].1).Ok?
    decreases item
  {
    if item != [] {
      var (fileName, a) := MethodAction(path, item[0].0, item[0].1).value;
      MethodsIntoBuilds(AddAction(f, fileName, a), path, item[1..]);
      forall m | 1 <= m < |item|
        ensures MethodAction(path, item[m].0, item[m].1).Ok?
      {
        assert item[m] == item[1..][m - 1];
      }
    }
  }

  /** The loop over paths succeeds only when every operation builds its
      action. */
  lemma {:induction false} PathsFromBuilds(fs: seq<FolderVal>, paths: seq<(string, PathItem)>)
    requires PathsFrom(fs, paths).Ok?
    ensures AllBuild(paths)
    decreases paths
  {
    if paths != [] {
      var (fs', k) := FindOrAddFolder(fs, FolderName(paths[0].0));
      MethodsIntoBuilds(fs'[k], paths[0].0, paths[0].1);
      var next := PathStep(fs, paths[0].0, paths[0].1).value;
      assert PathsFrom(fs, paths) == PathsFrom(next, paths[1..]);
      PathsFromBuilds(next, paths[1..]);
      forall i, m | 1 <= i < |paths| && 0 <= m < |paths[i].1|
        ensures MethodAction(paths[i].0, paths[i].1[m].0, paths[i].1[m].1).Ok?
      {
        assert paths[i] == paths[1..][i - 1];
      }
    }
  }

  /** What the invariant of the generic walk says about folders, in their
      own terms. */
  lemma ReadInv(fs: seq<FolderVal>, slots: seq<P.Slot<Action>>)
    requires P.Inv(Project(fs), slots)
    ensures forall k, j :: 0 <= k < |fs| && 0 <= j < |fs[k].clientFiles| ==>
      fs[k].clientFiles[j].actions == P.Select(slots, fs[k].name, fs[k].clientFiles[j].name)
    ensures forall i :: 0 <= i < |slots| ==>
      && slots[i].folder in ValueFolderNames(fs)
      && slots[i].file in ValueFileNames(fs[IndexOf(ValueFolderNames(fs), slots[i].folder)].clientFiles)
  {
    FolderKeysAgree(fs);
    forall k, j | 0 <= k < |fs| && 0 <= j < |fs[k].clientFiles|
      ensures fs[k].clientFiles[j].actions == P.Select(slots, fs[k].name, fs[k].clientFiles[j].name)
    {
      assert P.FolderInv(Project(fs)[k], slots);
    }
    forall i | 0 <= i < |slots|
      ensures slots[i].file in ValueFileNames(fs[IndexOf(ValueFolderNames(fs), slots[i].folder)].clientFiles)
    {
      var k := IndexOf(ValueFolderNames(fs), slots[i].folder);
      assert P.FolderInv(Project(fs)[k], slots);
      FileKeysAgree(fs[k]);
    }
  }

  /** The grouping of `transform`: each client file holds the actions of
      exactly the operations keyed to its folder and file, in traversal
      order (paths in document order, then methods in document order); the
      folder and file of every operation exist; and there is one action per
      operation. */
  lemma {:induction false} GroupingOrder(paths: seq<(string, PathItem)>)
    requires PathsFrom([], paths).Ok?
    ensures var fs := PathsFrom([], paths).value;
      && P.Inv(Project(fs), DocSlots(paths))
      && ActionCount(fs) == Operations(paths)
  {
    ProjectPathsFrom([], paths);
    var empty: seq<P.FolderT<Action>> := [];
    assert Project([]) == empty;
    assert P.Inv(empty, []);
    P.WalkInv(empty, [], DocPaths(paths));
    assert [] + DocSlots(paths) == DocSlots(paths);
    P.WalkCount(empty, DocPaths(paths));
    SlotCount(paths);
  }

  /** The actions of `transform`'s result: every operation builds its
      action; each client file holds exactly the actions of the operations
      of the document keyed to its folder and file name, in document order
      of path, then method; every operation's folder and client file exist;
      and there is exactly one action per operation. */
  lemma ActionOrder(doc: Doc, rank: map<string, nat>)
    requires Acyclic(ComponentSchemas(doc), rank)
    requires TransformSpec(doc, rank).Ok?
    ensures var fs := TransformSpec(doc, rank).value;
      var slots := DocSlots(doc.paths.value);
      && (forall k, j :: 0 <= k < |fs| && 0 <= j < |fs[k].clientFiles| ==>
            fs[k].clientFiles[j].actions == P.Select(slots, fs[k].name, fs[k].clientFiles[j].name))
      && (forall i :: 0 <= i < |slots| ==>
            && slots[i].folder in ValueFolderNames(fs)
            && slots[i].file in ValueFileNames(fs[IndexOf(ValueFolderNames(fs), slots[i].folder)].clientFiles))
      && ActionCount(fs) == Operations(doc.paths.value)
      && AllBuild(doc.paths.value)
  {
    var paths := doc.paths.value;
    var grouped := PathsFrom([], paths).value;
    GroupingOrder(paths);
    PathsFromBuilds([], paths);
    assert TransformSpec(doc, rank) == BuildFrom(ComponentSchemas(doc), grouped, 0, rank);
    BuildFromRegisters(ComponentSchemas(doc), grouped, 0, rank);
    var fs := TransformSpec(doc, rank).value;
    assert Project(fs) == Project(grouped);
    ReadInv(fs, DocSlots(paths));
  }

  // ---------------------------------------------------------------------
  // the model files of the second phase

  /** `putModelFile` over a list of imports only appends, registers every
      non-empty import, and, outside inline enums, keeps model names
      distinct. */
  lemma {:induction false} ModelsFromRegisters(components: Option<Schemas>, models: seq<ModelFile>, imports: seq<string>, rank: map<string, nat>)
    requires Acyclic(components, rank) && ModelsFrom(components, models, imports, rank).Ok?
    ensures var r := ModelsFrom(components, models, imports, rank).value;
      && |models| <= |r| && r[..|models|] == models
      && (forall x :: x in imports && x != "" ==> HasModel(r, x))
      && (NoInlineEnums(components) && NoDups(ModelNames(models)) ==> NoDups(ModelNames(r)))
    decreases imports
  {
    if imports != [] {
      var r := ModelsFrom(components, models, imports, rank).value;
      var m := PutModel(components, models, Some(imports[0]), rank).value;
      PutModelExtends(components, models, Some(imports[0]), rank);
      if NoInlineEnums(components) && NoDups(ModelNames(models)) {
        PutModelUnique(components, models, Some(imports[0]), rank);
      }
      ModelsFromRegisters(components, m, imports[1..], rank);
      assert r[..|m|][..|models|] == r[..|models|];
      if imports[0] != "" {
        HasModelPrefix(m, r, imports[0]);
      }
      forall x | x in imports && x != ""
        ensures HasModel(r, x)
      {
        if x != imports[0] {
          assert x in imports[1..];
        }
      }
    }
  }

  lemma {:induction false} ModelsFromFilesRegisters(components: Option<Schemas>, models: seq<ModelFile>, files: seq<ClientFileVal>, rank: map<string, nat>)
    requires Acyclic(components, rank) && ModelsFromFiles(components, models, files, rank).Ok?
    ensures var r := ModelsFromFiles(components, models, files, rank).value;
      && |models| <= |r| && r[..|models|] == models
      && (forall j, x :: 0 <= j < |files| && x in files[j].imports && x != "" ==> HasModel(r, x))
      && (NoInlineEnums(components) && NoDups(ModelNames(models)) ==> NoDups(ModelNames(r)))
    decreases files
  {
    if files != [] {
      var r := ModelsFromFiles(components, models, files, rank).value;
      var m := ModelsFrom(components, models, files[0].imports, rank).value;
      ModelsFromRegisters(components, models, files[0].imports, rank);
      ModelsFromFilesRegisters(components, m, files[1..], rank);
      assert r[..|m|][..|models|] == r[..|models|];
      forall j, x | 0 <= j < |files| && x in files[j].imports && x != ""
        ensures HasModel(r, x)
      {
        if j == 0 {
          HasModelPrefix(m, r, x);
        } else {
          assert files[1..][j - 1] == files[j];
        }
      }
    }
  }

  /** The second phase from folder `k` on leaves names and client files
      alone, leaves the folders before `k` alone, and from `k` on only
      appends model files, registering every import of every client file. */
  lemma {:induction false} BuildFromRegisters(components: Option<Schemas>, fs: seq<FolderVal>, k: nat, rank: map<string, nat>)
    requires Acyclic(components, rank) && k <= |fs| && BuildFrom(components, fs, k, rank).Ok?
    ensures var r := BuildFrom(components, fs, k, rank).value;
      && |r| == |fs|
      && (forall i :: 0 <= i < |fs| ==> r[i].name == fs[i].name && r[i].clientFiles == fs[i].clientFiles)
      && (forall i :: 0 <= i < k ==> r[i] == fs[i])
      && (forall i :: k <= i < |fs| ==>
            && |fs[i].modelFiles| <= |r[i].modelFiles| && r[i].modelFiles[..|fs[i].modelFiles|] == fs[i].modelFiles
            && forall j, x :: 0 <= j < |fs[i].clientFiles| && x in fs[i].clientFiles[j].imports && x != "" ==>
                 HasModel(r[i].modelFiles, x))
      && (forall i :: k <= i < |fs| && NoInlineEnums(components) && NoDups(ModelNames(fs[i].modelFiles)) ==>
            NoDups(ModelNames(r[i].modelFiles)))
    decreases |fs| - k
  {
    if k < |fs| {
      var models := ModelsFromFiles(components, fs[k].modelFiles, fs[k].clientFiles, rank).value;
      ModelsFromFilesRegisters(components, fs[k].modelFiles, fs[k].clientFiles, rank);
      var fs' := fs[k := fs[k].(modelFiles := models)];
      BuildFromRegisters(components, fs', k + 1, rank);
    }
  }

  // ---------------------------------------------------------------------
  // the whole transformation

  /** The second phase on a well-formed grouping without model files keeps
      the folder names and the well-formedness, gives every non-empty import
      of a client file a model file in its folder, and, when no object
      property is an inline enum, keeps model names in a folder distinct. */
  lemma BuildShape(components: Option<Schemas>, grouped: seq<FolderVal>, rank: map<string, nat>)
    requires Acyclic(components, rank) && WellFormed(grouped) && NoModels(grouped)
    requires BuildFrom(components, grouped, 0, rank).Ok?
    ensures var fs := BuildFrom(components, grouped, 0, rank).value;
      && ValueFolderNames(fs) == ValueFolderNames(grouped)
      && WellFormed(fs)
      && (forall k, j, x :: 0 <= k < |fs| && 0 <= j < |fs[k].clientFiles| && x in fs[k].clientFiles[j].imports ==>
            HasModel(fs[k].modelFiles, x))
      && (NoInlineEnums(components) ==> forall k :: 0 <= k < |fs| ==> NoDups(ModelNames(fs[k].modelFiles)))
  {
    BuildFromRegisters(components, grouped, 0, rank);
    var fs := BuildFrom(components, grouped, 0, rank).value;
    forall k | 0 <= k < |fs|
      ensures FolderWellFormed(fs[k])
    {
      assert FolderWellFormed(grouped[k]);
    }
    forall k, j, x | 0 <= k < |fs| && 0 <= j < |fs[k].clientFiles| && x in fs[k].clientFiles[j].imports
      ensures HasModel(fs[k].modelFiles, x)
    {
      SummarizedImportsClean(grouped[k].clientFiles[j]);
    }
    if NoInlineEnums(components) {
      forall k | 0 <= k < |fs|
        ensures NoDups(ModelNames(fs[k].modelFiles))
      {
        assert ModelNames(grouped[k].modelFiles) == [];
      }
    }
  }

  /** `transform(json)`: without `paths` it throws; otherwise, when it
      returns, there is one folder per distinct folder name of the paths, in
      order of first appearance; each folder's client files have distinct
      names; every action sits in the folder of its path under its path's
      name; every client file's imports are its actions' non-empty imports,
      each once; every such import has a model file in the same folder;
      when no object property is an inline enum, model names in a folder are
      distinct; each client file holds the actions of the operations keyed
      to it, in document order of path, then method; every operation builds
      its action; and there is one action per operation. */
  lemma TransformShape(doc: Doc, rank: map<string, nat>)
    requires Acyclic(ComponentSchemas(doc), rank)
    ensures doc.paths.None? ==> TransformSpec(doc, rank).Err?
    ensures TransformSpec(doc, rank).Ok? ==>
      var fs := TransformSpec(doc, rank).value;
      && ValueFolderNames(fs) == Distinct(PathFolders(doc.paths.value))
      && WellFormed(fs)
      && (forall k, j, x :: 0 <= k < |fs| && 0 <= j < |fs[k].clientFiles| && x in fs[k].clientFiles[j].imports ==>
            HasModel(fs[k].modelFiles, x))
      && (NoInlineEnums(ComponentSchemas(doc)) ==> forall k :: 0 <= k < |fs| ==> NoDups(ModelNames(fs[k].modelFiles)))
      && (forall k, j :: 0 <= k < |fs| && 0 <= j < |fs[k].clientFiles| ==>
            fs[k].clientFiles[j].actions == P.Select(DocSlots(doc.paths.value), fs[k].name, fs[k].clientFiles[j].name))
      && ActionCount(fs) == Operations(doc.paths.value)
      && AllBuild(doc.paths.value)
  {
    if TransformSpec(doc, rank).Ok? {
      ActionOrder(doc, rank);
      var paths := doc.paths.value;
      var grouped := PathsFrom([], paths).value;
      PathsFromWellFormed([], paths);
      PathsFromNames([], paths);
      assert [] + PathFolders(paths) == PathFolders(paths);
      assert TransformSpec(doc, rank) == BuildFrom(ComponentSchemas(doc), grouped, 0, rank);
      BuildShape(ComponentSchemas(doc), grouped, rank);
    }
  }
}
