/** `transform` of src/transform.js: groups the operations of the document
    into folders (by first path segment) and client files (by first tag),
    then registers in each folder the model files its client files import. */
module Transform {
  import opened Js
  import opened Strings
  import opened Lists
  import opened Document
  import opened Descriptors
  import opened Extractor
  import opened Folders
  import opened ModelGraph

  /** `getFileName(methodInfo)`: the first tag plus `Client`. Without `tags`
      reading `tags[0]` throws; an empty list gives `undefined` as text. */
  function FileName(op: Operation): (r: Result<string>)
    ensures r.Err? <==> op.tags.None?
    ensures op.tags.Some? && op.tags.value != [] ==> r == Ok(op.tags.value[0] + "Client")
    ensures op.tags == Some([]) ==> r == Ok("undefinedClient")
  {
    if op.tags.None? then Err(TypeError("methodInfo.tags[0]"))
    else
      var first := if op.tags.value == [] then None else Some(op.tags.value[0]);
      assert Text(None) + "Client" == "undefinedClient";
      Ok(Text(first) + "Client")
  }

  /** The client file and the action one operation contributes, with the
      first error among file name, return type and parameters. */
  function MethodAction(path: string, httpMethod: string, op: Operation): Result<(string, Action)> {
    var fileName :- FileName(op);
    var returnType :- GetReturnType(op);
    var parameters :- Parameters(httpMethod, op);
    Ok((fileName, Action(ActionName(path), returnType, parameters, httpMethod, path)))
  }

  /** The client file after one action is pushed: the action at the end,
      and the action's non-empty imports merged into the imports, first
      occurrence kept. */
  function Record(c: ClientFileVal, a: Action): ClientFileVal {
    c.(actions := c.actions + [a], imports := Distinct(c.imports + Present(ActionImports(a))))
  }

  /** A folder after `getClientFile` and the push of one action. */
  function AddAction(f: FolderVal, fileName: string, a: Action): (r: FolderVal)
    ensures r.name == f.name && r.modelFiles == f.modelFiles
  {
    var (g, j) := FindOrAddFile(f, fileName);
    g.(clientFiles := g.clientFiles[j := Record(g.clientFiles[j], a)])
  }

  /** One operation of a path: its action recorded in its client file. */
  function MethodStep(f: FolderVal, path: string, httpMethod: string, op: Operation): (r: Result<FolderVal>)
    ensures r.Ok? ==> r.value.name == f.name && r.value.modelFiles == f.modelFiles
  {
    var (fileName, a) :- MethodAction(path, httpMethod, op);
    Ok(AddAction(f, fileName, a))
  }

  /** The loop over the operations of one path, all into that path's folder. */
  function MethodsInto(f: FolderVal, path: string, item: PathItem): (r: Result<FolderVal>)
    ensures r.Ok? ==> r.value.name == f.name && r.value.modelFiles == f.modelFiles
    decreases item
  {
    if item == [] then Ok(f)
    else
      var f' :- MethodStep(f, path, item[0].0, item[0].1);
      MethodsInto(f', path, item[1..])
  }

  /** One path: its folder found or created, then its operations read. */
  function PathStep(fs: seq<FolderVal>, path: string, item: PathItem): (r: Result<seq<FolderVal>>)
  {
    var (fs', k) := FindOrAddFolder(fs, FolderName(path));
    var f :- MethodsInto(fs'[k], path, item);
    Ok(fs'[k := f])
  }

  /** The loop over paths. */
  function PathsFrom(fs: seq<FolderVal>, paths: seq<(string, PathItem)>): Result<seq<FolderVal>>
    decreases paths
  {
    if paths == [] then Ok(fs)
    else
      var fs' :- PathStep(fs, paths[0].0, paths[0].1);
      PathsFrom(fs', paths[1..])
  }

  /** The first phase of `transform`: folders and client files. */
  function Grouping(doc: Doc): Result<seq<FolderVal>> {
    if doc.paths.None? then Err(TypeError("Object.entries(json.paths)"))
    else PathsFrom([], doc.paths.value)
  }

  /** `putModelFile` for each import, in order. */
  function ModelsFrom(components: Option<Schemas>, models: seq<ModelFile>, imports: seq<string>, rank: map<string, nat>): Result<seq<ModelFile>>
    requires Acyclic(components, rank)
    decreases imports
  {
    if imports == [] then Ok(models)
    else
      var models' :- PutModel(components, models, Some(imports[0]), rank);
      ModelsFrom(components, models', imports[1..], rank)
  }

  /** The imports of each client file, in order. */
  function ModelsFromFiles(components: Option<Schemas>, models: seq<ModelFile>, files: seq<ClientFileVal>, rank: map<string, nat>): Result<seq<ModelFile>>
    requires Acyclic(components, rank)
    decreases files
  {
    if files == [] then Ok(models)
    else
      var models' :- ModelsFrom(components, models, files[0].imports, rank);
      ModelsFromFiles(components, models', files[1..], rank)
  }

  /** The second phase of `transform`, from folder `k` on. */
  function BuildFrom(components: Option<Schemas>, fs: seq<FolderVal>, k: nat, rank: map<string, nat>): (r: Result<seq<FolderVal>>)
    requires Acyclic(components, rank) && k <= |fs|
    ensures r.Ok? ==> |r.value| == |fs|
    decreases |fs| - k
  {
    if k == |fs| then Ok(fs)
    else
      var models :- ModelsFromFiles(components, fs[k].modelFiles, fs[k].clientFiles, rank);
      BuildFrom(components, fs[k := fs[k].(modelFiles := models)], k + 1, rank)
  }

  /** `transform(json)` on values. */
  function TransformSpec(doc: Doc, rank: map<string, nat>): Result<seq<FolderVal>>
    requires Acyclic(ComponentSchemas(doc), rank)
  {
    var fs :- Grouping(doc);
    BuildFrom(ComponentSchemas(doc), fs, 0, rank)
  }

  // ---------------------------------------------------------------------
  // the procedure itself

  /** `transform(json)`. */
  method Transform(doc: Doc, ghost rank: map<string, nat>) returns (r: Result<seq<Folder>>)
    requires Acyclic(ComponentSchemas(doc), rank)
    ensures r.Ok? <==> TransformSpec(doc, rank).Ok?
    ensures r.Err? ==> r.error == TransformSpec(doc, rank).error
    ensures r.Ok? ==> Snapshot(r.value) == TransformSpec(doc, rank).value
    ensures r.Ok? ==> Separate(r.value) && forall j :: 0 <= j < |r.value| ==> fresh(r.value[j])
    ensures r.Ok? ==> forall j, x :: 0 <= j < |r.value| && 0 <= x < |r.value[j].clientFiles| ==> fresh(r.value[j].clientFiles[x])
  {
    if doc.paths.None? {
      return Err(TypeError("Object.entries(json.paths)"));
    }
    var folders := GroupPaths(doc.paths.value);
    if folders.Err? {
      return Err(folders.error);
    }
    r := RegisterModels(ComponentSchemas(doc), folders.value, rank);
  }

  /** The first phase: the loop over paths. */
  method GroupPaths(paths: seq<(string, PathItem)>) returns (r: Result<seq<Folder>>)
    ensures r.Ok? <==> PathsFrom([], paths).Ok?
    ensures r.Err? ==> r.error == PathsFrom([], paths).error
    ensures r.Ok? ==> Snapshot(r.value) == PathsFrom([], paths).value
    ensures r.Ok? ==> Separate(r.value) && forall j :: 0 <= j < |r.value| ==> fresh(r.value[j])
    ensures r.Ok? ==> forall j, x :: 0 <= j < |r.value| && 0 <= x < |r.value[j].clientFiles| ==> fresh(r.value[j].clientFiles[x])
  {
    var folders: seq<Folder> := [];
    var i := 0;
    while i < |paths|
      invariant 0 <= i <= |paths|
      invariant Separate(folders)
      invariant forall j :: 0 <= j < |folders| ==> fresh(folders[j])
      invariant forall j, x :: 0 <= j < |folders| && 0 <= x < |folders[j].clientFiles| ==> fresh(folders[j].clientFiles[x])
      invariant PathsFrom(Snapshot(folders), paths[i..]) == PathsFrom([], paths)
    {
      assert paths[i..][1..] == paths[i + 1..];
      var next := AddPath(folders, paths[i].0, paths[i].1);
      if next.Err? {
        return Err(next.error);
      }
      folders := next.value;
      i := i + 1;
    }
    assert PathsFrom(Snapshot(folders), paths[|paths|..]) == Ok(Snapshot(folders));
    return Ok(folders);
  }

  /** The body of the loop over paths: `getFolder`, then the operations of
      the path. Folders are only appended, client files only appended to
      their folder, and whatever is appended is new. */
  method AddPath(folders: seq<Folder>, path: string, pathInfo: PathItem) returns (r: Result<seq<Folder>>)
    requires Separate(folders)
    modifies Footprint(folders)
    ensures var spec := PathStep(old(Snapshot(folders)), path, pathInfo);
      && (r.Ok? <==> spec.Ok?)
      && (r.Err? ==> r.error == spec.error)
      && (r.Ok? ==> Snapshot(r.value) == spec.value && Separate(r.value))
    ensures r.Ok? ==> |folders| <= |r.value| && forall j :: 0 <= j < |folders| ==> r.value[j] == folders[j]
    ensures r.Ok? ==> forall j :: |folders| <= j < |r.value| ==> fresh(r.value[j])
    ensures r.Ok? ==> forall j, x :: 0 <= j < |r.value| && 0 <= x < |r.value[j].clientFiles| ==>
      (j < |folders| && x < |old(folders[j].clientFiles)| && r.value[j].clientFiles[x] == old(folders[j].clientFiles[x]))
      || fresh(r.value[j].clientFiles[x])
  {
    var actionName := ActionName(path);
    var folderName := FolderName(path);
    var folders', folder := GetFolder(folders, folderName);
    ghost var mid := seq(|folders'|, j requires 0 <= j < |folders'| reads folders' => folders'[j].clientFiles);
    ghost var k := FindOrAddFolder(old(Snapshot(folders)), folderName).1;
    ghost var found := Snapshot(folders');
    assert found[k] == folder.Value();
    var added := AddPathOperations(folders', k, folder, path, actionName, pathInfo);
    if added.Err? {
      return Err(added.error);
    }
    assert Snapshot(folders') == found[k := MethodsInto(found[k], path, pathInfo).value];
    forall j, x | 0 <= j < |folders'| && 0 <= x < |folders'[j].clientFiles| && !fresh(folders'[j].clientFiles[x])
      ensures j < |folders| && x < |old(folders[j].clientFiles)| && folders'[j].clientFiles[x] == old(folders[j].clientFiles[x])
    {
      if j < |folders| {
        assert old(folders[j].clientFiles) == mid[j];
      }
    }
    return Ok(folders');
  }

  /** The operations of one path added to folder `k` of `folders`: only that
      folder changes, its client files are only appended, and the folders
      stay separate. */
  method AddPathOperations(ghost folders: seq<Folder>, ghost k: nat, folder: Folder, path: string, actionName: string, pathInfo: PathItem)
      returns (r: Result<()>)
    requires k < |folders| && folders[k] == folder && Separate(folders)
    requires actionName == ActionName(path)
    modifies folder`clientFiles, folder.clientFiles
    ensures var spec := MethodsInto(old(folder.Value()), path, pathInfo);
      && (r.Ok? <==> spec.Ok?)
      && (r.Err? ==> r.error == spec.error)
      && (r.Ok? ==> Snapshot(folders) == old(Snapshot(folders))[k := spec.value])
    ensures r.Ok? ==> Separate(folders)
    ensures forall j, x :: 0 <= j < |folders| && 0 <= x < |folders[j].clientFiles| ==>
      (x < |old(folders[j].clientFiles)| && folders[j].clientFiles[x] == old(folders[j].clientFiles[x]))
      || fresh(folders[j].clientFiles[x])
  {
    SeparateObjects(folders);
    ghost var before := Snapshot(folders);
    r := AddOperations(folder, path, actionName, pathInfo);
    assert forall j :: 0 <= j < |folders| && j != k ==> folders[j].clientFiles == old(folders[j].clientFiles);
    if r.Ok? {
      assert forall j :: 0 <= j < |folders| && j != k ==> folders[j].Value() == before[j];
      OneFolderChanged(folders, k, before);
      forall a, b, x, y | 0 <= a < |folders| && 0 <= b < |folders| && a != b &&
          0 <= x < |folders[a].clientFiles| && 0 <= y < |folders[b].clientFiles|
        ensures folders[a].clientFiles[x] != folders[b].clientFiles[y]
      {
        if a == k {
          if x < |old(folder.clientFiles)| {
            assert old(folders[a].clientFiles[x] != folders[b].clientFiles[y]);
          }
        } else if b == k {
          if y < |old(folder.clientFiles)| {
            assert old(folders[a].clientFiles[x] != folders[b].clientFiles[y]);
          }
        } else {
          assert old(folders[a].clientFiles[x] != folders[b].clientFiles[y]);
        }
      }
    }
  }

  /** The inner loop of the first phase: for each operation of one path,
      `getClientFile` in the path's folder, then the action recorded in the
      client file. */
  method AddOperations(folder: Folder, path: string, actionName: string, pathInfo: PathItem) returns (r: Result<()>)
    requires actionName == ActionName(path)
    requires NoDups(FileNames(folder.clientFiles))
    modifies folder`clientFiles, folder.clientFiles
    ensures NoDups(FileNames(folder.clientFiles))
    ensures |old(folder.clientFiles)| <= |folder.clientFiles| && forall x :: 0 <= x < |old(folder.clientFiles)| ==> folder.clientFiles[x] == old(folder.clientFiles)[x]
    ensures forall x :: |old(folder.clientFiles)| <= x < |folder.clientFiles| ==> fresh(folder.clientFiles[x])
    ensures var spec := MethodsInto(old(folder.Value()), path, pathInfo);
      && (r.Ok? <==> spec.Ok?)
      && (r.Err? ==> r.error == spec.error)
      && (r.Ok? ==> folder.Value() == spec.value)
  {
    var j := 0;
    while j < |pathInfo|
      invariant 0 <= j <= |pathInfo|
      invariant NoDups(FileNames(folder.clientFiles))
      invariant |old(folder.clientFiles)| <= |folder.clientFiles| && forall x :: 0 <= x < |old(folder.clientFiles)| ==> folder.clientFiles[x] == old(folder.clientFiles)[x]
      invariant forall x :: |old(folder.clientFiles)| <= x < |folder.clientFiles| ==> fresh(folder.clientFiles[x])
      invariant MethodsInto(folder.Value(), path, pathInfo[j..]) == MethodsInto(old(folder.Value()), path, pathInfo)
    {
      assert pathInfo[j..][1..] == pathInfo[j + 1..];
      assert forall x :: 0 <= x < |folder.clientFiles| ==> folder.clientFiles[x] in old(folder.clientFiles) || fresh(folder.clientFiles[x]);
      ghost var prev := folder.clientFiles;
      var added := AddOperation(folder, path, actionName, pathInfo[j].0, pathInfo[j].1);
      forall x | |old(folder.clientFiles)| <= x < |folder.clientFiles|
        ensures fresh(folder.clientFiles[x])
      {
        if x < |prev| {
          assert folder.clientFiles[x] == prev[x];
        }
      }
      if added.Err? {
        return added;
      }
      j := j + 1;
    }
    return Ok(());
  }

  /** The body of the inner loop: one operation. Its client file is found
      or appended. */
  method AddOperation(folder: Folder, path: string, actionName: string, httpMethod: string, methodInfo: Operation) returns (r: Result<()>)
    requires actionName == ActionName(path)
    requires NoDups(FileNames(folder.clientFiles))
    modifies folder`clientFiles, folder.clientFiles
    ensures NoDups(FileNames(folder.clientFiles))
    ensures |old(folder.clientFiles)| <= |folder.clientFiles| && forall x :: 0 <= x < |old(folder.clientFiles)| ==> folder.clientFiles[x] == old(folder.clientFiles)[x]
    ensures forall x :: |old(folder.clientFiles)| <= x < |folder.clientFiles| ==> fresh(folder.clientFiles[x])
    ensures var spec := MethodStep(old(folder.Value()), path, httpMethod, methodInfo);
      && (r.Ok? <==> spec.Ok?)
      && (r.Err? ==> r.error == spec.error)
      && (r.Ok? ==> folder.Value() == spec.value)
  {
    var fileName := FileName(methodInfo);
    if fileName.Err? {
      return Err(fileName.error);
    }
    ghost var current := folder.Value();
    var clientFile := GetClientFile(folder, fileName.value);
    ghost var jj := FindOrAddFile(current, fileName.value).1;
    ghost var files := folder.clientFiles;
    var returnType := GetReturnType(methodInfo);
    if returnType.Err? {
      return Err(returnType.error);
    }
    var parameters := GetParameters(httpMethod, methodInfo);
    if parameters.Err? {
      return Err(parameters.error);
    }
    var action := Action(actionName, returnType.value, parameters.value, httpMethod, path);
    RecordAction(folder, jj, clientFile, action);
    assert folder.clientFiles == files;
    return Ok(());
  }

  /** One action pushed into a client file, and the non-empty imports of
      its parameters and return type merged into the file's imports, each
      kept once. */
  method RecordAction(ghost folder: Folder, ghost j: nat, clientFile: ClientFile, action: Action)
    requires j < |folder.clientFiles| && folder.clientFiles[j] == clientFile
    requires NoDups(FileNames(folder.clientFiles))
    modifies clientFile
    ensures clientFile.Value() == Record(old(clientFile.Value()), action)
    ensures folder.Value() == old(folder.Value()).(clientFiles := old(folder.Value()).clientFiles[j := clientFile.Value()])
  {
    ghost var values := FileValues(folder.clientFiles);
    DistinctFiles(folder.clientFiles);
    var imports: seq<Option<string>> := [];
    if |action.parameters| > 0 {
      imports := imports + ImportTypes(action.parameters);
    }
    if action.returnType.Typed? && Truthy(action.returnType.desc.importType) {
      imports := imports + [action.returnType.desc.importType];
    }
    assert imports == ActionImports(action);
    clientFile.actions := clientFile.actions + [action];
    clientFile.imports := Distinct(clientFile.imports + Present(imports));
    OneFileChanged(folder.clientFiles, j, values);
  }

  /** The second phase: the loop over folders. */
  method RegisterModels(components: Option<Schemas>, folders: seq<Folder>, ghost rank: map<string, nat>) returns (r: Result<seq<Folder>>)
    requires Acyclic(components, rank)
    requires Separate(folders)
    modifies set k | 0 <= k < |folders| :: folders[k]
    ensures var spec := BuildFrom(components, old(Snapshot(folders)), 0, rank);
      && (r.Ok? <==> spec.Ok?)
      && (r.Err? ==> r.error == spec.error)
      && (r.Ok? ==> r.value == folders && Snapshot(folders) == spec.value)
    ensures Separate(folders)
    ensures forall k :: 0 <= k < |folders| ==> folders[k].clientFiles == old(folders[k].clientFiles)
  {
    var k := 0;
    while k < |folders|
      invariant 0 <= k <= |folders| && Separate(folders)
      invariant forall k :: 0 <= k < |folders| ==> folders[k].clientFiles == old(folders[k].clientFiles)
      invariant BuildFrom(components, Snapshot(folders), k, rank) == BuildFrom(components, old(Snapshot(folders)), 0, rank)
    {
      ghost var before := Snapshot(folders);
      var registered := RegisterFolderAt(components, folders, k, folders[k], rank);
      if registered.Err? {
        assert BuildFrom(components, before, k, rank) == Err(registered.error);
        return Err(registered.error);
      }
      assert BuildFrom(components, Snapshot(folders), k + 1, rank) == BuildFrom(components, before, k, rank);
      k := k + 1;
    }
    return Ok(folders);
  }

  /** The second phase for folder `k` of `folders`: only that folder's
      model files change. */
  method RegisterFolderAt(components: Option<Schemas>, ghost folders: seq<Folder>, ghost k: nat, folder: Folder, ghost rank: map<string, nat>)
      returns (r: Result<()>)
    requires Acyclic(components, rank)
    requires k < |folders| && folders[k] == folder && Separate(folders)
    modifies folder`modelFiles
    ensures var f := old(Snapshot(folders))[k];
      var spec := ModelsFromFiles(components, f.modelFiles, f.clientFiles, rank);
      && (r.Ok? <==> spec.Ok?)
      && (r.Err? ==> r.error == spec.error)
      && (r.Ok? ==> Snapshot(folders) == old(Snapshot(folders))[k := f.(modelFiles := spec.value)])
    ensures var build := BuildFrom(components, old(Snapshot(folders)), k, rank);
      && (r.Err? ==> build == Err(r.error))
      && (r.Ok? ==> BuildFrom(components, Snapshot(folders), k + 1, rank) == build)
    ensures Separate(folders)
  {
    SeparateObjects(folders);
    ghost var before := Snapshot(folders);
    r := RegisterFolder(components, folder, rank);
    assert forall j :: 0 <= j < |folders| && j != k ==> folders[j].Value() == before[j];
    OneFolderChanged(folders, k, before);
  }

  /** The second phase for one folder: the imports of each of its client
      files, in order. */
  method RegisterFolder(components: Option<Schemas>, folder: Folder, ghost rank: map<string, nat>) returns (r: Result<()>)
    requires Acyclic(components, rank)
    modifies folder`modelFiles
    ensures var spec := ModelsFromFiles(components, old(folder.modelFiles), FileValues(folder.clientFiles), rank);
      && (r.Ok? <==> spec.Ok?)
      && (r.Err? ==> r.error == spec.error)
      && (r.Ok? ==> folder.modelFiles == spec.value)
  {
    var files := folder.clientFiles;
    ghost var values := FileValues(files);
    var c := 0;
    while c < |files|
      invariant 0 <= c <= |files| && FileValues(folder.clientFiles) == values
      invariant ModelsFromFiles(components, folder.modelFiles, values[c..], rank)
             == ModelsFromFiles(components, old(folder.modelFiles), values, rank)
    {
      assert values[c..][1..] == values[c + 1..];
      var registered := RegisterImports(components, folder, files[c].imports, rank);
      if registered.Err? {
        return registered;
      }
      c := c + 1;
    }
    return Ok(());
  }

  /** `putModelFile` for each import of one client file. */
  method RegisterImports(components: Option<Schemas>, folder: Folder, imports: seq<string>, ghost rank: map<string, nat>) returns (r: Result<()>)
    requires Acyclic(components, rank)
    modifies folder`modelFiles
    ensures var spec := ModelsFrom(components, old(folder.modelFiles), imports, rank);
      && (r.Ok? <==> spec.Ok?)
      && (r.Err? ==> r.error == spec.error)
      && (r.Ok? ==> folder.modelFiles == spec.value)
  {
    var x := 0;
    while x < |imports|
      invariant 0 <= x <= |imports|
      invariant ModelsFrom(components, folder.modelFiles, imports[x..], rank) == ModelsFrom(components, old(folder.modelFiles), imports, rank)
    {
      assert imports[x..][1..] == imports[x + 1..];
      var registered := PutModelFile(components, folder, Some(imports[x]), rank);
      if registered.Err? {
        return registered;
      }
      x := x + 1;
    }
    return Ok(());
  }
}
