/** `transform` of the draft engine (transform.js at the root of the
    repository): groups the operations of the document into folders (by
    first path segment) and files (by first tag); each file lists the
    actions of its operations. There is no model phase. */
module DraftTransform {
  import opened Js
  import opened Strings
  import opened Lists
  import opened Document
  import opened DraftResolver
  import opened DraftFolders
  import Src = Transform

  /** The file and the action one operation contributes, with the first
      error among file name, return type and parameters. The action's
      method is the operation's key in capitals. */
  function MethodAction(path: string, httpMethod: string, op: Operation): Result<(string, Action)> {
    var fileName :- Src.FileName(op);
    var returnType :- GetReturnType(op);
    var parameters :- Parameters(httpMethod, op);
    Ok((fileName, Action(ActionName(path), returnType, parameters, ToUpper(httpMethod), path)))
  }

  /** A file after one action is pushed. */
  function Push(c: FileVal, a: Action): FileVal {
    c.(actions := c.actions + [a])
  }

  /** A folder after `getFile` and the push of one action. */
  function AddAction(f: FolderVal, fileName: string, a: Action): (r: FolderVal)
    ensures r.name == f.name
  {
    var (g, j) := FindOrAddFile(f, fileName);
    g.(files := g.files[j := Push(g.files[j], a)])
  }

  /** One operation of a path: its action pushed into its file. */
  function MethodStep(f: FolderVal, path: string, httpMethod: string, op: Operation): (r: Result<FolderVal>)
    ensures r.Ok? ==> r.value.name == f.name
  {
    var (fileName, a) :- MethodAction(path, httpMethod, op);
    Ok(AddAction(f, fileName, a))
  }

  /** The loop over the operations of one path, all into that path's folder. */
  function MethodsInto(f: FolderVal, path: string, item: PathItem): (r: Result<FolderVal>)
    ensures r.Ok? ==> r.value.name == f.name
    decreases item
  {
    if item == [] then Ok(f)
    else
      var f' :- MethodStep(f, path, item[0].0, item[0].1);
      MethodsInto(f', path, item[1..])
  }

  /** One path: its folder found or created, then its operations read. */
  function PathStep(fs: seq<FolderVal>, path: string, item: PathItem): Result<seq<FolderVal>> {
    var (fs', k) := FindOrAddFolder(fs, FolderName(path));
    var f :- MethodsInto(fs'[k], path, item);
    Ok(fs'[k := f])
  }

  /** The loop over paths. */
  function PathsFrom(fs: seq<FolderVal>, paths: seq<(string, PathItem)>): Result<seq<FolderVal>>
    decreases paths
  {
    if paths == [] then Ok(fs)
    else
      var fs' :- PathStep(fs, paths[0].0, paths[0].1);
      PathsFrom(fs', paths[1..])
  }

  /** `transform(json)` on values. */
  function TransformSpec(doc: Doc): Result<seq<FolderVal>> {
    if doc.paths.None? then Err(TypeError("Object.entries(json.paths)"))
    else PathsFrom([], doc.paths.value)
  }

  // ---------------------------------------------------------------------
  // the procedure itself

  /** `transform(json)`: the loop over paths. */
  method Transform(doc: Doc) returns (r: Result<seq<Folder>>)
    ensures r.Ok? <==> TransformSpec(doc).Ok?
    ensures r.Err? ==> r.error == TransformSpec(doc).error
    ensures r.Ok? ==> Snapshot(r.value) == TransformSpec(doc).value
    ensures r.Ok? ==> Separate(r.value) && forall j :: 0 <= j < |r.value| ==> fresh(r.value[j])
    ensures r.Ok? ==> forall j, x :: 0 <= j < |r.value| && 0 <= x < |r.value[j].files| ==> fresh(r.value[j].files[x])
  {
    if doc.paths.None? {
      return Err(TypeError("Object.entries(json.paths)"));
    }
    var paths := doc.paths.value;
    var folders: seq<Folder> := [];
    var i := 0;
    while i < |paths|
      invariant 0 <= i <= |paths|
      invariant Separate(folders)
      invariant forall j :: 0 <= j < |folders| ==> fresh(folders[j])
      invariant forall j, x :: 0 <= j < |folders| && 0 <= x < |folders[j].files| ==> fresh(folders[j].files[x])
      invariant PathsFrom(Snapshot(folders), paths[i..]) == PathsFrom([], paths)
    {
      assert paths[i..][1..] == paths[i + 1..];
      var added := AddPath(folders, paths[i].0, paths[i].1);
      if added.Err? {
        return Err(added.error);
      }
      folders := added.value;
      i := i + 1;
    }
    assert PathsFrom(Snapshot(folders), paths[|paths|..]) == Ok(Snapshot(folders));
    return Ok(folders);
  }

  /** The body of the loop over paths: `getFolder`, then the operations of
      the path. Folders are only appended, files only appended to their
      folder, and whatever is appended is new. */
  method AddPath(folders: seq<Folder>, path: string, pathInfo: PathItem) returns (r: Result<seq<Folder>>)
    requires Separate(folders)
    modifies Footprint(folders)
    ensures var spec := PathStep(old(Snapshot(folders)), path, pathInfo);
      && (r.Ok? <==> spec.Ok?)
      && (r.Err? ==> r.error == spec.error)
      && (r.Ok? ==> Snapshot(r.value) == spec.value && Separate(r.value))
    ensures r.Ok? ==> |folders| <= |r.value| && forall j :: 0 <= j < |folders| ==> r.value[j] == folders[j]
    ensures r.Ok? ==> forall j :: |folders| <= j < |r.value| ==> fresh(r.value[j])
    ensures r.Ok? ==> forall j, x :: 0 <= j < |r.value| && 0 <= x < |r.value[j].files| ==>
      (j < |folders| && x < |old(folders[j].files)| && r.value[j].files[x] == old(folders[j].files[x]))
      || fresh(r.value[j].files[x])
  {
    var actionName := ActionName(path);
    var folders', folder := GetFolder(folders, FolderName(path));
    ghost var mid := seq(|folders'|, j requires 0 <= j < |folders'| reads folders' => folders'[j].files);
    ghost var k := FindOrAddFolder(old(Snapshot(folders)), FolderName(path)).1;
    ghost var found := Snapshot(folders');
    assert found[k] == folder.Value();
    var added := AddPathOperations(folders', k, folder, path, actionName, pathInfo);
    if added.Err? {
      return Err(added.error);
    }
    assert Snapshot(folders') == found[k := MethodsInto(found[k], path, pathInfo).value];
    forall j, x | 0 <= j < |folders'| && 0 <= x < |folders'[j].files| && !fresh(folders'[j].files[x])
      ensures j < |folders| && x < |old(folders[j].files)| && folders'[j].files[x] == old(folders[j].files[x])
    {
      if j < |folders| {
        assert old(folders[j].files) == mid[j];
      }
    }
    return Ok(folders');
  }

  /** The operations of one path added to folder `k` of `folders`: only that
      folder changes, its files are only appended, and the folders stay
      separate. */
  method AddPathOperations(ghost folders: seq<Folder>, ghost k: nat, folder: Folder, path: string, actionName: string, pathInfo: PathItem)
      returns (r: Result<()>)
    requires k < |folders| && folders[k] == folder && Separate(folders)
    requires actionName == ActionName(path)
    modifies folder`files, folder.files
    ensures var spec := MethodsInto(old(folder.Value()), path, pathInfo);
      && (r.Ok? <==> spec.Ok?)
      && (r.Err? ==> r.error == spec.error)
      && (r.Ok? ==> Snapshot(folders) == old(Snapshot(folders))[k := spec.value])
    ensures r.Ok? ==> Separate(folders)
    ensures forall j, x :: 0 <= j < |folders| && 0 <= x < |folders[j].files| ==>
      (x < |old(folders[j].files)| && folders[j].files[x] == old(folders[j].files[x]))
      || fresh(folders[j].files[x])
  {
    SeparateObjects(folders);
    ghost var before := Snapshot(folders);
    r := AddOperations(folder, path, actionName, pathInfo);
    assert forall j :: 0 <= j < |folders| && j != k ==> folders[j].files == old(folders[j].files);
    if r.Ok? {
      assert forall j :: 0 <= j < |folders| && j != k ==> folders[j].Value() == before[j];
      OneFolderChanged(folders, k, before);
      forall a, b, x, y | 0 <= a < |folders| && 0 <= b < |folders| && a != b &&
          0 <= x < |folders[a].files| && 0 <= y < |folders[b].files|
        ensures folders[a].files[x] != folders[b].files[y]
      {
        if a == k {
          if x < |old(folder.files)| {
            assert old(folders[a].files[x] != folders[b].files[y]);
          }
        } else if b == k {
          if y < |old(folder.files)| {
            assert old(folders[a].files[x] != folders[b].files[y]);
          }
        } else {
          assert old(folders[a].files[x] != folders[b].files[y]);
        }
      }
    }
  }

  /** The inner loop: for each operation of one path, `getFile` in the
      path's folder, then the action pushed into the file. */
  method AddOperations(folder: Folder, path: string, actionName: string, pathInfo: PathItem) returns (r: Result<()>)
    requires actionName == ActionName(path)
    requires NoDups(FileNames(folder.files))
    modifies folder`files, folder.files
    ensures NoDups(FileNames(folder.files))
    ensures |old(folder.files)| <= |folder.files| && forall x :: 0 <= x < |old(folder.files)| ==> folder.files[x] == old(folder.files)[x]
    ensures forall x :: |old(folder.files)| <= x < |folder.files| ==> fresh(folder.files[x])
    ensures var spec := MethodsInto(old(folder.Value()), path, pathInfo);
      && (r.Ok? <==> spec.Ok?)
      && (r.Err? ==> r.error == spec.error)
      && (r.Ok? ==> folder.Value() == spec.value)
  {
    var j := 0;
    while j < |pathInfo|
      invariant 0 <= j <= |pathInfo|
      invariant NoDups(FileNames(folder.files))
      invariant |old(folder.files)| <= |folder.files| && forall x :: 0 <= x < |old(folder.files)| ==> folder.files[x] == old(folder.files)[x]
      invariant forall x :: |old(folder.files)| <= x < |folder.files| ==> fresh(folder.files[x])
      invariant MethodsInto(folder.Value(), path, pathInfo[j..]) == MethodsInto(old(folder.Value()), path, pathInfo)
    {
      assert pathInfo[j..][1..] == pathInfo[j + 1..];
      assert forall x :: 0 <= x < |folder.files| ==> folder.files[x] in old(folder.files) || fresh(folder.files[x]);
      ghost var prev := folder.files;
      var added := AddOperation(folder, path, actionName, pathInfo[j].0, pathInfo[j].1);
      forall x | |old(folder.files)| <= x < |folder.files|
        ensures fresh(folder.files[x])
      {
        if x < |prev| {
          assert folder.files[x] == prev[x];
        }
      }
      if added.Err? {
        return added;
      }
      j := j + 1;
    }
    return Ok(());
  }

  /** The body of the inner loop: one operation. Its file is found or
      appended. */
  method AddOperation(folder: Folder, path: string, actionName: string, httpMethod: string, methodInfo: Operation) returns (r: Result<()>)
    requires actionName == ActionName(path)
    requires NoDups(FileNames(folder.files))
    modifies folder`files, folder.files
    ensures NoDups(FileNames(folder.files))
    ensures |old(folder.files)| <= |folder.files| && forall x :: 0 <= x < |old(folder.files)| ==> folder.files[x] == old(folder.files)[x]
    ensures forall x :: |old(folder.files)| <= x < |folder.files| ==> fresh(folder.files[x])
    ensures var spec := MethodStep(old(folder.Value()), path, httpMethod, methodInfo);
      && (r.Ok? <==> spec.Ok?)
      && (r.Err? ==> r.error == spec.error)
      && (r.Ok? ==> folder.Value() == spec.value)
  {
    var fileName := Src.FileName(methodInfo);
    if fileName.Err? {
      return Err(fileName.error);
    }
    ghost var current := folder.Value();
    var file := GetFile(folder, fileName.value);
    ghost var jj := FindOrAddFile(current, fileName.value).1;
    ghost var files := folder.files;
    var returnType := GetReturnType(methodInfo);
    if returnType.Err? {
      return Err(returnType.error);
    }
    var parameters := GetParameters(httpMethod, methodInfo);
    if parameters.Err? {
      return Err(parameters.error);
    }
    var action := Action(actionName, returnType.value, parameters.value, ToUpper(httpMethod), path);
    PushAction(folder, jj, file, action);
    assert folder.files == files;
    return Ok(());
  }

  /** `file.actions.push(actionInfo)`: only that file of the folder changes. */
  method PushAction(ghost folder: Folder, ghost j: nat, file: File, action: Action)
    requires j < |folder.files| && folder.files[j] == file
    requires NoDups(FileNames(folder.files))
    modifies file
    ensures file.Value() == Push(old(file.Value()), action)
    ensures folder.Value() == old(folder.Value()).(files := old(folder.Value()).files[j := file.Value()])
  {
    ghost var values := FileValues(folder.files);
    DistinctFiles(folder.files);
    file.actions := file.actions + [action];
    OneFileChanged(folder.files, j, values);
  }
}
