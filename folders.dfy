/** The mutable output of src/transform.js: folder objects that hold client
    file objects and model files, the find-or-create helpers `getFolder` and
    `getClientFile`, and the value of a list of folders at one moment. */
module Folders {
  import opened Js
  import opened Lists
  import opened Descriptors

  /** `{ name, actions, imports }`: a client file; `transform` pushes actions
      into it and reassigns its imports. */
  class ClientFile {
    const name: string
    var actions: seq<Action>
    var imports: seq<string>

    constructor (name: string)
      ensures this.name == name && actions == [] && imports == []
    {
      this.name := name;
      actions := [];
      imports := [];
    }

    ghost function Value(): ClientFileVal
      reads this
    {
      ClientFileVal(name, actions, imports)
    }
  }

  /** `{ name, clientFiles, modelFiles }`: a folder; `getClientFile` and
      `putModelFile` push into its lists. */
  class Folder {
    const name: Option<string>
    var clientFiles: seq<ClientFile>
    var modelFiles: seq<ModelFile>

    constructor (name: Option<string>)
      ensures this.name == name && clientFiles == [] && modelFiles == []
    {
      this.name := name;
      clientFiles := [];
      modelFiles := [];
    }

    ghost function Value(): FolderVal
      reads this, clientFiles
    {
      FolderVal(name, FileValues(clientFiles), modelFiles)
    }
  }

  ghost function FileValues(files: seq<ClientFile>): (r: seq<ClientFileVal>)
    reads files
    ensures |r| == |files| && forall i :: 0 <= i < |files| ==> r[i] == files[i].Value()
  {
    seq(|files|, i requires 0 <= i < |files| reads files => files[i].Value())
  }

  function FolderNames(folders: seq<Folder>): (r: seq<Option<string>>)
    ensures |r| == |folders| && forall i :: 0 <= i < |folders| ==> r[i] == folders[i].name
  {
    Map((f: Folder) => f.name, folders)
  }

  function FileNames(files: seq<ClientFile>): (r: seq<string>)
    ensures |r| == |files| && forall i :: 0 <= i < |files| ==> r[i] == files[i].name
  {
    Map((c: ClientFile) => c.name, files)
  }

  /** All the objects reachable from a list of folders. */
  ghost function Footprint(folders: seq<Folder>): (r: set<object>)
    reads folders
    ensures forall k :: 0 <= k < |folders| ==> folders[k] in r
    ensures forall k, c :: 0 <= k < |folders| && c in folders[k].clientFiles ==> c in r
  {
    (set k | 0 <= k < |folders| :: folders[k] as object)
    + (set k, c | 0 <= k < |folders| && c in folders[k].clientFiles :: c as object)
  }

  /** The value of a list of folders at one moment. */
  ghost function Snapshot(folders: seq<Folder>): (r: seq<FolderVal>)
    reads folders, Footprint(folders)
    ensures |r| == |folders| && forall k :: 0 <= k < |folders| ==> r[k] == folders[k].Value()
  {
    seq(|folders|, k requires 0 <= k < |folders| reads folders, Footprint(folders) => folders[k].Value())
  }

  /** Folders have distinct names, each folder's client files have distinct
      names, and no client file object is shared by two folders. */
  ghost predicate Separate(folders: seq<Folder>)
    reads folders
  {
    && NoDups(FolderNames(folders))
    && (forall k :: 0 <= k < |folders| ==> NoDups(FileNames(folders[k].clientFiles)))
    && (forall a, b, x, y ::
          0 <= a < |folders| && 0 <= b < |folders| && a != b &&
          0 <= x < |folders[a].clientFiles| && 0 <= y < |folders[b].clientFiles| ==>
          folders[a].clientFiles[x] != folders[b].clientFiles[y])
  }

  // ---------------------------------------------------------------------
  // find-or-create on values

  function ValueFolderNames(fs: seq<FolderVal>): (r: seq<Option<string>>)
    ensures |r| == |fs| && forall i :: 0 <= i < |fs| ==> r[i] == fs[i].name
  {
    Map((f: FolderVal) => f.name, fs)
  }

  function ValueFileNames(cs: seq<ClientFileVal>): (r: seq<string>)
    ensures |r| == |cs| && forall i :: 0 <= i < |cs| ==> r[i] == cs[i].name
  {
    Map((c: ClientFileVal) => c.name, cs)
  }

  /** The folder list after `getFolder(folders, name)`, and the index of the
      folder it returns. */
  function FindOrAddFolder(fs: seq<FolderVal>, name: Option<string>): (r: (seq<FolderVal>, nat))
    ensures r.1 < |r.0| && r.0[r.1].name == name
    ensures name in ValueFolderNames(fs) ==> r.0 == fs && r.1 == IndexOf(ValueFolderNames(fs), name)
    ensures name !in ValueFolderNames(fs) ==> r.0 == fs + [FolderVal(name, [], [])] && r.1 == |fs|
  {
    var k := IndexOf(ValueFolderNames(fs), name);
    if k >= 0 then (fs, k) else (fs + [FolderVal(name, [], [])], |fs|)
  }

  /** The folder after `getClientFile(folder, name)`, and the index of the
      client file it returns. */
  function FindOrAddFile(f: FolderVal, name: string): (r: (FolderVal, nat))
    ensures r.1 < |r.0.clientFiles| && r.0.clientFiles[r.1].name == name
    ensures r.0.name == f.name && r.0.modelFiles == f.modelFiles
    ensures name in ValueFileNames(f.clientFiles) ==> r.0 == f && r.1 == IndexOf(ValueFileNames(f.clientFiles), name)
    ensures name !in ValueFileNames(f.clientFiles) ==>
      r.0.clientFiles == f.clientFiles + [ClientFileVal(name, [], [])] && r.1 == |f.clientFiles|
  {
    var j := IndexOf(ValueFileNames(f.clientFiles), name);
    if j >= 0 then (f, j) else (f.(clientFiles := f.clientFiles + [ClientFileVal(name, [], [])]), |f.clientFiles|)
  }

  // ---------------------------------------------------------------------
  // the helpers themselves

  /** `getFolder(folders, folderName)`: the first folder with that name, or a
      new empty folder pushed at the end. */
  method GetFolder(folders: seq<Folder>, folderName: Option<string>) returns (folders': seq<Folder>, folder: Folder)
    ensures var k := IndexOf(FolderNames(folders), folderName);
      && (k >= 0 ==> folders' == folders && folder == folders[k])
      && (k < 0 ==> folders' == folders + [folder] && fresh(folder)
                    && folder.name == folderName && folder.clientFiles == [] && folder.modelFiles == [])
    ensures Snapshot(folders') == FindOrAddFolder(old(Snapshot(folders)), folderName).0
    ensures folder == folders'[FindOrAddFolder(old(Snapshot(folders)), folderName).1]
    ensures old(Separate(folders)) ==> Separate(folders')
    ensures |folders| <= |folders'| && forall j :: 0 <= j < |folders| ==> folders'[j] == folders[j]
    ensures forall j :: |folders| <= j < |folders'| ==> fresh(folders'[j]) && folders'[j].clientFiles == []
  {
    NamesAgree(folders);
    var k := IndexOf(FolderNames(folders), folderName);
    if k >= 0 {
      folders', folder := folders, folders[k];
    } else {
      ghost var before := Snapshot(folders);
      folder := new Folder(folderName);
      folders' := folders + [folder];
      assert Snapshot(folders) == before;
      AppendFolder(folders, folder);
    }
  }

  /** Appending a folder without client files, whose name is new. */
  lemma AppendFolder(folders: seq<Folder>, folder: Folder)
    requires folder.clientFiles == [] && folder.name !in FolderNames(folders)
    ensures Snapshot(folders + [folder]) == Snapshot(folders) + [folder.Value()]
    ensures Separate(folders) ==> Separate(folders + [folder])
  {
    var folders' := folders + [folder];
    assert FolderNames(folders') == FolderNames(folders) + [folder.name];
    if Separate(folders) {
      NoDupsSnoc(FolderNames(folders), folder.name);
    }
  }

  /** `getClientFile(folder, fileName)`: the first client file of the folder
      with that name, or a new empty one pushed at the end of its list. */
  method GetClientFile(folder: Folder, fileName: string) returns (file: ClientFile)
    modifies folder`clientFiles
    ensures var j := IndexOf(FileNames(old(folder.clientFiles)), fileName);
      && (j >= 0 ==> folder.clientFiles == old(folder.clientFiles) && file == folder.clientFiles[j])
      && (j < 0 ==> folder.clientFiles == old(folder.clientFiles) + [file] && fresh(file)
                    && file.name == fileName && file.actions == [] && file.imports == [])
    ensures folder.Value() == FindOrAddFile(old(folder.Value()), fileName).0
    ensures file == folder.clientFiles[FindOrAddFile(old(folder.Value()), fileName).1]
    ensures NoDups(FileNames(old(folder.clientFiles))) ==> NoDups(FileNames(folder.clientFiles))
    ensures |old(folder.clientFiles)| <= |folder.clientFiles| && forall x :: 0 <= x < |old(folder.clientFiles)| ==> folder.clientFiles[x] == old(folder.clientFiles)[x]
    ensures forall x :: |old(folder.clientFiles)| <= x < |folder.clientFiles| ==> fresh(folder.clientFiles[x])
  {
    FileNamesAgree(folder.clientFiles);
    var j := IndexOf(FileNames(folder.clientFiles), fileName);
    if j >= 0 {
      file := folder.clientFiles[j];
    } else {
      file := new ClientFile(fileName);
      folder.clientFiles := folder.clientFiles + [file];
      assert FileValues(folder.clientFiles) == old(FileValues(folder.clientFiles)) + [file.Value()];
      assert FileNames(folder.clientFiles) == old(FileNames(folder.clientFiles)) + [fileName];
      if NoDups(old(FileNames(folder.clientFiles))) {
        NoDupsSnoc(old(FileNames(folder.clientFiles)), fileName);
      }
    }
  }

  lemma NamesAgree(folders: seq<Folder>)
    ensures ValueFolderNames(Snapshot(folders)) == FolderNames(folders)
  {
  }

  lemma FileNamesAgree(files: seq<ClientFile>)
    ensures ValueFileNames(FileValues(files)) == FileNames(files)
  {
  }

  /** Folders with distinct names are distinct objects, and so are the
      client files of one folder. */
  lemma SeparateObjects(folders: seq<Folder>)
    requires Separate(folders)
    ensures forall a, b :: 0 <= a < |folders| && 0 <= b < |folders| && a != b ==> folders[a] != folders[b]
    ensures forall k, x, y :: 0 <= k < |folders| && 0 <= x < |folders[k].clientFiles| && 0 <= y < |folders[k].clientFiles| && x != y ==>
      folders[k].clientFiles[x] != folders[k].clientFiles[y]
  {
    forall a, b | 0 <= a < |folders| && 0 <= b < |folders| && a != b
      ensures folders[a] != folders[b]
    {
      assert FolderNames(folders)[a] != FolderNames(folders)[b];
    }
    forall k, x, y | 0 <= k < |folders| && 0 <= x < |folders[k].clientFiles| && 0 <= y < |folders[k].clientFiles| && x != y
      ensures folders[k].clientFiles[x] != folders[k].clientFiles[y]
    {
      assert FileNames(folders[k].clientFiles)[x] != FileNames(folders[k].clientFiles)[y];
    }
  }

  /** Client files with distinct names are distinct objects. */
  lemma DistinctFiles(files: seq<ClientFile>)
    requires NoDups(FileNames(files))
    ensures forall x, y :: 0 <= x < |files| && 0 <= y < |files| && x != y ==> files[x] != files[y]
  {
    forall x, y | 0 <= x < |files| && 0 <= y < |files| && x != y
      ensures files[x] != files[y]
    {
      assert FileNames(files)[x] != FileNames(files)[y];
    }
  }

  /** When every folder but `k` keeps its value, only entry `k` of the
      snapshot changes. */
  lemma OneFolderChanged(folders: seq<Folder>, k: nat, before: seq<FolderVal>)
    requires k < |folders| == |before|
    requires forall j :: 0 <= j < |folders| && j != k ==> folders[j].Value() == before[j]
    ensures Snapshot(folders) == before[k := folders[k].Value()]
  {
  }

  /** When every client file but `j` keeps its value, only entry `j` of the
      values changes. */
  lemma OneFileChanged(files: seq<ClientFile>, j: nat, before: seq<ClientFileVal>)
    requires j < |files| == |before|
    requires forall i :: 0 <= i < |files| && i != j ==> files[i].Value() == before[i]
    ensures FileValues(files) == before[j := files[j].Value()]
  {
  }
}
