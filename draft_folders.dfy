/** The mutable output of the draft engine (transform.js at the root of the
    repository): folder objects that hold file objects, the find-or-create
    helpers `getFolder` and `getFile`, and the value of a list of folders at
    one moment. */
module DraftFolders {
  import opened Js
  import opened Lists
  import opened DraftResolver

  /** The value of a file object at one moment. */
  datatype FileVal = FileVal(name: string, actions: seq<Action>)

  /** The value of a folder object at one moment. */
  datatype FolderVal = FolderVal(name: Option<string>, files: seq<FileVal>)

  /** `{ name, actions }`: a file; `transform` pushes actions into it. */
  class File {
    const name: string
    var actions: seq<Action>

    constructor (name: string)
      ensures this.name == name && actions == []
    {
      this.name := name;
      actions := [];
    }

    ghost function Value(): FileVal
      reads this
    {
      FileVal(name, actions)
    }
  }

  /** `{ name, files }`: a folder; `getFile` pushes into its list. */
  class Folder {
    const name: Option<string>
    var files: seq<File>

    constructor (name: Option<string>)
      ensures this.name == name && files == []
    {
      this.name := name;
      files := [];
    }

    ghost function Value(): FolderVal
      reads this, files
    {
      FolderVal(name, FileValues(files))
    }
  }

  ghost function FileValues(files: seq<File>): (r: seq<FileVal>)
    reads files
    ensures |r| == |files| && forall i :: 0 <= i < |files| ==> r[i] == files[i].Value()
  {
    seq(|files|, i requires 0 <= i < |files| reads files => files[i].Value())
  }

  function FolderNames(folders: seq<Folder>): (r: seq<Option<string>>)
    ensures |r| == |folders| && forall i :: 0 <= i < |folders| ==> r[i] == folders[i].name
  {
    Map((f: Folder) => f.name, folders)
  }

  function FileNames(files: seq<File>): (r: seq<string>)
    ensures |r| == |files| && forall i :: 0 <= i < |files| ==> r[i] == files[i].name
  {
    Map((c: File) => c.name, files)
  }

  /** All the objects reachable from a list of folders. */
  ghost function Footprint(folders: seq<Folder>): (r: set<object>)
    reads folders
    ensures forall k :: 0 <= k < |folders| ==> folders[k] in r
    ensures forall k, c :: 0 <= k < |folders| && c in folders[k].files ==> c in r
  {
    (set k | 0 <= k < |folders| :: folders[k] as object)
    + (set k, c | 0 <= k < |folders| && c in folders[k].files :: c as object)
  }

  /** The value of a list of folders at one moment. */
  ghost function Snapshot(folders: seq<Folder>): (r: seq<FolderVal>)
    reads folders, Footprint(folders)
    ensures |r| == |folders| && forall k :: 0 <= k < |folders| ==> r[k] == folders[k].Value()
  {
    seq(|folders|, k requires 0 <= k < |folders| reads folders, Footprint(folders) => folders[k].Value())
  }

  /** Folders have distinct names, each folder's files have distinct names,
      and no file object is shared by two folders. */
  ghost predicate Separate(folders: seq<Folder>)
    reads folders
  {
    && NoDups(FolderNames(folders))
    && (forall k :: 0 <= k < |folders| ==> NoDups(FileNames(folders[k].files)))
    && (forall a, b, x, y ::
          0 <= a < |folders| && 0 <= b < |folders| && a != b &&
          0 <= x < |folders[a].files| && 0 <= y < |folders[b].files| ==>
          folders[a].files[x] != folders[b].files[y])
  }

  // ---------------------------------------------------------------------
  // find-or-create on values

  function ValueFolderNames(fs: seq<FolderVal>): (r: seq<Option<string>>)
    ensures |r| == |fs| && forall i :: 0 <= i < |fs| ==> r[i] == fs[i].name
  {
    Map((f: FolderVal) => f.name, fs)
  }

  function ValueFileNames(cs: seq<FileVal>): (r: seq<string>)
    ensures |r| == |cs| && forall i :: 0 <= i < |cs| ==> r[i] == cs[i].name
  {
    Map((c: FileVal) => c.name, cs)
  }

  /** The folder list after `getFolder(folders, name)`, and the index of the
      folder it returns. */
  function FindOrAddFolder(fs: seq<FolderVal>, name: Option<string>): (r: (seq<FolderVal>, nat))
    ensures r.1 < |r.0| && r.0[r.1].name == name
    ensures name in ValueFolderNames(fs) ==> r.0 == fs && r.1 == IndexOf(ValueFolderNames(fs), name)
    ensures name !in ValueFolderNames(fs) ==> r.0 == fs + [FolderVal(name, [])] && r.1 == |fs|
  {
    var k := IndexOf(ValueFolderNames(fs), name);
    if k >= 0 then (fs, k) else (fs + [FolderVal(name, [])], |fs|)
  }

  /** The folder after `getFile(folder, name)`, and the index of the file it
      returns. */
  function FindOrAddFile(f: FolderVal, name: string): (r: (FolderVal, nat))
    ensures r.1 < |r.0.files| && r.0.files[r.1].name == name
    ensures r.0.name == f.name
    ensures name in ValueFileNames(f.files) ==> r.0 == f && r.1 == IndexOf(ValueFileNames(f.files), name)
    ensures name !in ValueFileNames(f.files) ==>
      r.0.files == f.files + [FileVal(name, [])] && r.1 == |f.files|
  {
    var j := IndexOf(ValueFileNames(f.files), name);
    if j >= 0 then (f, j) else (f.(files := f.files + [FileVal(name, [])]), |f.files|)
  }

  // ---------------------------------------------------------------------
  // the helpers themselves

  /** `getFolder(folders, folderName)`: the first folder with that name, or a
      new empty folder pushed at the end. */
  method GetFolder(folders: seq<Folder>, folderName: Option<string>) returns (folders': seq<Folder>, folder: Folder)
    ensures var k := IndexOf(FolderNames(folders), folderName);
      && (k >= 0 ==> folders' == folders && folder == folders[k])
      && (k < 0 ==> folders' == folders + [folder] && fresh(folder)
                    && folder.name == folderName && folder.files == [])
    ensures Snapshot(folders') == FindOrAddFolder(old(Snapshot(folders)), folderName).0
    ensures folder == folders'[FindOrAddFolder(old(Snapshot(folders)), folderName).1]
    ensures old(Separate(folders)) ==> Separate(folders')
    ensures |folders| <= |folders'| && forall j :: 0 <= j < |folders| ==> folders'[j] == folders[j]
    ensures forall j :: |folders| <= j < |folders'| ==> fresh(folders'[j]) && folders'[j].files == []
  {
    NamesAgree(folders);
    var k := IndexOf(FolderNames(folders), folderName);
    if k >= 0 {
      folders', folder := folders, folders[k];
    } else {
      ghost var before := Snapshot(folders);
      folder := new Folder(folderName);
      folders' := folders + [folder];
      assert Snapshot(folders) == before;
      AppendFolder(folders, folder);
    }
  }

  /** Appending a folder without files, whose name is new. */
  lemma AppendFolder(folders: seq<Folder>, folder: Folder)
    requires folder.files == [] && folder.name !in FolderNames(folders)
    ensures Snapshot(folders + [folder]) == Snapshot(folders) + [folder.Value()]
    ensures Separate(folders) ==> Separate(folders + [folder])
  {
    var folders' := folders + [folder];
    assert FolderNames(folders') == FolderNames(folders) + [folder.name];
    if Separate(folders) {
      NoDupsSnoc(FolderNames(folders), folder.name);
    }
  }

  /** `getFile(folder, fileName)`: the first file of the folder with that
      name, or a new empty one pushed at the end of its list. */
  method GetFile(folder: Folder, fileName: string) returns (file: File)
    modifies folder`files
    ensures var j := IndexOf(FileNames(old(folder.files)), fileName);
      && (j >= 0 ==> folder.files == old(folder.files) && file == folder.files[j])
      && (j < 0 ==> folder.files == old(folder.files) + [file] && fresh(file)
                    && file.name == fileName && file.actions == [])
    ensures folder.Value() == FindOrAddFile(old(folder.Value()), fileName).0
    ensures file == folder.files[FindOrAddFile(old(folder.Value()), fileName).1]
    ensures NoDups(FileNames(old(folder.files))) ==> NoDups(FileNames(folder.files))
    ensures |old(folder.files)| <= |folder.files| && forall x :: 0 <= x < |old(folder.files)| ==> folder.files[x] == old(folder.files)[x]
    ensures forall x :: |old(folder.files)| <= x < |folder.files| ==> fresh(folder.files[x])
  {
    FileNamesAgree(folder.files);
    var j := IndexOf(FileNames(folder.files), fileName);
    if j >= 0 {
      file := folder.files[j];
    } else {
      file := new File(fileName);
      folder.files := folder.files + [file];
      assert FileValues(folder.files) == old(FileValues(folder.files)) + [file.Value()];
      assert FileNames(folder.files) == old(FileNames(folder.files)) + [fileName];
      if NoDups(old(FileNames(folder.files))) {
        NoDupsSnoc(old(FileNames(folder.files)), fileName);
      }
    }
  }

  lemma NamesAgree(folders: seq<Folder>)
    ensures ValueFolderNames(Snapshot(folders)) == FolderNames(folders)
  {
  }

  lemma FileNamesAgree(files: seq<File>)
    ensures ValueFileNames(FileValues(files)) == FileNames(files)
  {
  }

  /** Folders with distinct names are distinct objects, and so are the
      files of one folder. */
  lemma SeparateObjects(folders: seq<Folder>)
    requires Separate(folders)
    ensures forall a, b :: 0 <= a < |folders| && 0 <= b < |folders| && a != b ==> folders[a] != folders[b]
    ensures forall k, x, y :: 0 <= k < |folders| && 0 <= x < |folders[k].files| && 0 <= y < |folders[k].files| && x != y ==>
      folders[k].files[x] != folders[k].files[y]
  {
    forall a, b | 0 <= a < |folders| && 0 <= b < |folders| && a != b
      ensures folders[a] != folders[b]
    {
      assert FolderNames(folders)[a] != FolderNames(folders)[b];
    }
    forall k, x, y | 0 <= k < |folders| && 0 <= x < |folders[k].files| && 0 <= y < |folders[k].files| && x != y
      ensures folders[k].files[x] != folders[k].files[y]
    {
      assert FileNames(folders[k].files)[x] != FileNames(folders[k].files)[y];
    }
  }

  /** Files with distinct names are distinct objects. */
  lemma DistinctFiles(files: seq<File>)
    requires NoDups(FileNames(files))
    ensures forall x, y :: 0 <= x < |files| && 0 <= y < |files| && x != y ==> files[x] != files[y]
  {
    forall x, y | 0 <= x < |files| && 0 <= y < |files| && x != y
      ensures files[x] != files[y]
    {
      assert FileNames(files)[x] != FileNames(files)[y];
    }
  }

  /** When every folder but `k` keeps its value, only entry `k` of the
      snapshot changes. */
  lemma OneFolderChanged(folders: seq<Folder>, k: nat, before: seq<FolderVal>)
    requires k < |folders| == |before|
    requires forall j :: 0 <= j < |folders| && j != k ==> folders[j].Value() == before[j]
    ensures Snapshot(folders) == before[k := folders[k].Value()]
  {
  }

  /** When every file but `j` keeps its value, only entry `j` of the
      values changes. */
  lemma OneFileChanged(files: seq<File>, j: nat, before: seq<FileVal>)
    requires j < |files| == |before|
    requires forall i :: 0 <= i < |files| && i != j ==> files[i].Value() == before[i]
    ensures FileValues(files) == before[j := files[j].Value()]
  {
  }
}
