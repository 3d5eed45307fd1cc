/** Where the operations of a document end up. Both engines walk the paths
    in document order, find or create the folder of each path, and for each
    operation of the path, in document order, find or create its file and
    append one entry to it. This module states that walk once, over folders
    reduced to their names and entries, and proves what it yields: every
    file holds exactly the entries of the operations keyed to it, in
    traversal order. */
module Placement {
  import opened Js
  import opened Lists

  /** One operation's place: the folder and file it is keyed to, and the
      entry it leaves in that file. */
  datatype Slot<E> = Slot(folder: Option<string>, file: string, entry: E)

  datatype FileT<E> = FileT(name: string, entries: seq<E>)

  datatype FolderT<E> = FolderT(name: Option<string>, files: seq<FileT<E>>)

  function FolderKeys<E(==)>(g: seq<FolderT<E>>): (r: seq<Option<string>>)
    ensures |r| == |g| && forall i :: 0 <= i < |g| ==> r[i] == g[i].name
  {
    Map((f: FolderT<E>) => f.name, g)
  }

  function FileKeys<E(==)>(cs: seq<FileT<E>>): (r: seq<string>)
    ensures |r| == |cs| && forall i :: 0 <= i < |cs| ==> r[i] == cs[i].name
  {
    Map((c: FileT<E>) => c.name, cs)
  }

  // ---------------------------------------------------------------------
  // the walk

  /** One operation in its folder: the first file of that name gets the
      entry, or a new file holding only the entry is appended. */
  function AddToFolder<E(==)>(f: FolderT<E>, y: string, e: E): (r: FolderT<E>)
    ensures r.name == f.name
  {
    var j := IndexOf(FileKeys(f.files), y);
    if j >= 0 then f.(files := f.files[j := f.files[j].(entries := f.files[j].entries + [e])])
    else f.(files := f.files + [FileT(y, [e])])
  }

  /** The operations of one path, in order, into the path's folder. */
  function FolderFold<E(==)>(f: FolderT<E>, ops: seq<(string, E)>): (r: FolderT<E>)
    ensures r.name == f.name
    decreases ops
  {
    if ops == [] then f else FolderFold(AddToFolder(f, ops[0].0, ops[0].1), ops[1..])
  }

  /** One path: the first folder of its name, or a new empty folder
      appended, receives the path's operations. */
  function AddPath<E(==)>(g: seq<FolderT<E>>, x: Option<string>, ops: seq<(string, E)>): seq<FolderT<E>> {
    var k := IndexOf(FolderKeys(g), x);
    if k >= 0 then g[k := FolderFold(g[k], ops)] else g + [FolderFold(FolderT(x, []), ops)]
  }

  /** The walk over the paths, in order. */
  function Walk<E(==)>(g: seq<FolderT<E>>, ps: seq<(Option<string>, seq<(string, E)>)>): seq<FolderT<E>>
    decreases ps
  {
    if ps == [] then g else Walk(AddPath(g, ps[0].0, ps[0].1), ps[1..])
  }

  // ---------------------------------------------------------------------
  // the specification of the walk

  /** The slots of one path's operations. */
  function SlotsOf<E(==)>(x: Option<string>, ops: seq<(string, E)>): (r: seq<Slot<E>>)
    ensures |r| == |ops| && forall i :: 0 <= i < |ops| ==> r[i] == Slot(x, ops[i].0, ops[i].1)
  {
    seq(|ops|, i requires 0 <= i < |ops| => Slot(x, ops[i].0, ops[i].1))
  }

  /** The slots of all operations, in traversal order: paths in order, and
      each path's operations in order. */
  function Flatten<E(==)>(ps: seq<(Option<string>, seq<(string, E)>)>): seq<Slot<E>>
    decreases ps
  {
    if ps == [] then [] else SlotsOf(ps[0].0, ps[0].1) + Flatten(ps[1..])
  }

  /** The entries of the slots keyed to folder `x` and file `y`, in order. */
  function Select<E(==)>(slots: seq<Slot<E>>, x: Option<string>, y: string): seq<E> {
    if slots == [] then []
    else
      var last := slots[|slots| - 1];
      Select(slots[..|slots| - 1], x, y) + (if last.folder == x && last.file == y then [last.entry] else [])
  }

  /** A folder after the slots `s`: file names are distinct, each file holds
      exactly the entries keyed to it, and every slot keyed to this folder
      has its file. */
  predicate FolderInv<E(==)>(f: FolderT<E>, s: seq<Slot<E>>) {
    && NoDups(FileKeys(f.files))
    && (forall j :: 0 <= j < |f.files| ==> f.files[j].entries == Select(s, f.name, f.files[j].name))
    && (forall i :: 0 <= i < |s| && s[i].folder == f.name ==> s[i].file in FileKeys(f.files))
  }

  /** The folders after the slots `s`: folder names are distinct, each
      folder is as above, and every slot has its folder. */
  predicate Inv<E(==)>(g: seq<FolderT<E>>, s: seq<Slot<E>>) {
    && NoDups(FolderKeys(g))
    && (forall k :: 0 <= k < |g| ==> FolderInv(g[k], s))
    && (forall i :: 0 <= i < |s| ==> s[i].folder in FolderKeys(g))
  }

  // ---------------------------------------------------------------------
  // properties of Select

  lemma SelectSnoc<E>(s: seq<Slot<E>>, t: Slot<E>, x: Option<string>, y: string)
    ensures Select(s + [t], x, y) == Select(s, x, y) + (if t.folder == x && t.file == y then [t.entry] else [])
  {
    assert (s + [t])[..|s|] == s;
  }

  /** No slot keyed to `x` and `y`, no entries. */
  lemma {:induction false} SelectNone<E>(s: seq<Slot<E>>, x: Option<string>, y: string)
    requires forall i :: 0 <= i < |s| ==> !(s[i].folder == x && s[i].file == y)
    ensures Select(s, x, y) == []
    decreases |s|
  {
    if s != [] {
      SelectNone(s[..|s| - 1], x, y);
    }
  }

  /** Slots keyed to another folder do not change what a folder selects. */
  lemma {:induction false} SelectOther<E>(s: seq<Slot<E>>, t: seq<Slot<E>>, x: Option<string>, y: string)
    requires forall i :: 0 <= i < |t| ==> t[i].folder != x
    ensures Select(s + t, x, y) == Select(s, x, y)
    decreases |t|
  {
    if t == [] {
      assert s + t == s;
    } else {
      var front := t[..|t| - 1];
      assert forall i :: 0 <= i < |front| ==> front[i] == t[i];
      var last := t[|t| - 1];
      assert s + t == (s + front) + [last];
      SelectSnoc(s + front, last, x, y);
      SelectOther(s, front, x, y);
      assert Select(s + t, x, y) == Select(s + front, x, y);
    }
  }

  lemma SlotsOfCons<E>(x: Option<string>, ops: seq<(string, E)>)
    requires ops != []
    ensures SlotsOf(x, ops) == [Slot(x, ops[0].0, ops[0].1)] + SlotsOf(x, ops[1..])
  {
    assert forall i :: 0 <= i < |ops| ==> SlotsOf(x, ops)[i] == ([Slot(x, ops[0].0, ops[0].1)] + SlotsOf(x, ops[1..]))[i];
  }

  lemma ConsAssoc<T>(s: seq<T>, t: T, rest: seq<T>)
    ensures s + ([t] + rest) == (s + [t]) + rest
  {
  }

  // ---------------------------------------------------------------------
  // the walk keeps the invariant

  /** One operation keeps a folder's invariant. */
  lemma AddToFolderInv<E>(f: FolderT<E>, s: seq<Slot<E>>, y: string, e: E)
    requires FolderInv(f, s)
    ensures FolderInv(AddToFolder(f, y, e), s + [Slot(f.name, y, e)])
  {
    var t := Slot(f.name, y, e);
    var s' := s + [t];
    var f' := AddToFolder(f, y, e);
    var j := IndexOf(FileKeys(f.files), y);
    forall n | 0 <= n < |f'.files|
      ensures f'.files[n].entries == Select(s', f'.name, f'.files[n].name)
    {
      SelectSnoc(s, t, f.name, f'.files[n].name);
      if n == |f.files| {
        forall i | 0 <= i < |s|
          ensures !(s[i].folder == f.name && s[i].file == y)
        {
        }
        SelectNone(s, f.name, y);
      }
    }
    if j >= 0 {
      assert FileKeys(f'.files) == FileKeys(f.files);
    } else {
      assert FileKeys(f'.files) == FileKeys(f.files) + [y];
      NoDupsSnoc(FileKeys(f.files), y);
    }
  }

  /** The operations of one path keep its folder's invariant. */
  lemma {:induction false} FolderFoldInv<E>(f: FolderT<E>, s: seq<Slot<E>>, ops: seq<(string, E)>)
    requires FolderInv(f, s)
    ensures FolderInv(FolderFold(f, ops), s + SlotsOf(f.name, ops))
    decreases ops
  {
    if ops == [] {
      assert s + SlotsOf(f.name, ops) == s;
    } else {
      var t := Slot(f.name, ops[0].0, ops[0].1);
      SlotsOfCons(f.name, ops);
      ConsAssoc(s, t, SlotsOf(f.name, ops[1..]));
      AddToFolderInv(f, s, ops[0].0, ops[0].1);
      FolderFoldInv(AddToFolder(f, ops[0].0, ops[0].1), s + [t], ops[1..]);
    }
  }

  /** A folder of another name keeps its invariant. */
  lemma FolderInvOther<E>(f: FolderT<E>, s: seq<Slot<E>>, x: Option<string>, ops: seq<(string, E)>)
    requires FolderInv(f, s) && f.name != x
    ensures FolderInv(f, s + SlotsOf(x, ops))
  {
    var t := SlotsOf(x, ops);
    forall j | 0 <= j < |f.files|
      ensures f.files[j].entries == Select(s + t, f.name, f.files[j].name)
    {
      SelectOther(s, t, f.name, f.files[j].name);
    }
  }

  /** One path keeps the invariant. */
  lemma AddPathInv<E>(g: seq<FolderT<E>>, s: seq<Slot<E>>, x: Option<string>, ops: seq<(string, E)>)
    requires Inv(g, s)
    ensures Inv(AddPath(g, x, ops), s + SlotsOf(x, ops))
  {
    var t := SlotsOf(x, ops);
    var g' := AddPath(g, x, ops);
    var k := IndexOf(FolderKeys(g), x);
    if k >= 0 {
      FolderFoldInv(g[k], s, ops);
      forall m | 0 <= m < |g| && m != k
        ensures FolderInv(g[m], s + t)
      {
        FolderInvOther(g[m], s, x, ops);
      }
      assert FolderKeys(g') == FolderKeys(g);
    } else {
      var empty: FolderT<E> := FolderT(x, []);
      assert FolderInv(empty, s);
      FolderFoldInv(empty, s, ops);
      forall m | 0 <= m < |g|
        ensures FolderInv(g[m], s + t)
      {
        FolderInvOther(g[m], s, x, ops);
      }
      assert FolderKeys(g') == FolderKeys(g) + [x];
      NoDupsSnoc(FolderKeys(g), x);
    }
  }

  lemma FlattenCons<E>(s: seq<Slot<E>>, ps: seq<(Option<string>, seq<(string, E)>)>)
    requires ps != []
    ensures s + Flatten(ps) == (s + SlotsOf(ps[0].0, ps[0].1)) + Flatten(ps[1..])
  {
    assert Flatten(ps) == SlotsOf(ps[0].0, ps[0].1) + Flatten(ps[1..]);
  }

  /** The walk over all paths keeps the invariant: starting from no folders,
      every file holds exactly the entries of the operations keyed to it,
      in traversal order, and every operation's folder and file exist. */
  lemma {:induction false} WalkInv<E>(g: seq<FolderT<E>>, s: seq<Slot<E>>, ps: seq<(Option<string>, seq<(string, E)>)>)
    requires Inv(g, s)
    ensures Inv(Walk(g, ps), s + Flatten(ps))
    decreases ps
  {
    if ps == [] {
      assert s + Flatten(ps) == s;
    } else {
      FlattenCons(s, ps);
      AddPathInv(g, s, ps[0].0, ps[0].1);
      WalkInv(AddPath(g, ps[0].0, ps[0].1), s + SlotsOf(ps[0].0, ps[0].1), ps[1..]);
    }
  }

  // ---------------------------------------------------------------------
  // counting

  function FileCount<E(==)>(cs: seq<FileT<E>>): nat {
    if cs == [] then 0 else |cs[0].entries| + FileCount(cs[1..])
  }

  /** The number of entries in all folders. */
  function Count<E(==)>(g: seq<FolderT<E>>): nat {
    if g == [] then 0 else FileCount(g[0].files) + Count(g[1..])
  }

  lemma {:induction false} FileCountUpdate<E>(cs: seq<FileT<E>>, j: nat, c: FileT<E>)
    requires j < |cs|
    ensures FileCount(cs[j := c]) + |cs[j].entries| == FileCount(cs) + |c.entries|
    decreases cs
  {
    if j > 0 {
      assert cs[j := c][1..] == cs[1..][j - 1 := c];
      FileCountUpdate(cs[1..], j - 1, c);
    }
  }

  lemma {:induction false} FileCountSnoc<E>(cs: seq<FileT<E>>, c: FileT<E>)
    ensures FileCount(cs + [c]) == FileCount(cs) + |c.entries|
    decreases cs
  {
    if cs != [] {
      assert (cs + [c])[1..] == cs[1..] + [c];
      FileCountSnoc(cs[1..], c);
    }
  }

  lemma {:induction false} CountUpdate<E>(g: seq<FolderT<E>>, k: nat, f: FolderT<E>)
    requires k < |g|
    ensures Count(g[k := f]) + FileCount(g[k].files) == Count(g) + FileCount(f.files)
    decreases g
  {
    if k > 0 {
      assert g[k := f][1..] == g[1..][k - 1 := f];
      CountUpdate(g[1..], k - 1, f);
    }
  }

  lemma {:induction false} CountSnoc<E>(g: seq<FolderT<E>>, f: FolderT<E>)
    ensures Count(g + [f]) == Count(g) + FileCount(f.files)
    decreases g
  {
    if g != [] {
      assert (g + [f])[1..] == g[1..] + [f];
      CountSnoc(g[1..], f);
    }
  }

  /** One operation adds one entry to its folder. */
  lemma AddToFolderCount<E>(f: FolderT<E>, y: string, e: E)
    ensures FileCount(AddToFolder(f, y, e).files) == FileCount(f.files) + 1
  {
    var j := IndexOf(FileKeys(f.files), y);
    if j >= 0 {
      FileCountUpdate(f.files, j, f.files[j].(entries := f.files[j].entries + [e]));
    } else {
      FileCountSnoc(f.files, FileT(y, [e]));
    }
  }

  lemma {:induction false} FolderFoldCount<E>(f: FolderT<E>, ops: seq<(string, E)>)
    ensures FileCount(FolderFold(f, ops).files) == FileCount(f.files) + |ops|
    decreases ops
  {
    if ops != [] {
      AddToFolderCount(f, ops[0].0, ops[0].1);
      FolderFoldCount(AddToFolder(f, ops[0].0, ops[0].1), ops[1..]);
    }
  }

  /** The walk adds exactly one entry per operation. */
  lemma {:induction false} WalkCount<E>(g: seq<FolderT<E>>, ps: seq<(Option<string>, seq<(string, E)>)>)
    ensures Count(Walk(g, ps)) == Count(g) + |Flatten(ps)|
    decreases ps
  {
    if ps != [] {
      var (x, ops) := ps[0];
      var k := IndexOf(FolderKeys(g), x);
      if k >= 0 {
        FolderFoldCount(g[k], ops);
        CountUpdate(g, k, FolderFold(g[k], ops));
      } else {
        FolderFoldCount(FolderT(x, []), ops);
        var empty: FolderT<E> := FolderT(x, []);
        CountSnoc(g, FolderFold(empty, ops));
      }
      WalkCount(AddPath(g, x, ops), ps[1..]);
    }
  }
}
