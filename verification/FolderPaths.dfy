/** What `ensure_folder_path` promises: a live path of the given names, its leaf, and nothing else. */
module FolderPaths {
  import opened Wrappers
  import opened Folders
  import opened FoldersProofs

  predicate Child(folders: map<FolderId, Folder>, parent: FolderId, name: string, c: FolderId) {
    c in folders && folders[c].parent == Some(parent) && folders[c].name == name
  }

  ghost predicate HasChild(folders: map<FolderId, Folder>, parent: FolderId, name: string) {
    exists c :: Child(folders, parent, name, c)
  }

  /** Going down from a folder by the names of a path leads, through live folders outside the trash
      folder, to `to`. */
  ghost predicate Leads(folders: map<FolderId, Folder>, from: FolderId, segments: seq<string>, to: FolderId)
    decreases |segments|
  {
    if segments == [] then to == from
    else exists c :: Child(folders, from, segments[0], c) && !folders[c].trashed && folders[c].kind != TRASH
                     && Leads(folders, c, segments[1..], to)
  }

  /** Going down from a folder by the names of a path, be they live or not, one comes to `x`. */
  ghost predicate OnPath(folders: map<FolderId, Folder>, from: FolderId, segments: seq<string>, x: FolderId)
    decreases |segments|
  {
    segments != []
    && exists c :: Child(folders, from, segments[0], c) && (x == c || OnPath(folders, c, segments[1..], x))
  }

  predicate Enterable(f: Folder) {
    f.kind == NORMAL || (f.kind != TRASH && !f.trashed)
  }

  /** No folder that is there stands in the way, and none that is missing would need an empty name. */
  ghost predicate Passable(folders: map<FolderId, Folder>, from: FolderId, segments: seq<string>)
    decreases |segments|
  {
    segments == []
    || if HasChild(folders, from, segments[0])
       then forall c | Child(folders, from, segments[0], c) :: Enterable(folders[c]) && Passable(folders, c, segments[1..])
       else "" !in segments
  }

  function Revived(f: Folder): Folder {
    if f.trashed then f.(trashed := false, trashedAt := None) else f
  }

  /** The tables after a path was made: what is on it is live, what was missing on it is new, and all
      else is as before. */
  ghost predicate PathMade(t: Tables, t': Tables, from: FolderId, segments: seq<string>, leaf: FolderId) {
    && t'.docs == t.docs && Leads(t'.folders, from, segments, leaf)
    && (forall x <- t.folders :: x in t'.folders
          && t'.folders[x] == if OnPath(t.folders, from, segments, x) then Revived(t.folders[x]) else t.folders[x])
    && (forall x <- t'.folders | x !in t.folders ::
          OnPath(t'.folders, from, segments, x) && Made(t, t'.folders[x], from))
  }

  /** A new folder is normal, live and of the owner of the folder that the path starts from. */
  predicate Made(t: Tables, f: Folder, from: FolderId) {
    from in t.folders && f == Folder(f.name, f.parent, t.folders[from].owner, NORMAL, false, None)
  }

  // ------------------------------------------------------------ one name

  lemma OneChild(t: Tables, parent: FolderId, name: string, c: FolderId, d: FolderId)
    requires Forest(t) && Child(t.folders, parent, name, c) && Child(t.folders, parent, name, d)
    ensures c == d && parent in t.folders && t.folders[c].owner == t.folders[parent].owner
  {
    hide Acyclic, SystemsUnique, DocsFiled;
    assert WellPlaced(t.folders, c) && WellPlaced(t.folders, d);
    NameIsUnique(t, parent, t.folders[parent].owner, name);
    hide Forest, NamesDiffer, AllPlaced;
    assert NameTaken(t.folders, parent, t.folders[parent].owner, name, c, false);
    assert NameTaken(t.folders, parent, t.folders[parent].owner, name, d, false);
  }

  /** A child that is there is taken, and revived if it is in the trash, unless it may not be entered. */
  lemma ChildTaken(t: Tables, parent: FolderId, name: string, c: FolderId)
    requires Forest(t) && Child(t.folders, parent, name, c)
    ensures var r := EnsureChild(t, parent, name);
      && (r.Ok? <==> Enterable(t.folders[c]))
      && (r.Ok? ==> r.value == (t.(folders := t.folders[c := Revived(t.folders[c])]), c))
  {
    OneChild(t, parent, name, c, c);
    NameIsUnique(t, parent, t.folders[parent].owner, name);
    hide Forest, CreateFolder;
    assert NameTaken(t.folders, parent, t.folders[parent].owner, name, c, t.folders[c].trashed == false);
    assert t.folders[c := t.folders[c]] == t.folders;
  }

  /** A child that is not there is created, unless its name is empty. */
  lemma ChildCreated(t: Tables, parent: FolderId, name: string)
    requires Forest(t) && parent in t.folders && t.folders[parent].kind != TRASH && !HasChild(t.folders, parent, name)
    ensures var r := EnsureChild(t, parent, name);
      && (r.Ok? <==> name != "")
      && (r.Ok? ==> r.value == (Insert(t, Folder(name, Some(parent), t.folders[parent].owner, NORMAL, false, None)), t.nextId))
  {
    hide Forest;
    forall x, a ensures !NameTaken(t.folders, parent, t.folders[parent].owner, name, x, a) {
      assert NameTaken(t.folders, parent, t.folders[parent].owner, name, x, a) ==> Child(t.folders, parent, name, x);
    }
  }

  // ------------------------------------------------------------ the rest of the path sees no difference

  /** Same tree, and what may be entered may still be entered. */
  lemma {:induction false} SamePath(f: map<FolderId, Folder>, g: map<FolderId, Folder>, from: FolderId, segments: seq<string>)
    requires SameTree(f, g) && forall x <- f :: Enterable(f[x]) <==> Enterable(g[x])
    ensures Passable(f, from, segments) <==> Passable(g, from, segments)
    ensures forall x :: OnPath(f, from, segments, x) <==> OnPath(g, from, segments, x)
    decreases |segments|
  {
    if segments != [] {
      forall c ensures Child(f, from, segments[0], c) <==> Child(g, from, segments[0], c) {
      }
      forall c | Child(f, from, segments[0], c)
        ensures Passable(f, c, segments[1..]) <==> Passable(g, c, segments[1..])
        ensures forall x :: OnPath(f, c, segments[1..], x) <==> OnPath(g, c, segments[1..], x)
      {
        SamePath(f, g, c, segments[1..]);
      }
    }
  }

  /** Nothing hangs under a folder that was just inserted. */
  lemma NewIsChildless(t: Tables, f: Folder, segments: seq<string>)
    requires Forest(t) && f.parent != Some(t.nextId)
    ensures forall name :: !HasChild(Insert(t, f).folders, t.nextId, name)
    ensures Passable(Insert(t, f).folders, t.nextId, segments) <==> "" !in segments
    ensures forall x :: !OnPath(Insert(t, f).folders, t.nextId, segments, x)
  {
    hide Acyclic, NamesDiffer, SystemsUnique, DocsFiled;
    forall c, name ensures !Child(Insert(t, f).folders, t.nextId, name, c) {
      if c in t.folders {
        assert WellPlaced(t.folders, c);
      }
    }
  }

  // ------------------------------------------------------------ the path

  /** What a path leads through, given its first folder. */
  lemma PathGoesOn(folders: map<FolderId, Folder>, from: FolderId, segments: seq<string>, c: FolderId)
    requires segments != [] && Child(folders, from, segments[0], c)
    requires forall d | Child(folders, from, segments[0], d) :: d == c
    ensures forall x :: OnPath(folders, from, segments, x) <==> x == c || OnPath(folders, c, segments[1..], x)
    ensures forall leaf | Leads(folders, c, segments[1..], leaf) ::
              !folders[c].trashed && folders[c].kind != TRASH ==> Leads(folders, from, segments, leaf)
  {
  }

  /** Through a child that is there. */
  lemma PathThrough(t: Tables, from: FolderId, segments: seq<string>, c: FolderId, t': Tables, leaf: FolderId)
    requires Forest(t) && segments != [] && Child(t.folders, from, segments[0], c) && Enterable(t.folders[c])
    requires var t1 := t.(folders := t.folders[c := Revived(t.folders[c])]);
      SameTree(t.folders, t1.folders) && PathMade(t1, t', c, segments[1..], leaf)
    requires forall d | Child(t'.folders, from, segments[0], d) :: d == c
    ensures PathMade(t, t', from, segments, leaf)
  {
    hide Forest, OnPath, Leads, Passable;
    var t1 := t.(folders := t.folders[c := Revived(t.folders[c])]);
    forall d | Child(t.folders, from, segments[0], d) ensures d == c {
      OneChild(t, from, segments[0], c, d);
    }
    OneChild(t, from, segments[0], c, c);
    SamePath(t.folders, t1.folders, c, segments[1..]);
    PathGoesOn(t.folders, from, segments, c);
    assert Child(t'.folders, from, segments[0], c);
    PathGoesOn(t'.folders, from, segments, c);
  }

  /** Through a child that was made for it. */
  lemma PathBeyond(t: Tables, from: FolderId, segments: seq<string>, t': Tables, leaf: FolderId)
    requires Forest(t) && segments != [] && from in t.folders && !HasChild(t.folders, from, segments[0])
    requires PathMade(Insert(t, Folder(segments[0], Some(from), t.folders[from].owner, NORMAL, false, None)), t', t.nextId, segments[1..], leaf)
    requires forall d | Child(t'.folders, from, segments[0], d) :: d == t.nextId
    ensures PathMade(t, t', from, segments, leaf)
  {
    var f := Folder(segments[0], Some(from), t.folders[from].owner, NORMAL, false, None);
    assert forall x :: !OnPath(t.folders, from, segments, x);
    hide Forest, OnPath, Leads, Passable;
    Fresh(t);
    NewIsChildless(t, f, segments[1..]);
    assert Child(t'.folders, from, segments[0], t.nextId);
    PathGoesOn(t'.folders, from, segments, t.nextId);
  }

  /** The path is made exactly if it is passable; then it leads to the folder that is returned. */
  lemma {:induction false} EnsurePathMakes(t: Tables, from: FolderId, segments: seq<string>)
    requires Forest(t) && from in t.folders && t.folders[from].kind != TRASH
    ensures var r := EnsurePath(t, from, segments);
      && (r.Ok? <==> Passable(t.folders, from, segments))
      && (r.Ok? ==> PathMade(t, r.value.0, from, segments, r.value.1))
    decreases |segments|
  {
    hide Forest, EnsureChild, PathMade;
    if segments == [] {
      NoPath(t, from);
    } else {
      EnsureChildKeeps(t, from, segments[0]);
      var r := EnsurePath(t, from, segments);
      if c :| Child(t.folders, from, segments[0], c) {
        EnsurePathThrough(t, from, segments, c);
      } else {
        ChildCreated(t, from, segments[0]);
        if segments[0] != "" {
          var f := Folder(segments[0], Some(from), t.folders[from].owner, NORMAL, false, None);
          EnsurePathMakes(Insert(t, f), t.nextId, segments[1..]);
          Fresh(t);
          NewIsChildless(t, f, segments[1..]);
          if r.Ok? {
            EnsurePathKeeps(Insert(t, f), t.nextId, segments[1..]);
            forall d | Child(r.value.0.folders, from, segments[0], d) ensures d == t.nextId {
              FirstChild(Insert(t, f), r.value.0, t.nextId, from, segments, r.value.1, d);
            }
            PathBeyond(t, from, segments, r.value.0, r.value.1);
          }
        }
      }
    }
  }

  lemma {:induction false} EnsurePathThrough(t: Tables, from: FolderId, segments: seq<string>, c: FolderId)
    requires Forest(t) && segments != [] && Child(t.folders, from, segments[0], c)
    ensures var r := EnsurePath(t, from, segments);
      && (r.Ok? <==> Passable(t.folders, from, segments))
      && (r.Ok? ==> PathMade(t, r.value.0, from, segments, r.value.1))
    decreases |segments|, 0
  {
    hide Forest, EnsureChild, PathMade;
    ChildTaken(t, from, segments[0], c);
    EnsureChildKeeps(t, from, segments[0]);
    var r := EnsurePath(t, from, segments);
    forall d | Child(t.folders, from, segments[0], d) ensures d == c {
      OneChild(t, from, segments[0], c, d);
    }
    if Enterable(t.folders[c]) {
      var t1 := t.(folders := t.folders[c := Revived(t.folders[c])]);
      SamePath(t.folders, t1.folders, c, segments[1..]);
      EnsurePathMakes(t1, c, segments[1..]);
      if r.Ok? {
        EnsurePathKeeps(t1, c, segments[1..]);
        forall d | Child(r.value.0.folders, from, segments[0], d) ensures d == c {
          FirstChild(t1, r.value.0, c, from, segments, r.value.1, d);
        }
        PathThrough(t, from, segments, c, r.value.0, r.value.1);
      }
    }
  }

  lemma FirstChild(t: Tables, t': Tables, c: FolderId, from: FolderId, segments: seq<string>, leaf: FolderId, d: FolderId)
    requires segments != [] && Child(t.folders, from, segments[0], c) && PathMade(t, t', c, segments[1..], leaf)
    requires Forest(t') && Child(t'.folders, from, segments[0], d)
    ensures d == c
  {
    hide Forest, OnPath, Leads;
    OneChild(t', from, segments[0], c, d);
  }

  lemma NoPath(t: Tables, from: FolderId)
    ensures PathMade(t, t, from, [], from)
  {
  }

  lemma Fresh(t: Tables)
    requires Forest(t)
    ensures t.nextId !in t.folders
  {
  }

  /** `ensure_folder_path` succeeds exactly if the start is there and is not the trash folder, and the
      path is passable. It returns the leaf of the path, all of which is live then; what was missing is
      new, what was in the trash is revived, and nothing else changes. */
  lemma EnsureFolderPathExactly(t: Tables, from: FolderId, segments: seq<string>)
    requires Forest(t)
    ensures var r := EnsureFolderPath(t, from, segments);
      && (r.Ok? <==> from in t.folders && t.folders[from].kind != TRASH && Passable(t.folders, from, segments))
      && (r.Ok? ==> PathMade(t, r.value.0, from, segments, r.value.1))
  {
    if from in t.folders && t.folders[from].kind != TRASH {
      EnsurePathMakes(t, from, segments);
    }
  }

  /** Where a path leads, ensuring it again changes nothing and returns its leaf. */
  lemma {:induction false} EnsureAgain(t: Tables, from: FolderId, segments: seq<string>, leaf: FolderId)
    requires Forest(t) && from in t.folders && Leads(t.folders, from, segments, leaf)
    ensures EnsurePath(t, from, segments) == Ok((t, leaf))
    decreases |segments|
  {
    hide Forest, EnsureChild;
    if segments != [] {
      var c :| Child(t.folders, from, segments[0], c) && !t.folders[c].trashed && t.folders[c].kind != TRASH
               && Leads(t.folders, c, segments[1..], leaf);
      ChildTaken(t, from, segments[0], c);
      assert t.folders[c := Revived(t.folders[c])] == t.folders;
      EnsureAgain(t, c, segments[1..], leaf);
    }
  }

  /** So ensuring a path twice is ensuring it once. */
  lemma EnsureTwice(t: Tables, from: FolderId, segments: seq<string>)
    requires Forest(t) && EnsureFolderPath(t, from, segments).Ok?
    ensures var r := EnsureFolderPath(t, from, segments);
      EnsureFolderPath(r.value.0, from, segments) == r
  {
    hide Forest, Passable, Leads, OnPath, EnsurePath;
    EnsureFolderPathExactly(t, from, segments);
    EnsurePathKeeps(t, from, segments);
    var r := EnsureFolderPath(t, from, segments);
    EnsureAgain(r.value.0, from, segments, r.value.1);
  }
}
