/** Every folder call keeps the forest; the subtree query is the least closed set. */
module FoldersProofs {
  import opened Wrappers
  import opened Folders

  // ------------------------------------------------------------ walking up

  lemma {:induction false} AncestorAdd(folders: map<FolderId, Folder>, x: FolderId, m: nat, n: nat)
    requires Ancestor(folders, x, m).Some?
    ensures Ancestor(folders, x, m + n) == Ancestor(folders, Ancestor(folders, x, m).value, n)
    decreases m
  {
    if m > 0 {
      AncestorAdd(folders, folders[x].parent.value, m - 1, n);
    }
  }

  lemma SelfBelow(folders: map<FolderId, Folder>, x: FolderId)
    ensures Below(folders, x, x)
  {
    assert Ancestor(folders, x, 0) == Some(x);
  }

  lemma ChildBelow(folders: map<FolderId, Folder>, x: FolderId, a: FolderId)
    requires x in folders && folders[x].parent.Some? && Below(folders, folders[x].parent.value, a)
    ensures Below(folders, x, a)
  {
    var n: nat :| Ancestor(folders, folders[x].parent.value, n) == Some(a);
    assert Ancestor(folders, x, n + 1) == Some(a);
  }

  lemma BelowParent(folders: map<FolderId, Folder>, x: FolderId, a: FolderId)
    requires Below(folders, x, a) && x != a
    ensures x in folders && folders[x].parent.Some? && Below(folders, folders[x].parent.value, a)
  {
    var n: nat :| Ancestor(folders, x, n) == Some(a);
    assert Ancestor(folders, folders[x].parent.value, n - 1) == Some(a);
  }

  ghost predicate ClosedUnderChildren(folders: map<FolderId, Folder>, s: set<FolderId>) {
    forall x <- folders :: folders[x].parent.Some? && folders[x].parent.value in s ==> x in s
  }

  /** The subtree query yields the least set that holds the folder and is closed under children. */
  lemma DescendantsAreLeast(folders: map<FolderId, Folder>, a: FolderId, s: set<FolderId>)
    requires a in folders
    ensures a in DescendantIds(folders, a)
    ensures ClosedUnderChildren(folders, DescendantIds(folders, a))
    ensures a in s && ClosedUnderChildren(folders, s) ==> DescendantIds(folders, a) <= s
  {
    SelfBelow(folders, a);
    forall x <- folders | folders[x].parent.Some? && folders[x].parent.value in DescendantIds(folders, a)
      ensures x in DescendantIds(folders, a)
    {
      ChildBelow(folders, x, a);
    }
    if a in s && ClosedUnderChildren(folders, s) {
      forall x <- DescendantIds(folders, a) ensures x in s {
        var n: nat :| Ancestor(folders, x, n) == Some(a);
        ClosedHolds(folders, a, s, x, n);
      }
    }
  }

  lemma {:induction false} ClosedHolds(folders: map<FolderId, Folder>, a: FolderId, s: set<FolderId>, x: FolderId, n: nat)
    requires a in s && ClosedUnderChildren(folders, s)
    requires Ancestor(folders, x, n) == Some(a)
    ensures x in s
    decreases n
  {
    if n > 0 {
      ClosedHolds(folders, a, s, folders[x].parent.value, n - 1);
    }
  }

  lemma {:induction false} RankFalls(folders: map<FolderId, Folder>, rank: map<FolderId, nat>, x: FolderId, n: nat)
    requires Ranked(folders, rank) && x in rank && Ancestor(folders, x, n).Some?
    ensures Ancestor(folders, x, n).value in rank
    ensures rank[Ancestor(folders, x, n).value] + n <= rank[x]
    decreases n
  {
    if n > 0 {
      RankFalls(folders, rank, folders[x].parent.value, n - 1);
    }
  }

  /** Every folder's way up ends at the root of its owner. */
  lemma EveryFolderReachesItsRoot(t: Tables, x: FolderId) returns (n: nat)
    requires Forest(t) && x in t.folders
    ensures var root := Ancestor(t.folders, x, n);
      && root.Some? && SystemFolder(t.folders, root.value, t.folders[x].owner, ROOT)
      && t.folders[root.value].parent == None
  {
    var rank :| Ranked(t.folders, rank);
    n := ClimbToRoot(t, rank, x);
  }

  lemma ClimbToRoot(t: Tables, rank: map<FolderId, nat>, x: FolderId) returns (n: nat)
    requires Forest(t) && x in t.folders && Ranked(t.folders, rank)
    ensures var root := Ancestor(t.folders, x, n);
      && root.Some? && SystemFolder(t.folders, root.value, t.folders[x].owner, ROOT)
      && t.folders[root.value].parent == None
    decreases rank[x]
  {
    assert WellPlaced(t.folders, x);
    if t.folders[x].parent.None? {
      n := 0;
    } else {
      n := ClimbToRoot(t, rank, t.folders[x].parent.value);
      n := n + 1;
    }
  }

  // ------------------------------------------------------------ what lies below a folder

  lemma BelowExists(folders: map<FolderId, Folder>, x: FolderId, a: FolderId)
    requires AllPlaced(folders) && x in folders && Below(folders, x, a) && x != a
    ensures folders[x].parent.Some? && folders[x].parent.value in DescendantIds(folders, a)
  {
    BelowParent(folders, x, a);
    assert WellPlaced(folders, x);
  }

  lemma {:induction false} BelowOwner(folders: map<FolderId, Folder>, x: FolderId, a: FolderId, n: nat)
    requires AllPlaced(folders) && x in folders && Ancestor(folders, x, n) == Some(a)
    ensures a in folders && folders[a].owner == folders[x].owner
    ensures folders[a].kind == NORMAL ==> folders[x].kind == NORMAL
    decreases n
  {
    if n > 0 {
      assert WellPlaced(folders, x);
      var p := folders[x].parent.value;
      BelowOwner(folders, p, a, n - 1);
      if folders[p].kind == ROOT {
        assert WellPlaced(folders, p);
      }
    }
  }

  /** Below a normal folder there are only normal folders, all of its owner. */
  lemma SubtreeIsPlain(folders: map<FolderId, Folder>, a: FolderId)
    requires AllPlaced(folders) && a in folders && folders[a].kind == NORMAL
    ensures forall x <- DescendantIds(folders, a) :: folders[x].owner == folders[a].owner && folders[x].kind == NORMAL
  {
    forall x <- DescendantIds(folders, a) ensures folders[x].owner == folders[a].owner && folders[x].kind == NORMAL {
      var n: nat :| Ancestor(folders, x, n) == Some(a);
      BelowOwner(folders, x, a, n);
    }
  }

  // ------------------------------------------------------------ shapes

  /** Same tree: parents, owners, kinds and names agree. */
  predicate SameTree(f: map<FolderId, Folder>, g: map<FolderId, Folder>) {
    f.Keys == g.Keys && forall x <- f ::
      g[x].parent == f[x].parent && g[x].owner == f[x].owner && g[x].kind == f[x].kind && g[x].name == f[x].name
  }

  lemma SameTreeKeeps(f: map<FolderId, Folder>, g: map<FolderId, Folder>)
    requires SameTree(f, g)
    ensures Acyclic(f) ==> Acyclic(g)
    ensures AllPlaced(f) ==> AllPlaced(g)
    ensures NamesDiffer(f) ==> NamesDiffer(g)
    ensures SystemsUnique(f) ==> SystemsUnique(g)
  {
    if Acyclic(f) {
      var rank :| Ranked(f, rank);
      assert Ranked(g, rank);
    }
    if AllPlaced(f) {
      forall x <- g ensures WellPlaced(g, x) {
        assert WellPlaced(f, x);
      }
    }
  }

  lemma SameTreeForest(t: Tables, t': Tables)
    requires Forest(t) && SameTree(t.folders, t'.folders) && t'.nextId == t.nextId
    requires DocsFiled(t')
    ensures Forest(t')
  {
    hide Acyclic, AllPlaced, NamesDiffer, SystemsUnique, DocsFiled;
    SameTreeKeeps(t.folders, t'.folders);
  }

  lemma NameIsUnique(t: Tables, parent: FolderId, owner: OwnerId, name: string)
    requires Forest(t)
    ensures forall x, y, a, b :: NameTaken(t.folders, parent, owner, name, x, a) && NameTaken(t.folders, parent, owner, name, y, b)
              ==> x == y
  {
    assert NamesDiffer(t.folders);
    forall x, y, a, b | NameTaken(t.folders, parent, owner, name, x, a) && NameTaken(t.folders, parent, owner, name, y, b)
      ensures x == y
    {
      assert Siblings(t.folders[x], t.folders[y]);
    }
  }

  // ------------------------------------------------------------ inserting

  /** What a new folder needs. */
  predicate Fits(t: Tables, f: Folder) {
    if f.parent.None? then f.kind == ROOT && forall y <- t.folders :: !SystemFolder(t.folders, y, f.owner, ROOT)
    else
      && f.parent.value in t.folders && t.folders[f.parent.value].owner == f.owner
      && f.kind != ROOT
      && (f.kind == NORMAL || (t.folders[f.parent.value].kind == ROOT
          && forall y <- t.folders :: !SystemFolder(t.folders, y, f.owner, f.kind)))
      && forall y <- t.folders :: !NameTaken(t.folders, f.parent.value, f.owner, f.name, y, false)
  }

  lemma InsertKeepsAcyclic(t: Tables, f: Folder)
    requires Forest(t) && Fits(t, f)
    ensures Acyclic(Insert(t, f).folders)
  {
    var rank :| Ranked(t.folders, rank);
    var rank' := rank[t.nextId := if f.parent.Some? then rank[f.parent.value] + 1 else 0];
    forall x <- Insert(t, f).folders
      ensures x in rank'
      ensures Insert(t, f).folders[x].parent.Some? ==>
        Insert(t, f).folders[x].parent.value in rank' && rank'[Insert(t, f).folders[x].parent.value] < rank'[x]
    {
      if x in t.folders {
        assert WellPlaced(t.folders, x);
      }
    }
    assert Ranked(Insert(t, f).folders, rank');
  }

  lemma InsertKeepsPlaced(t: Tables, f: Folder)
    requires AllPlaced(t.folders) && t.nextId !in t.folders && Fits(t, f)
    ensures AllPlaced(Insert(t, f).folders)
  {
    var t' := Insert(t, f);
    forall x <- t'.folders ensures WellPlaced(t'.folders, x) {
      if x != t.nextId {
        assert WellPlaced(t.folders, x);
      }
    }
  }

  lemma InsertKeepsNames(t: Tables, f: Folder)
    requires NamesDiffer(t.folders) && t.nextId !in t.folders && Fits(t, f)
    ensures NamesDiffer(Insert(t, f).folders)
  {
  }

  lemma InsertKeepsSystems(t: Tables, f: Folder)
    requires SystemsUnique(t.folders) && t.nextId !in t.folders && Fits(t, f)
    ensures SystemsUnique(Insert(t, f).folders)
  {
  }

  lemma InsertKeepsForest(t: Tables, f: Folder)
    requires Forest(t) && Fits(t, f)
    ensures Forest(Insert(t, f))
  {
    InsertKeepsAcyclic(t, f);
    assert t.nextId !in t.folders;
    InsertKeepsPlaced(t, f);
    InsertKeepsNames(t, f);
    InsertKeepsSystems(t, f);
    hide Acyclic, AllPlaced, NamesDiffer, SystemsUnique, Fits;
  }

  /** Nothing that was there changes; new folders are live system folders of the owner, directly under
      a root. */
  ghost predicate Extends(t: Tables, t': Tables, owner: OwnerId) {
    && t.nextId <= t'.nextId && t'.docs == t.docs
    && (forall x <- t.folders :: x in t'.folders && t'.folders[x] == t.folders[x])
    && (forall x <- t'.folders :: x in t.folders || (t.nextId <= x && UnderRoot(t'.folders, x, owner)))
  }

  predicate UnderRoot(folders: map<FolderId, Folder>, x: FolderId, owner: OwnerId)
    requires x in folders
  {
    var p := folders[x].parent;
    && (p.Some? ==> p.value in folders && folders[p.value].kind == ROOT)
    && folders[x].owner == owner && !folders[x].trashed && folders[x].trashedAt == None
    && folders[x].name == (match folders[x].kind case ROOT => "Documents" case INBOX => "Inbox" case TRASH => "Trash" case NORMAL => "")
    && folders[x].kind != NORMAL
  }

  /** A missing system folder fits in: under the root, or as the root. */
  lemma SystemFits(t: Tables, owner: OwnerId, kind: Kind)
    requires Forest(t) && kind != NORMAL && FindSystem(t, owner, kind).None?
    requires kind != ROOT ==>
      var root := FindSystem(t, owner, ROOT);
      root.Some? && !Taken(t.folders, root.value, owner, SystemName(kind), false, None)
    ensures Fits(t, Folder(SystemName(kind), if kind == ROOT then None else FindSystem(t, owner, ROOT), owner, kind, false, None))
  {
    hide Acyclic, AllPlaced, NamesDiffer, SystemsUnique, DocsFiled, SystemName;
    assert forall y <- t.folders :: !SystemFolder(t.folders, y, owner, kind);
  }

  lemma EnsureSystemKeeps(t: Tables, owner: OwnerId, kind: Kind)
    requires Forest(t) && kind != NORMAL
    ensures var r := EnsureSystem(t, owner, kind);
      r.Ok? ==> Forest(r.value) && Extends(t, r.value, owner) && exists x :: SystemFolder(r.value.folders, x, owner, kind)
  {
    hide Taken, Fits, Acyclic, AllPlaced, NamesDiffer, SystemsUnique, DocsFiled;
    var found := FindSystem(t, owner, kind);
    if found.None? {
      var f := Folder(SystemName(kind), if kind == ROOT then None else FindSystem(t, owner, ROOT), owner, kind, false, None);
      if EnsureSystem(t, owner, kind).Ok? {
        SystemFits(t, owner, kind);
        InsertKeepsForest(t, f);
        assert SystemFolder(Insert(t, f).folders, t.nextId, owner, kind);
      }
    } else {
      assert SystemFolder(t.folders, found.value, owner, kind);
    }
  }

  lemma ExtendsCompose(t: Tables, t1: Tables, t2: Tables, owner: OwnerId)
    requires Extends(t, t1, owner) && Extends(t1, t2, owner)
    ensures Extends(t, t2, owner)
  {
  }

  lemma EnsureSystemFoldersKeeps(t: Tables, owner: OwnerId)
    requires Forest(t)
    ensures var r := EnsureSystemFolders(t, owner);
      r.Ok? ==> Forest(r.value) && Extends(t, r.value, owner)
  {
    hide Forest, Extends, EnsureSystem;
    EnsureSystemKeeps(t, owner, ROOT);
    var r1 := EnsureSystem(t, owner, ROOT);
    if r1.Ok? {
      EnsureSystemKeeps(r1.value, owner, INBOX);
      var r2 := EnsureSystem(r1.value, owner, INBOX);
      if r2.Ok? {
        EnsureSystemKeeps(r2.value, owner, TRASH);
        ExtendsCompose(t, r1.value, r2.value, owner);
        var r3 := EnsureSystem(r2.value, owner, TRASH);
        if r3.Ok? {
          ExtendsCompose(t, r2.value, r3.value, owner);
        }
      }
    }
  }

  lemma ExtendsSelf(t: Tables, owner: OwnerId)
    ensures Extends(t, t, owner)
  {
  }

  lemma GetSystemKeeps(t: Tables, owner: OwnerId, kind: Kind)
    requires Forest(t)
    ensures var r := GetSystem(t, owner, kind);
      r.Ok? ==> Forest(r.value.0) && Extends(t, r.value.0, owner) && SystemFolder(r.value.0.folders, r.value.1, owner, kind)
  {
    hide Forest, Extends, EnsureSystemFolders;
    EnsureSystemFoldersKeeps(t, owner);
    ExtendsSelf(t, owner);
  }

  /** A new live folder `x` of the given owner under `parent`; no other row differs. */
  ghost predicate Added(t: Tables, t': Tables, owner: OwnerId, name: string, parent: FolderId, x: FolderId) {
    && x !in t.folders && x in t'.folders && t'.folders[x] == Folder(name, Some(parent), owner, NORMAL, false, None)
    && t'.docs == t.docs && (forall y <- t.folders :: y in t'.folders && t'.folders[y] == t.folders[y])
  }

  lemma CreateUnderKeeps(t: Tables, owner: OwnerId, name: string, parent: FolderId)
    requires Forest(t) && Owned(t, parent, owner)
    ensures var r := CreateUnder(t, owner, name, parent);
      r.Ok? ==> Forest(r.value) && Added(t, r.value, owner, name, parent, t.nextId)
  {
    if CreateUnder(t, owner, name, parent).Ok? {
      var f := Folder(name, Some(parent), owner, NORMAL, false, None);
      assert Fits(t, f);
      InsertKeepsForest(t, f);
      hide Acyclic, AllPlaced, NamesDiffer, SystemsUnique, DocsFiled;
      assert t.nextId !in t.folders;
    }
  }

  lemma AddedLater(t: Tables, t1: Tables, t': Tables, owner: OwnerId, name: string, root: FolderId, x: FolderId)
    requires Extends(t, t1, owner) && Added(t1, t', owner, name, root, x) && SystemFolder(t1.folders, root, owner, ROOT)
    ensures Added(t, t', owner, name, root, x) && SystemFolder(t'.folders, root, owner, ROOT)
  {
  }

  /** The new folder hangs under the given parent, or under the owner's root. */
  lemma CreateKeepsForest(t: Tables, owner: OwnerId, name: string, parent: Option<FolderId>)
    requires Forest(t)
    ensures var r := CreateFolder(t, owner, name, parent);
      r.Ok? ==>
        && Forest(r.value.0) && r.value.1 in r.value.0.folders
        && (parent.Some? ==> Added(t, r.value.0, owner, name, parent.value, r.value.1))
        && (parent.None? ==> exists root ::
              SystemFolder(r.value.0.folders, root, owner, ROOT) && Added(t, r.value.0, owner, name, root, r.value.1))
  {
    hide Forest, Extends, GetSystem, CreateUnder, SystemFolder;
    GetSystemKeeps(t, owner, ROOT);
    if parent.None? {
      var root := GetSystem(t, owner, ROOT);
      if root.Ok? {
        var (t1, r) := root.value;
        RootIsOwned(t1, r, owner);
        CreateUnderKeeps(t1, owner, name, r);
        var made := CreateUnder(t1, owner, name, r);
        if made.Ok? {
          AddedLater(t, t1, made.value, owner, name, r, t1.nextId);
        }
      }
    } else if Owned(t, parent.value, owner) {
      CreateUnderKeeps(t, owner, name, parent.value);
    }
  }

  lemma RootIsOwned(t: Tables, root: FolderId, owner: OwnerId)
    requires SystemFolder(t.folders, root, owner, ROOT)
    ensures Owned(t, root, owner)
  {
  }

  lemma EnsureChildKeeps(t: Tables, parent: FolderId, name: string)
    requires Forest(t)
    ensures var r := EnsureChild(t, parent, name);
      r.Ok? ==> Forest(r.value.0) && r.value.1 in r.value.0.folders
  {
    if parent in t.folders {
      hide Acyclic, AllPlaced, NamesDiffer, SystemsUnique, CreateFolder;
      var owner := t.folders[parent].owner;
      CreateKeepsForest(t, owner, name, Some(parent));
      var r := EnsureChild(t, parent, name);
      if r.Ok? && r != CreateFolder(t, owner, name, Some(parent)) {
        SameTreeForest(t, r.value.0);
      }
    }
  }

  lemma {:induction false} EnsurePathKeeps(t: Tables, parent: FolderId, segments: seq<string>)
    requires Forest(t) && parent in t.folders
    ensures var r := EnsurePath(t, parent, segments);
      r.Ok? ==> Forest(r.value.0) && r.value.1 in r.value.0.folders
    decreases |segments|
  {
    hide Forest, EnsureChild;
    if segments != [] {
      EnsureChildKeeps(t, parent, segments[0]);
      var r := EnsureChild(t, parent, segments[0]);
      if r.Ok? {
        EnsurePathKeeps(r.value.0, r.value.1, segments[1..]);
      }
    }
  }

  // ------------------------------------------------------------ renaming and moving

  /** Giving one folder a name that no sibling has. */
  lemma RenamedApart(f: map<FolderId, Folder>, x: FolderId, row: Folder)
    requires NamesDiffer(f) && x in f
    requires forall y <- f | y != x && Siblings(row, f[y]) :: f[y].name != row.name
    ensures NamesDiffer(f[x := row])
  {
  }

  lemma SameKindsUnique(f: map<FolderId, Folder>, x: FolderId, row: Folder)
    requires SystemsUnique(f) && x in f && row.owner == f[x].owner && row.kind == f[x].kind
    ensures SystemsUnique(f[x := row])
  {
  }

  lemma SameOwnersFiled(t: Tables, x: FolderId, row: Folder)
    requires DocsFiled(t) && x in t.folders && row.owner == t.folders[x].owner
    ensures DocsFiled(t.(folders := t.folders[x := row]))
  {
  }

  lemma RenameKeepsForest(t: Tables, owner: OwnerId, x: FolderId, name: string)
    requires Forest(t)
    ensures RenameFolder(t, owner, x, name).Ok? ==> Forest(RenameFolder(t, owner, x, name).value)
  {
    if RenameFolder(t, owner, x, name).Ok? {
      var f, row := t.folders, t.folders[x].(name := name);
      var g := f[x := row];
      hide SystemsUnique, NamesDiffer, DocsFiled;
      var rank :| Ranked(f, rank);
      assert Ranked(g, rank);
      hide Acyclic, Ranked;
      forall y <- g ensures WellPlaced(g, y) {
        assert WellPlaced(f, y);
      }
      forall y <- f | y != x && Siblings(row, f[y]) ensures f[y].name != name {
        assert !NameTaken(f, f[x].parent.value, owner, name, y, false);
      }
      RenamedApart(f, x, row);
      SameKindsUnique(f, x, row);
      SameOwnersFiled(t, x, row);
    }
  }

  /** Hanging a subtree under a folder outside it makes no cycle. */
  lemma MoveKeepsAcyclic(folders: map<FolderId, Folder>, x: FolderId, dest: FolderId)
    requires Acyclic(folders) && AllPlaced(folders) && x in folders && dest in folders
    requires dest !in DescendantIds(folders, x)
    ensures Acyclic(folders[x := folders[x].(parent := Some(dest))])
  {
    var rank :| Ranked(folders, rank);
    var g := folders[x := folders[x].(parent := Some(dest))];
    var below := DescendantIds(folders, x);
    var rank' := map y | y in folders :: if y in below then rank[y] + rank[dest] + 1 else rank[y];
    SelfBelow(folders, x);
    forall y <- g ensures y in rank'
      ensures g[y].parent.Some? ==> g[y].parent.value in rank' && rank'[g[y].parent.value] < rank'[y]
    {
      assert WellPlaced(folders, y);
      if y != x && folders[y].parent.Some? {
        var p := folders[y].parent.value;
        if y in below {
          BelowExists(folders, y, x);
        } else if p in below {
          ChildBelow(folders, y, x);
        }
      }
    }
    assert Ranked(g, rank');
  }

  lemma MoveKeepsForest(t: Tables, owner: OwnerId, x: FolderId, dest: FolderId)
    requires Forest(t)
    ensures MoveFolder(t, owner, x, dest).Ok? ==> Forest(MoveFolder(t, owner, x, dest).value)
  {
    if MoveFolder(t, owner, x, dest).Ok? {
      var f, row := t.folders, t.folders[x].(parent := Some(dest));
      var g := f[x := row];
      MoveKeepsAcyclic(f, x, dest);
      hide Acyclic, DescendantIds, SystemsUnique, NamesDiffer, DocsFiled;
      forall y <- g ensures WellPlaced(g, y) {
        assert WellPlaced(f, y);
      }
      forall y <- f | y != x && Siblings(row, f[y]) ensures f[y].name != row.name {
        assert !NameTaken(f, dest, owner, f[x].name, y, false);
      }
      RenamedApart(f, x, row);
      SameKindsUnique(f, x, row);
      SameOwnersFiled(t, x, row);
    }
  }

  // ------------------------------------------------------------ trashing and restoring

  lemma TrashKeepsForest(t: Tables, ids: set<FolderId>, owner: OwnerId, now: Time)
    requires Forest(t)
    ensures Forest(TrashIn(t, ids, owner, now))
  {
    hide Acyclic, AllPlaced, NamesDiffer, SystemsUnique;
    SameTreeForest(t, TrashIn(t, ids, owner, now));
  }

  lemma RestoreKeepsForest(t: Tables, ids: set<FolderId>, owner: OwnerId)
    requires Forest(t)
    ensures Forest(RestoreIn(t, ids, owner))
  {
    hide Acyclic, AllPlaced, NamesDiffer, SystemsUnique;
    SameTreeForest(t, RestoreIn(t, ids, owner));
  }

  // ------------------------------------------------------------ deleting

  /** Removing folders that have no other children and no documents. */
  lemma RemoveKeepsForest(t: Tables, ids: set<FolderId>)
    requires Forest(t)
    requires forall y <- t.folders | y !in ids :: !(t.folders[y].parent.Some? && t.folders[y].parent.value in ids)
    requires forall d <- t.docs :: t.docs[d].folder !in ids
    ensures Forest(RemoveFolders(t, ids))
  {
    hide Acyclic, AllPlaced, NamesDiffer, SystemsUnique;
    FewerFolders(t.folders, ids);
    FewerPlaced(t.folders, ids);
  }

  lemma FewerFolders(folders: map<FolderId, Folder>, ids: set<FolderId>)
    requires Acyclic(folders) && NamesDiffer(folders) && SystemsUnique(folders)
    ensures Acyclic(folders - ids) && NamesDiffer(folders - ids) && SystemsUnique(folders - ids)
  {
    var rank :| Ranked(folders, rank);
    assert Ranked(folders - ids, rank);
  }

  lemma FewerPlaced(folders: map<FolderId, Folder>, ids: set<FolderId>)
    requires AllPlaced(folders)
    requires forall y <- folders | y !in ids :: !(folders[y].parent.Some? && folders[y].parent.value in ids)
    ensures AllPlaced(folders - ids)
  {
    forall y <- folders - ids ensures WellPlaced(folders - ids, y) {
      assert WellPlaced(folders, y);
    }
  }

  /** Moving children in sequence puts each of them, and nothing else, under `dest`. */
  lemma {:induction false} MoveAllKeeps(t: Tables, owner: OwnerId, children: seq<FolderId>, dest: FolderId)
    requires Forest(t)
    ensures var r := MoveAll(t, owner, children, dest);
      r.Ok? ==>
        && Forest(r.value) && r.value.folders.Keys == t.folders.Keys && r.value.docs == t.docs && r.value.nextId == t.nextId
        && (forall y <- t.folders :: r.value.folders[y] ==
              if y in children then t.folders[y].(parent := Some(dest)) else t.folders[y])
        && (children != [] ==> Owned(t, dest, owner))
    decreases |children|
  {
    hide Forest, DescendantIds, Taken;
    if children != [] {
      MoveKeepsForest(t, owner, children[0], dest);
      var r := MoveFolder(t, owner, children[0], dest);
      if r.Ok? {
        MoveAllKeeps(r.value, owner, children[1..], dest);
      }
    }
  }

  lemma RefileKeeps(t: Tables, x: FolderId, owner: OwnerId, dest: FolderId, toInbox: bool)
    requires Forest(t) && Owned(t, x, owner) && Owned(t, dest, owner) && dest != x
    ensures Forest(RefileDocs(t, x, owner, dest, toInbox))
    ensures RefileDocs(t, x, owner, dest, toInbox).folders == t.folders
    ensures forall d <- RefileDocs(t, x, owner, dest, toInbox).docs :: RefileDocs(t, x, owner, dest, toInbox).docs[d].folder != x
  {
    hide Acyclic, AllPlaced, NamesDiffer, SystemsUnique;
    SameTreeForest(t, RefileDocs(t, x, owner, dest, toInbox));
  }

  /** Once its children hang under `dest`, nothing hangs under `x`. */
  lemma NoChildLeft(t: Tables, moved: Tables, x: FolderId, children: seq<FolderId>, dest: FolderId)
    requires dest != x && moved.folders.Keys == t.folders.Keys
    requires forall y <- t.folders :: t.folders[y].parent == Some(x) ==> y in children
    requires forall y <- t.folders ::
      moved.folders[y] == if y in children then t.folders[y].(parent := Some(dest)) else t.folders[y]
    ensures forall y <- moved.folders :: moved.folders[y].parent != Some(x)
    ensures forall y <- moved.folders :: moved.folders[y].owner == t.folders[y].owner
  {
  }

  lemma EmptyIntoKeeps(t: Tables, owner: OwnerId, x: FolderId, children: seq<FolderId>, dest: FolderId, toInbox: bool)
    requires Forest(t) && Owned(t, x, owner) && Owned(t, dest, owner) && dest != x
    requires forall y <- t.folders :: t.folders[y].parent == Some(x) ==> y in children
    ensures var r := EmptyInto(t, owner, x, children, dest, toInbox);
      r.Ok? ==> Forest(r.value)
  {
    hide Forest, MoveAll, RefileDocs;
    MoveAllKeeps(t, owner, children, dest);
    var moved := MoveAll(t, owner, children, dest);
    if moved.Ok? {
      NoChildLeft(t, moved.value, x, children, dest);
      RefileKeeps(moved.value, x, owner, dest, toInbox);
      RemoveKeepsForest(RefileDocs(moved.value, x, owner, dest, toInbox), {x});
    }
  }

  lemma DiscardKeeps(t: Tables, owner: OwnerId, x: FolderId, trash: FolderId, now: Time)
    requires Forest(t) && Owned(t, x, owner) && t.folders[x].kind == NORMAL && SystemFolder(t.folders, trash, owner, TRASH)
    ensures var ids := DescendantIds(t.folders, x);
      Forest(RemoveFolders(DiscardDocs(t, ids, owner, trash, now), ids))
  {
    hide Acyclic, AllPlaced, NamesDiffer, SystemsUnique, DescendantIds;
    var ids := DescendantIds(t.folders, x);
    SubtreeIsPlain(t.folders, x);
    DescendantsAreLeast(t.folders, x, {});
    var discarded := DiscardDocs(t, ids, owner, trash, now);
    SameTreeForest(t, discarded);
    RemoveKeepsForest(discarded, ids);
  }

  /** The child query sees every child: children have their parent's owner. */
  lemma ChildrenAreAll(t: Tables, owner: OwnerId, x: FolderId, children: seq<FolderId>)
    requires Forest(t) && Owned(t, x, owner) && Enumerates(children, ChildIds(t, x, owner))
    ensures forall y <- t.folders :: t.folders[y].parent == Some(x) ==> y in children
  {
    forall y <- t.folders | t.folders[y].parent == Some(x) ensures y in children {
      assert WellPlaced(t.folders, y);
    }
  }

  lemma ParentIsAnother(t: Tables, x: FolderId)
    requires Forest(t) && x in t.folders && t.folders[x].parent.Some?
    ensures t.folders[x].parent.value != x
  {
    var rank :| Ranked(t.folders, rank);
  }

  /** Every deletion strategy keeps the forest. */
  lemma DeleteKeepsForest(t: Tables, owner: OwnerId, x: FolderId, strategy: Strategy, children: seq<FolderId>)
    requires Forest(t) && Enumerates(children, ChildIds(t, x, owner))
    ensures var r := DeleteFolder(t, owner, x, strategy, children);
      r.Ok? ==> Forest(r.value)
  {
    if Owned(t, x, owner) && t.folders[x].kind == NORMAL {
      ChildrenAreAll(t, owner, x, children);
      match strategy
      case ToTrash(now) =>
        TrashKeepsForest(t, DescendantIds(t.folders, x), owner, now);
      case MoveToParent =>
        DeleteEmptyKeeps(t, owner, x, children);
        if t.folders[x].parent.Some? && Owned(t, t.folders[x].parent.value, owner) {
          ParentIsAnother(t, x);
          EmptyIntoKeeps(t, owner, x, children, t.folders[x].parent.value, false);
        }
      case MoveToInbox =>
        DeleteEmptyKeeps(t, owner, x, children);
        DeleteToInboxKeeps(t, owner, x, children);
      case DeleteDocuments(confirm, at) =>
        DeleteEmptyKeeps(t, owner, x, children);
        DeleteDocumentsKeeps(t, owner, x, at);
      case Unknown =>
        DeleteEmptyKeeps(t, owner, x, children);
    }
  }

  lemma DeleteEmptyKeeps(t: Tables, owner: OwnerId, x: FolderId, children: seq<FolderId>)
    requires Forest(t) && Owned(t, x, owner)
    requires forall y <- t.folders :: t.folders[y].parent == Some(x) ==> y in children
    ensures children == [] && DocsIn(t, {x}, owner) == {} ==> Forest(RemoveFolders(t, {x}))
  {
    if children == [] && DocsIn(t, {x}, owner) == {} {
      assert forall d <- t.docs :: t.docs[d].folder == x ==> d in DocsIn(t, {x}, owner);
      RemoveKeepsForest(t, {x});
    }
  }

  lemma DeleteToInboxKeeps(t: Tables, owner: OwnerId, x: FolderId, children: seq<FolderId>)
    requires Forest(t) && Owned(t, x, owner) && t.folders[x].kind == NORMAL
    requires forall y <- t.folders :: t.folders[y].parent == Some(x) ==> y in children
    ensures var inbox := GetSystem(t, owner, INBOX);
      inbox.Ok? && EmptyInto(inbox.value.0, owner, x, children, inbox.value.1, true).Ok?
      ==> Forest(EmptyInto(inbox.value.0, owner, x, children, inbox.value.1, true).value)
  {
    hide Forest, GetSystem, EmptyInto;
    GetSystemKeeps(t, owner, INBOX);
    var inbox := GetSystem(t, owner, INBOX);
    if inbox.Ok? {
      EmptyIntoKeeps(inbox.value.0, owner, x, children, inbox.value.1, true);
    }
  }

  lemma DeleteDocumentsKeeps(t: Tables, owner: OwnerId, x: FolderId, at: Time)
    requires Forest(t) && Owned(t, x, owner) && t.folders[x].kind == NORMAL
    ensures var trash := GetSystem(t, owner, TRASH);
      trash.Ok? ==>
        var ids := DescendantIds(trash.value.0.folders, x);
        Forest(RemoveFolders(DiscardDocs(trash.value.0, ids, owner, trash.value.1, at), ids))
  {
    hide Forest, GetSystem, DescendantIds;
    GetSystemKeeps(t, owner, TRASH);
    var trash := GetSystem(t, owner, TRASH);
    if trash.Ok? {
      DiscardKeeps(trash.value.0, owner, x, trash.value.1, at);
    }
  }

  // ------------------------------------------------------------ what deletion and trashing do to documents

  lemma {:induction false} MoveAllKeepsDocs(t: Tables, owner: OwnerId, children: seq<FolderId>, dest: FolderId)
    ensures MoveAll(t, owner, children, dest).Ok? ==> MoveAll(t, owner, children, dest).value.docs == t.docs
    decreases |children|
  {
    hide DescendantIds, Taken;
    if children != [] {
      var r := MoveFolder(t, owner, children[0], dest);
      if r.Ok? {
        MoveAllKeepsDocs(r.value, owner, children[1..], dest);
      }
    }
  }

  /** Exactly the documents of the deleted folder go to `dest`, with the inbox flag if that is the
      inbox; nothing else about a document changes, except that none comes from the folder any more. */
  ghost predicate SentTo(t: Tables, t': Tables, owner: OwnerId, x: FolderId, dest: FolderId, toInbox: bool) {
    && t'.docs.Keys == t.docs.Keys
    && forall d <- t.docs :: t'.docs[d] ==
         if t.docs[d].folder == x && t.docs[d].owner == owner
         then Forget(t.docs[d], {x}).(folder := dest, inbox := toInbox || t.docs[d].inbox) else Forget(t.docs[d], {x})
  }

  ghost predicate SentToInbox(t: Tables, t': Tables, owner: OwnerId, x: FolderId) {
    exists inbox :: SystemFolder(t'.folders, inbox, owner, INBOX) && SentTo(t, t', owner, x, inbox, true)
  }

  /** No deletion strategy loses a document: the move strategies send exactly the folder's own
      documents to the parent or to the owner's inbox, flagged as inbox documents, and leave the
      others; the destructive one sends those of the whole subtree to the trash folder, marked as
      trashed. An empty folder goes alone. */
  lemma DeleteLosesNoDocument(t: Tables, owner: OwnerId, x: FolderId, strategy: Strategy, children: seq<FolderId>)
    requires Forest(t) && Enumerates(children, ChildIds(t, x, owner)) && DeleteFolder(t, owner, x, strategy, children).Ok?
    ensures var t' := DeleteFolder(t, owner, x, strategy, children).value;
      var empty := children == [] && DocsIn(t, {x}, owner) == {};
      && t'.docs.Keys == t.docs.Keys
      && (empty && !strategy.ToTrash? ==> t'.docs == ForgetIn(t.docs, {x}))
      && (strategy.MoveToParent? && !empty ==>
            t.folders[x].parent.Some? && SentTo(t, t', owner, x, t.folders[x].parent.value, false))
      && (strategy.MoveToInbox? && !empty ==> SentToInbox(t, t', owner, x))
      && (strategy.DeleteDocuments? && !empty ==>
            forall d <- t.docs | t.docs[d].folder in DescendantIds(t.folders, x) ::
              t'.docs[d].trashed && SystemFolder(t'.folders, t'.docs[d].folder, owner, TRASH))
  {
    hide SentTo, SentToInbox;
    if children != [] || DocsIn(t, {x}, owner) != {} {
      match strategy
      case ToTrash(_) =>
      case MoveToParent =>
        EmptyIntoSends(t, owner, x, children, t.folders[x].parent.value, false);
        SentKeepsKeys(t, DeleteFolder(t, owner, x, strategy, children).value, owner, x, t.folders[x].parent.value, false);
      case MoveToInbox =>
        InboxSends(t, owner, x, children);
      case DeleteDocuments(_, at) =>
        DiscardSends(t, owner, x, at);
      case Unknown =>
    }
  }

  lemma SentKeepsKeys(t: Tables, t': Tables, owner: OwnerId, x: FolderId, dest: FolderId, toInbox: bool)
    requires SentTo(t, t', owner, x, dest, toInbox)
    ensures t'.docs.Keys == t.docs.Keys
  {
  }

  lemma EmptyIntoSends(t: Tables, owner: OwnerId, x: FolderId, children: seq<FolderId>, dest: FolderId, toInbox: bool)
    requires EmptyInto(t, owner, x, children, dest, toInbox).Ok?
    ensures SentTo(t, EmptyInto(t, owner, x, children, dest, toInbox).value, owner, x, dest, toInbox)
  {
    MoveAllKeepsDocs(t, owner, children, dest);
  }

  /** The inbox is still there afterwards: it is no normal folder, and moving children changes parents only. */
  lemma InboxSends(t: Tables, owner: OwnerId, x: FolderId, children: seq<FolderId>)
    requires Forest(t) && Owned(t, x, owner) && t.folders[x].kind == NORMAL && GetSystem(t, owner, INBOX).Ok?
    requires EmptyInto(GetSystem(t, owner, INBOX).value.0, owner, x, children, GetSystem(t, owner, INBOX).value.1, true).Ok?
    ensures var inbox := GetSystem(t, owner, INBOX).value;
      var t' := EmptyInto(inbox.0, owner, x, children, inbox.1, true).value;
      SentToInbox(t, t', owner, x) && t'.docs.Keys == t.docs.Keys
  {
    hide GetSystem, Forest;
    GetSystemKeeps(t, owner, INBOX);
    var (t1, inbox) := GetSystem(t, owner, INBOX).value;
    EmptyIntoSends(t1, owner, x, children, inbox, true);
    MoveAllKeeps(t1, owner, children, inbox);
    var t' := EmptyInto(t1, owner, x, children, inbox, true).value;
    assert t1.docs == t.docs;
    assert SystemFolder(t'.folders, inbox, owner, INBOX);
    assert SentTo(t, t', owner, x, inbox, true);
  }

  /** The trash folder is never in the subtree of a normal folder. */
  lemma DiscardSends(t: Tables, owner: OwnerId, x: FolderId, at: Time)
    requires Forest(t) && Owned(t, x, owner) && t.folders[x].kind == NORMAL && GetSystem(t, owner, TRASH).Ok?
    ensures var (t1, trash) := GetSystem(t, owner, TRASH).value;
      var ids := DescendantIds(t1.folders, x);
      var t' := RemoveFolders(DiscardDocs(t1, ids, owner, trash, at), ids);
      && t'.docs.Keys == t.docs.Keys
      && forall d <- t.docs | t.docs[d].folder in DescendantIds(t.folders, x) ::
           t'.docs[d].trashed && SystemFolder(t'.folders, t'.docs[d].folder, owner, TRASH)
  {
    hide GetSystem;
    GetSystemKeeps(t, owner, TRASH);
    var (t1, trash) := GetSystem(t, owner, TRASH).value;
    SubtreeIsPlain(t1.folders, x);
    SubtreeIsPlain(t.folders, x);
    forall y <- DescendantIds(t.folders, x) ensures y in DescendantIds(t1.folders, x) {
      var n: nat :| Ancestor(t.folders, y, n) == Some(x);
      SameWayUp(t, t1, owner, y, n);
    }
    hide Forest, Acyclic, NamesDiffer, SystemsUnique, AllPlaced, Extends, DescendantIds;
    DiscardedGo(t1, DescendantIds(t1.folders, x), owner, trash, at);
  }

  lemma DiscardedGo(t: Tables, ids: set<FolderId>, owner: OwnerId, trash: FolderId, at: Time)
    requires SystemFolder(t.folders, trash, owner, TRASH) && trash !in ids
    requires forall d <- t.docs | t.docs[d].folder in ids :: t.docs[d].owner == owner
    ensures var t' := RemoveFolders(DiscardDocs(t, ids, owner, trash, at), ids);
      && t'.docs.Keys == t.docs.Keys
      && forall d <- t.docs | t.docs[d].folder in ids ::
           t'.docs[d].trashed && SystemFolder(t'.folders, t'.docs[d].folder, owner, TRASH)
  {
    assert trash in t.folders - ids;
  }

  lemma {:induction false} SameWayUp(t: Tables, t': Tables, owner: OwnerId, y: FolderId, n: nat)
    requires Extends(t, t', owner) && Ancestor(t.folders, y, n).Some?
    ensures Ancestor(t'.folders, y, n) == Ancestor(t.folders, y, n)
    decreases n
  {
    if n > 0 {
      SameWayUp(t, t', owner, t.folders[y].parent.value, n - 1);
    }
  }

  /** Nothing in the subtree is in the trash, or still marked from an earlier stay there. */
  ghost predicate Live(t: Tables, ids: set<FolderId>) {
    && (forall y <- ids :: y in t.folders && !t.folders[y].trashed && t.folders[y].trashedAt == None)
    && (forall d <- t.docs | t.docs[d].folder in ids :: !t.docs[d].trashed && t.docs[d].trashedAt == None && t.docs[d].trashedFrom == None)
  }

  ghost predicate NoneInInbox(t: Tables, ids: set<FolderId>) {
    forall d <- t.docs | t.docs[d].folder in ids :: !t.docs[d].inbox
  }

  /** A document after its folder was trashed and restored. */
  function BackDocument(doc: Document): Document {
    doc.(trashed := false, trashedAt := None, trashedFrom := None, inbox := doc.trashed && doc.inbox)
  }

  /** The tables after the subtree `ids` was trashed and restored: all of it is live, also what was in
      the trash before, and no document that was live keeps its inbox flag. */
  ghost predicate BroughtBack(t: Tables, back: Tables, ids: set<FolderId>) {
    && back.nextId == t.nextId && back.folders.Keys == t.folders.Keys && back.docs.Keys == t.docs.Keys
    && (forall y <- t.folders :: back.folders[y] ==
          if y in ids then t.folders[y].(trashed := false, trashedAt := None) else t.folders[y])
    && (forall d <- t.docs :: back.docs[d] == if t.docs[d].folder in ids then BackDocument(t.docs[d]) else t.docs[d])
  }

  /** Restoring undoes trashing exactly when nothing in the subtree was in the trash before, or bears
      marks of it, and no document of it has the inbox flag. */
  lemma RestoreUndoesTrash(t: Tables, owner: OwnerId, x: FolderId, now: Time)
    requires Forest(t) && Owned(t, x, owner) && t.folders[x].kind == NORMAL
    ensures var ids := DescendantIds(t.folders, x);
      var trashed := TrashFolder(t, owner, x, now);
      && trashed.Ok? && RestoreFolder(trashed.value, owner, x).Ok?
      && (var back := RestoreFolder(trashed.value, owner, x).value;
          && (!t.folders[x].trashed ==> BroughtBack(t, back, ids))
          && (back == t <==> Live(t, ids) && NoneInInbox(t, ids)))
  {
    var ids := DescendantIds(t.folders, x);
    SelfBelow(t.folders, x);
    SubtreeIsPlain(t.folders, x);
    DescendantsAreLeast(t.folders, x, {});
    if t.folders[x].trashed {
      hide Forest, DescendantIds;
      assert x in RestoreIn(t, ids, owner).folders && !RestoreIn(t, ids, owner).folders[x].trashed;
    } else {
      SameDescendants(t.folders, TrashIn(t, ids, owner, now).folders, x);
      assert forall d <- t.docs | t.docs[d].folder in ids :: t.docs[d].owner == owner;
      hide Forest, DescendantIds;
      TopIsTrashed(t, ids, owner, x, now);
      BackIs(t, ids, owner, now);
      hide TrashIn, RestoreIn, Live, NoneInInbox, BroughtBack;
      BackExactly(t, RestoreIn(TrashIn(t, ids, owner, now), ids, owner), ids);
    }
  }

  lemma TopIsTrashed(t: Tables, ids: set<FolderId>, owner: OwnerId, x: FolderId, now: Time)
    requires x in ids && Owned(t, x, owner) && t.folders[x].kind == NORMAL
    ensures x in TrashIn(t, ids, owner, now).folders
    ensures TrashIn(t, ids, owner, now).folders[x] == t.folders[x].(trashed := true, trashedAt := Some(now))
  {
  }

  lemma BackIs(t: Tables, ids: set<FolderId>, owner: OwnerId, now: Time)
    requires forall y <- ids :: y in t.folders && t.folders[y].owner == owner && t.folders[y].kind == NORMAL
    requires forall d <- t.docs | t.docs[d].folder in ids :: t.docs[d].owner == owner
    ensures BroughtBack(t, RestoreIn(TrashIn(t, ids, owner, now), ids, owner), ids)
  {
  }

  lemma BackExactly(t: Tables, back: Tables, ids: set<FolderId>)
    requires BroughtBack(t, back, ids) && forall y <- ids :: y in t.folders
    ensures back == t <==> Live(t, ids) && NoneInInbox(t, ids)
  {
    if back == t {
      forall y <- ids ensures !t.folders[y].trashed && t.folders[y].trashedAt == None {
        assert back.folders[y] == t.folders[y];
      }
      forall d <- t.docs | t.docs[d].folder in ids ensures BackDocument(t.docs[d]) == t.docs[d] {
        assert back.docs[d] == t.docs[d];
      }
    }
    if Live(t, ids) && NoneInInbox(t, ids) {
      assert back.folders == t.folders && back.docs == t.docs;
    }
  }

  lemma SameDescendants(f: map<FolderId, Folder>, g: map<FolderId, Folder>, a: FolderId)
    requires f.Keys == g.Keys && forall x <- f :: f[x].parent == g[x].parent
    ensures DescendantIds(f, a) == DescendantIds(g, a)
  {
    forall x, n: nat ensures Ancestor(f, x, n) == Ancestor(g, x, n) {
      SameAncestor(f, g, x, n);
    }
    forall x <- f ensures Below(f, x, a) <==> Below(g, x, a) {
      if n: nat :| Ancestor(f, x, n) == Some(a) {
        assert Ancestor(g, x, n) == Some(a);
      }
      if n: nat :| Ancestor(g, x, n) == Some(a) {
        assert Ancestor(f, x, n) == Some(a);
      }
    }
  }

  lemma {:induction false} SameAncestor(f: map<FolderId, Folder>, g: map<FolderId, Folder>, x: FolderId, n: nat)
    requires f.Keys == g.Keys && forall y <- f :: f[y].parent == g[y].parent
    ensures Ancestor(f, x, n) == Ancestor(g, x, n)
    decreases n
  {
    if n > 0 && x in f && f[x].parent.Some? {
      SameAncestor(f, g, f[x].parent.value, n - 1);
    }
  }

  // ------------------------------------------------------------ purging a subtree

  /** What is left of the documents once the trashed ones of the subtree are gone. */
  ghost function WithoutTrashedDocs(t: Tables, owner: OwnerId, x: FolderId): Tables {
    var ids := DescendantIds(t.folders, x);
    t.(docs := map d | d in t.docs && !(d in DocsIn(t, ids, owner) && t.docs[d].trashed) :: t.docs[d])
  }

  lemma AllTrashedPurges(t: Tables, owner: OwnerId, x: FolderId)
    requires Forest(t) && PurgeSubtree(t, owner, x).Ok?
    requires forall y <- DescendantIds(t.folders, x) :: t.folders[y].trashed
    ensures Forest(PurgeSubtree(t, owner, x).value)
    ensures PurgeSubtree(t, owner, x).value.folders == t.folders - DescendantIds(t.folders, x)
  {
    hide Acyclic, AllPlaced, NamesDiffer, SystemsUnique;
    var ids, kept := DescendantIds(t.folders, x), WithoutTrashedDocs(t, owner, x);
    SubtreeIsPlain(t.folders, x);
    DescendantsAreLeast(t.folders, x, {});
    hide DescendantIds;
    SameTreeForest(t, kept);
    assert Purgeable(t, owner, x) == ids;
    RemoveKeepsForest(kept, ids);
    DetachNone(kept, ids);
  }

  /** Nothing is detached where all children go as well. */
  lemma DetachNone(t: Tables, ids: set<FolderId>)
    requires forall y <- t.folders | y !in ids :: !(t.folders[y].parent.Some? && t.folders[y].parent.value in ids)
    ensures DetachAndRemove(t, ids) == RemoveFolders(t, ids)
  {
  }

  lemma LiveChildDetaches(t: Tables, owner: OwnerId, x: FolderId, z: FolderId)
    requires Forest(t) && PurgeSubtree(t, owner, x).Ok?
    requires z in DescendantIds(t.folders, x) && !t.folders[z].trashed
    requires t.folders[z].parent.Some? && t.folders[z].parent.value in DescendantIds(t.folders, x)
    requires t.folders[t.folders[z].parent.value].trashed
    ensures z in PurgeSubtree(t, owner, x).value.folders
    ensures PurgeSubtree(t, owner, x).value.folders[z] == t.folders[z].(parent := None)
    ensures !Forest(PurgeSubtree(t, owner, x).value)
  {
    SubtreeIsPlain(t.folders, x);
    hide Acyclic, NamesDiffer, SystemsUnique, DescendantIds, DocsFiled;
    assert !WellPlaced(PurgeSubtree(t, owner, x).value.folders, z);
  }

  /** Permanently deleting a trashed subtree keeps the forest exactly when the whole subtree is in the
      trash: a live folder below a trashed one loses its parent and hangs from no root. */
  lemma PurgeKeepsForestExactly(t: Tables, owner: OwnerId, x: FolderId)
    requires Forest(t) && PurgeSubtree(t, owner, x).Ok?
    ensures Forest(PurgeSubtree(t, owner, x).value) <==> forall y <- DescendantIds(t.folders, x) :: t.folders[y].trashed
  {
    if forall y <- DescendantIds(t.folders, x) :: t.folders[y].trashed {
      AllTrashedPurges(t, owner, x);
    } else {
      hide Forest, DetachAndRemove, Purgeable, DocsIn;
      var y :| y in DescendantIds(t.folders, x) && !t.folders[y].trashed;
      var n: nat :| Ancestor(t.folders, y, n) == Some(x);
      var z := HighestLive(t, x, y, n);
      LiveChildDetaches(t, owner, x, z);
    }
  }

  /** On the way from a live folder up to the trashed top there is a live folder right below a trashed one. */
  lemma {:induction false} HighestLive(t: Tables, x: FolderId, y: FolderId, n: nat) returns (z: FolderId)
    requires Forest(t) && x in t.folders && t.folders[x].trashed
    requires y in t.folders && !t.folders[y].trashed && Ancestor(t.folders, y, n) == Some(x)
    ensures z in DescendantIds(t.folders, x) && !t.folders[z].trashed
    ensures t.folders[z].parent.Some? && t.folders[z].parent.value in DescendantIds(t.folders, x)
    ensures t.folders[t.folders[z].parent.value].trashed
    decreases n
  {
    assert n > 0 && WellPlaced(t.folders, y);
    var p := t.folders[y].parent.value;
    assert Below(t.folders, y, x) && Below(t.folders, p, x);
    if t.folders[p].trashed {
      z := y;
    } else {
      z := HighestLive(t, x, p, n - 1);
    }
  }

  // ------------------------------------------------------------ documents

  lemma DocStepsKeep(t: Tables, owner: OwnerId, d: DocId, x: FolderId, now: Time)
    requires Forest(t)
    ensures Forest(Tabled(t, AddDocument(t, owner, d, x)))
    ensures Forest(Tabled(t, MoveDocument(t, owner, d, x)))
    ensures Forest(t.(docs := t.docs - {d}))
  {
    hide Acyclic, AllPlaced, NamesDiffer, SystemsUnique;
    SameTreeForest(t, Tabled(t, AddDocument(t, owner, d, x)));
    SameTreeForest(t, Tabled(t, MoveDocument(t, owner, d, x)));
    SameTreeForest(t, t.(docs := t.docs - {d}));
  }

  /** Writing a document of the owner of its folder. */
  lemma PutDocKeeps(t: Tables, d: DocId, doc: Document)
    requires Forest(t) && Owned(t, doc.folder, doc.owner)
    requires doc.trashedFrom.Some? ==> Owned(t, doc.trashedFrom.value, doc.owner)
    ensures Forest(t.(docs := t.docs[d := doc]))
  {
    hide Acyclic, AllPlaced, NamesDiffer, SystemsUnique;
    SameTreeForest(t, t.(docs := t.docs[d := doc]));
  }

  lemma FiledAt(t: Tables, d: DocId)
    requires Forest(t) && d in t.docs
    ensures Owned(t, t.docs[d].folder, t.docs[d].owner)
  {
  }

  lemma TrashDocKeeps(t: Tables, owner: OwnerId, d: DocId, now: Time)
    requires Forest(t)
    ensures Forest(Tabled(t, TrashDocument(t, owner, d, now)))
  {
    hide Forest, GetSystem;
    GetSystemKeeps(t, owner, TRASH);
    var r := TrashDocument(t, owner, d, now);
    if r.Ok? && !t.docs[d].trashed {
      var (t1, _) := GetSystem(t, owner, TRASH).value;
      FiledAt(t, d);
      PutDocKeeps(t1, d, r.value.docs[d]);
    }
  }

  lemma RestoreDocKeeps(t: Tables, owner: OwnerId, d: DocId, into: Option<FolderId>)
    requires Forest(t)
    ensures Forest(Tabled(t, RestoreDocument(t, owner, d, into)))
  {
    hide Forest, GetSystem, Origin, Usable;
    GetSystemKeeps(t, owner, INBOX);
    var r := RestoreDocument(t, owner, d, into);
    if r.Ok? && t.docs[d].trashed {
      var (t1, _) := GetSystem(t, owner, INBOX).value;
      PutDocKeeps(t1, d, r.value.docs[d]);
    }
  }

  /** A document after it was trashed and restored: back in its folder if that is usable, else in the
      inbox of its owner; the inbox flag then says which it is. */
  ghost predicate HomeAgain(t: Tables, back: Tables, d: DocId)
    requires d in t.docs && d in back.docs
  {
    var before, after := t.docs[d], back.docs[d];
    && after == before.(folder := after.folder, inbox := after.inbox, trashedAt := None, trashedFrom := None)
    && (Usable(t, before.folder) ==> after.folder == before.folder && after.inbox == (t.folders[before.folder].kind == INBOX))
    && (!Usable(t, before.folder) ==> after.inbox && SystemFolder(back.folders, after.folder, before.owner, INBOX))
  }

  lemma TrashedDoc(t: Tables, owner: OwnerId, d: DocId, now: Time)
    requires Forest(t) && d in t.docs && t.docs[d].owner == owner && !t.docs[d].trashed
    requires TrashDocument(t, owner, d, now).Ok?
    ensures var t1 := TrashDocument(t, owner, d, now).value;
      && Forest(t1) && (forall x <- t.folders :: x in t1.folders && t1.folders[x] == t.folders[x])
      && t1.docs.Keys == t.docs.Keys && (forall e <- t.docs | e != d :: t1.docs[e] == t.docs[e])
      && t1.docs[d] == t.docs[d].(
           folder := t1.docs[d].folder, trashed := true, trashedAt := Some(now), inbox := false, trashedFrom := Some(t.docs[d].folder))
  {
    hide Forest, GetSystem;
    GetSystemKeeps(t, owner, TRASH);
    TrashDocKeeps(t, owner, d, now);
  }

  lemma RestoredDoc(t: Tables, owner: OwnerId, d: DocId, home: FolderId)
    requires Forest(t) && d in t.docs && t.docs[d].owner == owner && t.docs[d].trashed
    requires t.docs[d].trashedFrom == Some(home) && Owned(t, home, owner)
    requires RestoreDocument(t, owner, d, None).Ok?
    ensures var back := RestoreDocument(t, owner, d, None).value;
      && back.docs.Keys == t.docs.Keys && (forall e <- t.docs | e != d :: back.docs[e] == t.docs[e])
      && back.docs[d] == t.docs[d].(folder := back.docs[d].folder, trashed := false, trashedAt := None,
                                    inbox := back.docs[d].inbox, trashedFrom := None)
      && (if Usable(t, home) then back.docs[d].folder == home && back.docs[d].inbox == (t.folders[home].kind == INBOX)
          else back.docs[d].inbox && SystemFolder(back.folders, back.docs[d].folder, owner, INBOX))
  {
    hide Forest, GetSystem;
    GetSystemKeeps(t, owner, INBOX);
    var (t1, queue) := GetSystem(t, owner, INBOX).value;
    OnlyInbox(t1, owner, queue, home);
  }

  lemma OnlyInbox(t: Tables, owner: OwnerId, queue: FolderId, x: FolderId)
    requires Forest(t) && SystemFolder(t.folders, queue, owner, INBOX)
    ensures Owned(t, x, owner) ==> (x == queue <==> t.folders[x].kind == INBOX)
  {
    hide Acyclic, AllPlaced, NamesDiffer, DocsFiled;
  }

  /** Restoring a document undoes trashing it, as far as its folder is still there to take it. */
  lemma RestoreDocUndoesTrash(t: Tables, owner: OwnerId, d: DocId, now: Time)
    requires Forest(t) && d in t.docs && t.docs[d].owner == owner && !t.docs[d].trashed
    ensures var trashed := TrashDocument(t, owner, d, now);
      trashed.Ok? && RestoreDocument(trashed.value, owner, d, None).Ok? ==>
        var back := RestoreDocument(trashed.value, owner, d, None).value;
        && back.docs.Keys == t.docs.Keys && (forall e <- t.docs | e != d :: back.docs[e] == t.docs[e])
        && HomeAgain(t, back, d)
  {
    var trashed, home := TrashDocument(t, owner, d, now), t.docs[d].folder;
    if trashed.Ok? && RestoreDocument(trashed.value, owner, d, None).Ok? {
      assert Owned(t, home, owner);
      hide Forest, TrashDocument, RestoreDocument;
      TrashedDoc(t, owner, d, now);
      RestoredDoc(trashed.value, owner, d, home);
    }
  }

  // ------------------------------------------------------------ runs

  lemma StepKeepsForest(t: Tables, step: Step)
    requires Forest(t) && Enabled(t, step)
    ensures Forest(Apply(t, step))
  {
    hide Forest, EnsureSystemFolders, CreateFolder, EnsurePath, RenameFolder, MoveFolder, DeleteFolder, AddDocument,
         MoveDocument, TrashDocument, RestoreDocument, TrashIn, RestoreIn, Extends;
    match step
    case SetUp(owner) => EnsureSystemFoldersKeeps(t, owner);
    case Create(owner, name, parent) => CreateKeepsForest(t, owner, name, parent);
    case Ensure(x, segments) =>
      if x in t.folders {
        EnsurePathKeeps(t, x, segments);
      }
    case Rename(owner, x, name) => RenameKeepsForest(t, owner, x, name);
    case Move(owner, x, dest) => MoveKeepsForest(t, owner, x, dest);
    case Trash(owner, x, now) => TrashKeepsForest(t, DescendantIds(t.folders, x), owner, now);
    case Restore(owner, x) => RestoreKeepsForest(t, DescendantIds(t.folders, x), owner);
    case Delete(owner, x, strategy, children) => DeleteKeepsForest(t, owner, x, strategy, children);
    case AddDoc(owner, d, x) => DocStepsKeep(t, owner, d, x, 0);
    case MoveDoc(owner, d, x) => DocStepsKeep(t, owner, d, x, 0);
    case TrashDoc(owner, d, now) => TrashDocKeeps(t, owner, d, now);
    case RestoreDoc(owner, d, into) => RestoreDocKeeps(t, owner, d, into);
    case RemoveDoc(d) => DocStepsKeep(t, 0, d, 0, 0);
  }

  lemma EmptyIsForest()
    ensures Forest(EMPTY)
  {
    assert Ranked(EMPTY.folders, map[]);
  }

  /** In every reachable state the folders form a forest that reaches each owner's root. */
  lemma {:induction false} RunKeepsForest(states: seq<Tables>, steps: seq<Step>, n: nat)
    requires IsRun(states, steps) && n < |states|
    ensures Forest(states[n])
  {
    hide Forest, Apply, Enabled;
    if n == 0 {
      EmptyIsForest();
    } else {
      RunKeepsForest(states, steps, n - 1);
      StepKeepsForest(states[n - 1], steps[n - 1]);
    }
  }
}
