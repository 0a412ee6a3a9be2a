/** Which folder call may do what: for every call, exactly the rows of both tables that it changes. */
module FolderRights {
  import opened Wrappers
  import opened Folders
  import opened FoldersProofs
  import opened FolderPaths

  // ------------------------------------------------------------ what a caller may ask for

  predicate Plain(t: Tables, x: FolderId, owner: OwnerId) {
    x in t.folders && t.folders[x].owner == owner && t.folders[x].kind == NORMAL
  }

  /** Another folder there has the name, be it live or in the trash. */
  ghost predicate NameAt(t: Tables, parent: Option<FolderId>, name: string, except: FolderId) {
    exists y :: y in t.folders && y != except && t.folders[y].parent == parent && t.folders[y].name == name
  }

  /** A system folder is missing, and its name is taken right below the root. */
  ghost predicate Blocked(t: Tables, owner: OwnerId, kind: Kind) {
    && (forall x <- t.folders :: !SystemFolder(t.folders, x, owner, kind))
    && exists root <- t.folders :: SystemFolder(t.folders, root, owner, ROOT) && HasChild(t.folders, root, SystemName(kind))
  }

  /** The system folder is there, or all that are missing can be created. */
  ghost predicate SystemReady(t: Tables, owner: OwnerId, kind: Kind) {
    || (exists x <- t.folders :: SystemFolder(t.folders, x, owner, kind))
    || (!Blocked(t, owner, INBOX) && !Blocked(t, owner, TRASH))
  }

  ghost predicate MayRename(t: Tables, owner: OwnerId, x: FolderId, name: string) {
    Plain(t, x, owner) && name != "" && !NameAt(t, t.folders[x].parent, name, x)
  }

  ghost predicate MayMove(t: Tables, owner: OwnerId, x: FolderId, dest: FolderId) {
    && Plain(t, x, owner) && Owned(t, dest, owner) && t.folders[dest].kind != TRASH
    && !Below(t.folders, dest, x) && !NameAt(t, Some(dest), t.folders[x].name, x)
  }

  // ------------------------------------------------------------ moving children one by one

  lemma RenameExactly(t: Tables, owner: OwnerId, x: FolderId, name: string)
    requires Forest(t)
    ensures RenameFolder(t, owner, x, name).Ok? <==> MayRename(t, owner, x, name)
  {
    if Plain(t, x, owner) {
      NameTakenHere(t, t.folders[x].parent, owner, name, x);
      assert WellPlaced(t.folders, x);
    }
    hide Forest, Taken, NameAt;
  }

  /** All folders at a place have the owner of the place. */
  lemma NameTakenHere(t: Tables, parent: Option<FolderId>, owner: OwnerId, name: string, x: FolderId)
    requires Forest(t)
    ensures parent.Some? && Owned(t, parent.value, owner) ==>
              (Taken(t.folders, parent.value, owner, name, false, Some(x)) <==> NameAt(t, parent, name, x))
    ensures x in t.folders && t.folders[x].parent == parent && parent.Some? ==> Owned(t, parent.value, t.folders[x].owner)
  {
    hide Acyclic, NamesDiffer, SystemsUnique, DocsFiled;
    if x in t.folders {
      assert WellPlaced(t.folders, x);
    }
    if parent.Some? && Owned(t, parent.value, owner) {
      forall y: FolderId | y in t.folders && t.folders[y].parent == parent ensures t.folders[y].owner == owner {
        assert WellPlaced(t.folders, y);
      }
      hide AllPlaced, Forest;
      if y: FolderId :| NameTaken(t.folders, parent.value, owner, name, y, false) && y != x {
        assert NameAt(t, parent, name, x);
      }
      if y: FolderId :| y in t.folders && y != x && t.folders[y].parent == parent && t.folders[y].name == name {
        assert NameTaken(t.folders, parent.value, owner, name, y, false);
      }
    }
  }

  lemma MoveExactly(t: Tables, owner: OwnerId, x: FolderId, dest: FolderId)
    requires Forest(t)
    ensures MoveFolder(t, owner, x, dest).Ok? <==> MayMove(t, owner, x, dest)
  {
    if Plain(t, x, owner) && Owned(t, dest, owner) {
      NameTakenHere(t, Some(dest), owner, t.folders[x].name, x);
    }
    hide Forest, Taken, NameAt, Below;
  }

  /** Moving a folder elsewhere does not change the way up from where it went. */
  lemma {:induction false} SameWayAfterMove(t: Tables, x: FolderId, dest: FolderId, y: FolderId, n: nat)
    requires x in t.folders && !Below(t.folders, y, x)
    ensures var g := t.folders[x := t.folders[x].(parent := Some(dest))];
      Ancestor(g, y, n) == Ancestor(t.folders, y, n)
    decreases n
  {
    SelfBelow(t.folders, x);
    if n > 0 && y in t.folders && t.folders[y].parent.Some? {
      if Below(t.folders, t.folders[y].parent.value, x) {
        ChildBelow(t.folders, y, x);
      }
      SameWayAfterMove(t, x, dest, t.folders[y].parent.value, n - 1);
    }
  }

  lemma SameBelowAfterMove(t: Tables, x: FolderId, dest: FolderId, a: FolderId)
    requires x in t.folders && !Below(t.folders, dest, x)
    ensures Below(t.folders[x := t.folders[x].(parent := Some(dest))], dest, a) <==> Below(t.folders, dest, a)
  {
    var g := t.folders[x := t.folders[x].(parent := Some(dest))];
    forall n: nat ensures Ancestor(g, dest, n) == Ancestor(t.folders, dest, n) {
      SameWayAfterMove(t, x, dest, dest, n);
    }
  }

  /** Once a sibling is there, another child may follow exactly if it might have gone first. */
  lemma NextMayFollow(t: Tables, owner: OwnerId, x: FolderId, c: FolderId, dest: FolderId)
    requires MayMove(t, owner, x, dest) && c != x && c in t.folders && t.folders[c].name != t.folders[x].name
    ensures var t1 := t.(folders := t.folders[x := t.folders[x].(parent := Some(dest))]);
      MayMove(t1, owner, c, dest) <==> MayMove(t, owner, c, dest)
  {
    var t1 := t.(folders := t.folders[x := t.folders[x].(parent := Some(dest))]);
    SameBelowAfterMove(t, x, dest, c);
    hide Below;
    assert NameAt(t1, Some(dest), t.folders[c].name, c) <==> NameAt(t, Some(dest), t.folders[c].name, c) by {
      if y :| y in t.folders && y != c && t.folders[y].parent == Some(dest) && t.folders[y].name == t.folders[c].name {
        assert t1.folders[y].parent == Some(dest);
      }
      if y :| y in t1.folders && y != c && t1.folders[y].parent == Some(dest) && t1.folders[y].name == t.folders[c].name {
        assert y != x;
      }
    }
    hide NameAt;
  }

  /** The children of a folder all find room at `dest` exactly if each alone would, in whatever order
      they go. */
  lemma {:induction false} MoveAllExactly(t: Tables, owner: OwnerId, children: seq<FolderId>, dest: FolderId)
    requires Forest(t)
    requires forall c <- children :: c in t.folders
    requires forall i, j | 0 <= i < j < |children| ::
      children[i] != children[j] && t.folders[children[i]].name != t.folders[children[j]].name
    ensures MoveAll(t, owner, children, dest).Ok? <==> forall c <- children :: MayMove(t, owner, c, dest)
    decreases |children|
  {
    hide Forest, MayMove, MoveFolder;
    if children != [] {
      var x, rest := children[0], children[1..];
      MoveExactly(t, owner, x, dest);
      if MayMove(t, owner, x, dest) {
        MoveKeepsForest(t, owner, x, dest);
        var t1 := t.(folders := t.folders[x := t.folders[x].(parent := Some(dest))]);
        MoveIs(t, owner, x, dest);
        MoveAllExactly(t1, owner, rest, dest);
        forall c <- rest ensures MayMove(t1, owner, c, dest) <==> MayMove(t, owner, c, dest) {
          NextMayFollow(t, owner, x, c, dest);
        }
      }
    }
  }

  lemma MoveIs(t: Tables, owner: OwnerId, x: FolderId, dest: FolderId)
    requires MoveFolder(t, owner, x, dest).Ok?
    ensures x in t.folders
    ensures MoveFolder(t, owner, x, dest) == Ok(t.(folders := t.folders[x := t.folders[x].(parent := Some(dest))]))
  {
    hide DescendantIds, Taken;
  }

  // ------------------------------------------------------------ system folders

  ghost predicate BlockedAt(t: Tables, owner: OwnerId, kind: Kind, root: FolderId) {
    (forall x <- t.folders :: !SystemFolder(t.folders, x, owner, kind)) && HasChild(t.folders, root, SystemName(kind))
  }

  lemma OnlySystem(t: Tables, owner: OwnerId, kind: Kind, x: FolderId)
    requires Forest(t) && kind != NORMAL && SystemFolder(t.folders, x, owner, kind)
    ensures FindSystem(t, owner, kind) == Some(x)
    ensures kind == ROOT ==> forall k :: Blocked(t, owner, k) <==> BlockedAt(t, owner, k, x)
  {
    hide Acyclic, AllPlaced, NamesDiffer, DocsFiled, HasChild;
  }

  /** The owner has no folder at all before the root is there. */
  lemma NoRootNoFolder(t: Tables, owner: OwnerId)
    requires Forest(t) && forall x <- t.folders :: !SystemFolder(t.folders, x, owner, ROOT)
    ensures forall x <- t.folders :: t.folders[x].owner != owner
  {
    forall x <- t.folders ensures t.folders[x].owner != owner {
      if t.folders[x].owner == owner {
        var _ := EveryFolderReachesItsRoot(t, x);
      }
    }
  }

  /** The root is always made; it changes nothing for the other kinds. */
  lemma RootIsMade(t: Tables, owner: OwnerId) returns (t1: Tables, root: FolderId)
    requires Forest(t)
    ensures EnsureSystem(t, owner, ROOT) == Ok(t1) && Forest(t1) && SystemFolder(t1.folders, root, owner, ROOT)
    ensures forall k | k == INBOX || k == TRASH :: BlockedAt(t1, owner, k, root) <==> Blocked(t, owner, k)
  {
    hide Forest, HasChild;
    EnsureSystemKeeps(t, owner, ROOT);
    t1 := EnsureSystem(t, owner, ROOT).value;
    root :| SystemFolder(t1.folders, root, owner, ROOT);
    if FindSystem(t, owner, ROOT).Some? {
      OnlySystem(t, owner, ROOT, root);
    } else {
      NoRootNoFolder(t, owner);
      Fresh(t);
      NewIsChildless(t, Folder(SystemName(ROOT), None, owner, ROOT, false, None), []);
      hide SystemName;
    }
  }

  /** One more system folder is made exactly if it is not blocked. */
  lemma SystemIsMade(t: Tables, owner: OwnerId, kind: Kind, root: FolderId)
    requires Forest(t) && SystemFolder(t.folders, root, owner, ROOT) && (kind == INBOX || kind == TRASH)
    ensures EnsureSystem(t, owner, kind).Ok? <==> !BlockedAt(t, owner, kind, root)
  {
    OnlySystem(t, owner, ROOT, root);
    NameTakenHere(t, Some(root), owner, SystemName(kind), t.nextId);
    Fresh(t);
    hide Forest;
    TakenByChild(t, root, owner, SystemName(kind));
    hide Taken, HasChild, NameAt, SystemName;
    if FindSystem(t, owner, kind).None? {
      assert forall y <- t.folders :: !SystemFolder(t.folders, y, owner, kind);
    }
  }

  /** It does not block another. */
  lemma SystemBlocksNone(t: Tables, owner: OwnerId, kind: Kind, root: FolderId, other: Kind)
    requires Forest(t) && SystemFolder(t.folders, root, owner, ROOT) && EnsureSystem(t, owner, kind).Ok?
    requires (kind == INBOX && other == TRASH) || (kind == TRASH && other == INBOX)
    ensures var t1 := EnsureSystem(t, owner, kind).value;
      && Forest(t1) && SystemFolder(t1.folders, root, owner, ROOT)
      && (BlockedAt(t1, owner, other, root) <==> BlockedAt(t, owner, other, root))
  {
    EnsureSystemKeeps(t, owner, kind);
    Fresh(t);
    OnlySystem(t, owner, ROOT, root);
    hide Forest, Taken, FindSystem;
    if FindSystem(t, owner, kind).None? {
      InsertBlocksNone(t, Folder(SystemName(kind), Some(root), owner, kind, false, None), owner, other, root);
      hide BlockedAt;
    }
  }

  lemma InsertBlocksNone(t: Tables, f: Folder, owner: OwnerId, other: Kind, root: FolderId)
    requires t.nextId !in t.folders && f.kind != other && f.name != SystemName(other)
    ensures BlockedAt(Insert(t, f), owner, other, root) <==> BlockedAt(t, owner, other, root)
  {
    OtherChild(t, f, root, SystemName(other));
    hide HasChild, SystemName;
    assert forall x <- t.folders :: Insert(t, f).folders[x] == t.folders[x];
    assert !SystemFolder(Insert(t, f).folders, t.nextId, owner, other);
  }

  lemma TakenByChild(t: Tables, root: FolderId, owner: OwnerId, name: string)
    requires Taken(t.folders, root, owner, name, false, Some(t.nextId)) <==> NameAt(t, Some(root), name, t.nextId)
    requires t.nextId !in t.folders
    ensures Taken(t.folders, root, owner, name, false, None) <==> HasChild(t.folders, root, name)
  {
    if x: FolderId :| NameTaken(t.folders, root, owner, name, x, false) {
      assert Child(t.folders, root, name, x);
    }
    if x :| Child(t.folders, root, name, x) {
      assert NameAt(t, Some(root), name, t.nextId);
    }
  }

  lemma OtherChild(t: Tables, f: Folder, root: FolderId, name: string)
    requires t.nextId !in t.folders && f.name != name
    ensures HasChild(Insert(t, f).folders, root, name) <==> HasChild(t.folders, root, name)
  {
    if x :| Child(t.folders, root, name, x) {
      assert Child(Insert(t, f).folders, root, name, x);
    }
    if x :| Child(Insert(t, f).folders, root, name, x) {
      assert Child(t.folders, root, name, x);
    }
  }

  /** The system folders are all made unless the name of a missing one is taken below the root. */
  lemma SetUpExactly(t: Tables, owner: OwnerId)
    requires Forest(t)
    ensures EnsureSystemFolders(t, owner).Ok? <==> !Blocked(t, owner, INBOX) && !Blocked(t, owner, TRASH)
  {
    hide Forest, Blocked, BlockedAt, EnsureSystem;
    var t1, root := RootIsMade(t, owner);
    SystemIsMade(t1, owner, INBOX, root);
    var r2 := EnsureSystem(t1, owner, INBOX);
    if r2.Ok? {
      SystemBlocksNone(t1, owner, INBOX, root, TRASH);
      SystemIsMade(r2.value, owner, TRASH, root);
    }
  }

  /** Afterwards each kind is there. */
  lemma SetUpMakes(t: Tables, owner: OwnerId, kind: Kind)
    requires Forest(t) && kind != NORMAL
    ensures var r := EnsureSystemFolders(t, owner);
      r.Ok? ==> exists x <- r.value.folders :: SystemFolder(r.value.folders, x, owner, kind)
  {
    hide Forest, EnsureSystem;
    EnsureSystemKeeps(t, owner, ROOT);
    var r1 := EnsureSystem(t, owner, ROOT);
    if r1.Ok? {
      EnsureSystemKeeps(r1.value, owner, INBOX);
      var r2 := EnsureSystem(r1.value, owner, INBOX);
      if r2.Ok? {
        EnsureSystemKeeps(r2.value, owner, TRASH);
        var r3 := EnsureSystem(r2.value, owner, TRASH);
        if r3.Ok? {
          match kind
          case ROOT =>
            var x :| SystemFolder(r1.value.folders, x, owner, ROOT);
            assert SystemFolder(r3.value.folders, x, owner, ROOT);
          case INBOX =>
            var x :| SystemFolder(r2.value.folders, x, owner, INBOX);
            assert SystemFolder(r3.value.folders, x, owner, INBOX);
          case TRASH =>
        }
      }
    }
  }

  /** A system folder is found or made exactly if it is there or none that is missing is blocked; it is
      then the only one of its kind. */
  lemma GetSystemExactly(t: Tables, owner: OwnerId, kind: Kind)
    requires Forest(t) && kind != NORMAL
    ensures var r := GetSystem(t, owner, kind);
      && (r.Ok? <==> SystemReady(t, owner, kind))
      && (r.Ok? ==> Forest(r.value.0) && Extends(t, r.value.0, owner) && FindSystem(r.value.0, owner, kind) == Some(r.value.1))
      && (forall x <- t.folders | SystemFolder(t.folders, x, owner, kind) :: r == Ok((t, x)))
  {
    hide Forest, Blocked, Extends, EnsureSystem;
    SetUpExactly(t, owner);
    GetSystemKeeps(t, owner, kind);
    var r := GetSystem(t, owner, kind);
    if r.Ok? {
      OnlySystem(r.value.0, owner, kind, r.value.1);
    }
    forall x <- t.folders | SystemFolder(t.folders, x, owner, kind) ensures r == Ok((t, x)) {
      OnlySystem(t, owner, kind, x);
    }
    SetUpMakes(t, owner, kind);
  }

  // ------------------------------------------------------------ deleting a trashed subtree for good

  /** A trashed folder of the subtree. */
  ghost predicate Doomed(t: Tables, x: FolderId, y: FolderId) {
    y in t.folders && t.folders[y].trashed && Below(t.folders, y, x)
  }

  /** What is left of a document once the doomed folders are gone. */
  ghost function Survivor(t: Tables, x: FolderId, doc: Document): Document {
    if doc.trashedFrom.Some? && Doomed(t, x, doc.trashedFrom.value) then doc.(trashedFrom := None) else doc
  }

  /** A trashed subtree can be deleted for good exactly if no document that is not in the trash lies in
      a trashed folder of it. Exactly its trashed folders go then, and exactly its trashed documents. */
  lemma PurgeExactly(t: Tables, owner: OwnerId, x: FolderId)
    requires Forest(t)
    ensures var r := PurgeSubtree(t, owner, x);
      && (r.Ok? <==> Plain(t, x, owner) && t.folders[x].trashed
                     && forall d <- t.docs | Doomed(t, x, t.docs[d].folder) :: t.docs[d].trashed)
      && (r == Err(NotFound) <==> !Owned(t, x, owner))
      && (r == Err(Integrity) <==>
            Plain(t, x, owner) && t.folders[x].trashed && exists d <- t.docs :: Doomed(t, x, t.docs[d].folder) && !t.docs[d].trashed)
      && (r.Ok? ==>
            && (forall y :: y in r.value.folders <==> y in t.folders && !Doomed(t, x, y))
            && (forall y <- r.value.folders :: r.value.folders[y] ==
                  if t.folders[y].parent.Some? && Doomed(t, x, t.folders[y].parent.value)
                  then t.folders[y].(parent := None) else t.folders[y])
            && (forall d :: d in r.value.docs <==> d in t.docs && !(t.docs[d].trashed && Below(t.folders, t.docs[d].folder, x)))
            && (forall d <- r.value.docs :: r.value.docs[d] == Survivor(t, x, t.docs[d])))
  {
    if Plain(t, x, owner) && t.folders[x].trashed {
      SubtreeIsPlain(t.folders, x);
      hide Acyclic, AllPlaced, NamesDiffer, SystemsUnique;
      forall d <- t.docs ensures Owned(t, t.docs[d].folder, t.docs[d].owner) {
      }
      hide Forest;
      PurgeAccepts(t, owner, x);
      hide PurgeSubtree;
      PurgeError(t, owner, x);
      if PurgeSubtree(t, owner, x).Ok? {
        PurgeLeaves(t, owner, x);
      }
    }
  }

  lemma PurgeError(t: Tables, owner: OwnerId, x: FolderId)
    requires Plain(t, x, owner) && t.folders[x].trashed
    ensures PurgeSubtree(t, owner, x).Ok? || PurgeSubtree(t, owner, x) == Err(Integrity)
  {
    hide DescendantIds, Purgeable, DocsIn;
  }

  lemma PurgeAccepts(t: Tables, owner: OwnerId, x: FolderId)
    requires Plain(t, x, owner) && t.folders[x].trashed
    requires forall y <- DescendantIds(t.folders, x) :: Plain(t, y, owner)
    requires forall d <- t.docs :: Owned(t, t.docs[d].folder, t.docs[d].owner)
    ensures PurgeSubtree(t, owner, x).Ok? <==> forall d <- t.docs | Doomed(t, x, t.docs[d].folder) :: t.docs[d].trashed
  {
    var ids, gone := DescendantIds(t.folders, x), Purgeable(t, owner, x);
    assert forall y :: y in ids <==> y in t.folders && Below(t.folders, y, x);
    assert forall y :: y in gone <==> Doomed(t, x, y);
    hide Below, DescendantIds, Purgeable, Doomed;
    var kept := WithoutTrashedDocs(t, owner, x);
    forall d <- t.docs | t.docs[d].folder in gone ensures d in kept.docs <==> !t.docs[d].trashed {
      assert t.docs[d].folder in ids;
    }
    assert forall d <- t.docs | d in kept.docs :: kept.docs[d] == t.docs[d];
  }

  lemma PurgeLeaves(t: Tables, owner: OwnerId, x: FolderId)
    requires PurgeSubtree(t, owner, x).Ok?
    requires forall y <- DescendantIds(t.folders, x) :: Plain(t, y, owner)
    requires forall d <- t.docs :: Owned(t, t.docs[d].folder, t.docs[d].owner)
    ensures var t' := PurgeSubtree(t, owner, x).value;
      && (forall y :: y in t'.folders <==> y in t.folders && !Doomed(t, x, y))
      && (forall y <- t'.folders :: t'.folders[y] ==
            if t.folders[y].parent.Some? && Doomed(t, x, t.folders[y].parent.value)
            then t.folders[y].(parent := None) else t.folders[y])
      && (forall d :: d in t'.docs <==> d in t.docs && !(t.docs[d].trashed && Below(t.folders, t.docs[d].folder, x)))
      && (forall d <- t'.docs :: t'.docs[d] == Survivor(t, x, t.docs[d]))
  {
    var ids, gone := DescendantIds(t.folders, x), Purgeable(t, owner, x);
    assert forall y :: y in ids <==> y in t.folders && Below(t.folders, y, x);
    assert forall y :: y in gone <==> Doomed(t, x, y);
    hide Below, DescendantIds, Purgeable, Doomed;
  }
}
