/** The folder calls of services/folders.py over mutable tables. Each keeps the forest and does
    exactly what Folders specifies; a call that fails changes nothing. */
module FolderService {
  import opened Wrappers
  import opened Folders
  import opened FoldersProofs
  import opened FolderPaths
  import opened FolderRights
  import opened FolderChanges
  import opened FolderChangesProofs
  import opened Words

  /** The way up from `x` comes back to where it was. */
  ghost predicate Cyclic(folders: map<FolderId, Folder>, x: FolderId) {
    exists i: nat, j: nat :: i < j && Ancestor(folders, x, i).Some? && Ancestor(folders, x, i) == Ancestor(folders, x, j)
  }

  class FolderTable {
    var folders: map<FolderId, Folder>
    var docs: map<DocId, Document>
    var nextId: FolderId

    ghost function View(): Tables
      reads this
    {
      Tables(folders, docs, nextId)
    }

    ghost predicate Valid()
      reads this
    {
      Forest(View())
    }

    constructor ()
      ensures Valid() && View() == EMPTY
    {
      folders, docs, nextId := map[], map[], 0;
      EmptyIsForest();
    }

    /** The parent walk. On any table it finds the folder if it is there; on a forest it is exactly
        the question whether the new parent lies in the folder's subtree. */
    method WouldCreateCycle(x: FolderId, newParent: FolderId) returns (cycle: bool)
      requires newParent in folders
      ensures cycle ==> newParent in DescendantIds(folders, x) || Cyclic(folders, newParent)
      ensures newParent in DescendantIds(folders, x) ==> cycle
      ensures Valid() ==> (cycle <==> newParent in DescendantIds(folders, x))
    {
      if x == newParent {
        SelfBelow(folders, x);
        return true;
      }
      var current := Some(newParent);
      var seen: set<FolderId> := {};
      ghost var k: nat := 0;
      while current.Some?
        invariant current == Ancestor(folders, newParent, k)
        invariant seen <= folders.Keys
        invariant forall i: nat | i < k :: Ancestor(folders, newParent, i).Some? && Ancestor(folders, newParent, i).value in seen
        invariant forall y <- seen :: exists i: nat :: i < k && Ancestor(folders, newParent, i) == Some(y)
        invariant x !in seen
        decreases folders.Keys - seen, current.Some?
      {
        if current.value == x {
          return true;
        }
        if current.value in seen {
          ForestIsNotCyclic(View(), newParent);
          return true;
        }
        if current.value !in folders {
          EndOfWalk(folders, newParent, k);
          break;
        }
        seen := seen + {current.value};
        AncestorAdd(folders, newParent, k, 1);
        assert Ancestor(folders, current.value, 1) == folders[current.value].parent;
        current := folders[current.value].parent;
        k := k + 1;
      }
      NotOnTheWay(folders, newParent, x, k);
      return false;
    }

    /** `descendant_ids`: the recursive query, level by level, restricted to the owner. */
    method DescendantIdsOf(x: FolderId, owner: OwnerId) returns (tree: set<FolderId>)
      requires Valid() && Owned(View(), x, owner)
      ensures tree == DescendantIds(folders, x)
    {
      tree := {x};
      var frontier := {x};
      SelfBelow(folders, x);
      DescendantsAreLeast(folders, x, {});
      while frontier != {}
        invariant x in tree && frontier <= tree <= DescendantIds(folders, x)
        invariant forall y <- folders :: folders[y].parent.Some? && folders[y].parent.value in tree - frontier ==> y in tree
        decreases folders.Keys - tree, frontier != {}
      {
        var next := set y | y in folders && folders[y].owner == owner && folders[y].parent.Some?
                         && folders[y].parent.value in frontier && y !in tree;
        forall y <- folders | folders[y].parent.Some? && folders[y].parent.value in frontier ensures folders[y].owner == owner {
          assert WellPlaced(folders, y);
          OwnersAgree(View(), x, folders[y].parent.value);
        }
        tree, frontier := tree + next, next;
      }
      DescendantsAreLeast(folders, x, tree);
    }

    method FindSystemFolder(owner: OwnerId, kind: Kind) returns (found: Option<FolderId>)
      requires Valid() && kind != NORMAL
      ensures found == FindSystem(View(), owner, kind)
    {
      var hits := set x | x in folders && folders[x].owner == owner && folders[x].kind == kind;
      assert forall x :: x in hits <==> SystemFolder(folders, x, owner, kind);
      if hits == {} {
        return None;
      }
      var x :| x in hits;
      assert SystemsUnique(folders);
      return Some(x);
    }

    method FindByName(parent: FolderId, owner: OwnerId, name: string, activeOnly: bool, except: Option<FolderId>)
      returns (found: Option<FolderId>)
      ensures found.Some? <==> Taken(folders, parent, owner, name, activeOnly, except)
      ensures found.Some? ==> NameTaken(folders, parent, owner, name, found.value, activeOnly) && except != found
    {
      var hits := set x | x in folders && folders[x].parent == Some(parent) && folders[x].owner == owner
                       && folders[x].name == name && !(activeOnly && folders[x].trashed) && except != Some(x);
      assert forall x: FolderId :: x in hits <==> NameTaken(folders, parent, owner, name, x, activeOnly) && except != Some(x);
      if hits == {} {
        return None;
      }
      var x :| x in hits;
      return Some(x);
    }

    method EnsureSystemFolder(owner: OwnerId, kind: Kind) returns (e: Option<Error>)
      requires Valid() && kind != NORMAL
      modifies this`folders, this`nextId
      ensures Valid()
      ensures match EnsureSystem(old(View()), owner, kind)
              case Ok(t) => e == None && View() == t
              case Err(error) => e == Some(error) && View() == old(View())
    {
      hide Forest;
      EnsureSystemKeeps(View(), owner, kind);
      var found := FindSystemFolder(owner, kind);
      if found.Some? {
        return None;
      }
      var parent: Option<FolderId> := None;
      if kind != ROOT {
        parent := FindSystemFolder(owner, ROOT);
        if parent.None? {
          return Some(NotFound);
        }
        var clash := FindByName(parent.value, owner, SystemName(kind), false, None);
        if clash.Some? {
          return Some(Integrity);
        }
      }
      folders := folders[nextId := Folder(SystemName(kind), parent, owner, kind, false, None)];
      nextId := nextId + 1;
      return None;
    }

    method EnsureAllSystemFolders(owner: OwnerId) returns (e: Option<Error>)
      requires Valid()
      modifies this`folders, this`nextId
      ensures Valid()
      ensures match EnsureSystemFolders(old(View()), owner)
              case Ok(t) => e == None && View() == t
              case Err(error) => e == Some(error) && View() == old(View())
    {
      hide Forest, EnsureSystem;
      var before, beforeId := folders, nextId;
      e := EnsureSystemFolder(owner, ROOT);
      if e.Some? {
        return;
      }
      e := EnsureSystemFolder(owner, INBOX);
      if e.Some? {
        folders, nextId := before, beforeId;
        return;
      }
      e := EnsureSystemFolder(owner, TRASH);
      if e.Some? {
        folders, nextId := before, beforeId;
      }
    }

    method GetSystemFolder(owner: OwnerId, kind: Kind) returns (r: Result<FolderId>)
      requires Valid() && kind != NORMAL
      modifies this`folders, this`nextId
      ensures Valid()
      ensures match GetSystem(old(View()), owner, kind)
              case Ok((t, x)) => r == Ok(x) && View() == t
              case Err(error) => r == Err(error)
      ensures r.Err? ==> View() == old(View())
    {
      hide Forest, EnsureSystemFolders, FindSystem;
      var found := FindSystemFolder(owner, kind);
      if found.Some? {
        return Ok(found.value);
      }
      var before, beforeId := folders, nextId;
      var e := EnsureAllSystemFolders(owner);
      if e.Some? {
        return Err(e.value);
      }
      found := FindSystemFolder(owner, kind);
      if found.Some? {
        return Ok(found.value);
      }
      folders, nextId := before, beforeId;
      return Err(NotFound);
    }

    /** The part of `create_folder` once the parent is known. */
    method CreateBelow(owner: OwnerId, name: string, parent: FolderId) returns (r: Result<FolderId>)
      requires Valid() && Owned(View(), parent, owner)
      modifies this`folders, this`nextId
      ensures Valid()
      ensures match CreateUnder(old(View()), owner, name, parent)
              case Ok(t) => r == Ok(old(nextId)) && View() == t
              case Err(error) => r == Err(error) && View() == old(View())
    {
      hide Forest;
      CreateUnderKeeps(View(), owner, name, parent);
      var existing := FindByName(parent, owner, name, true, None);
      if existing.Some? {
        return Err(Conflict);
      }
      var clash := FindByName(parent, owner, name, false, None);
      if clash.Some? {
        return Err(Integrity);
      }
      folders := folders[nextId := Folder(name, Some(parent), owner, NORMAL, false, None)];
      nextId := nextId + 1;
      return Ok(nextId - 1);
    }

    /** `create_folder` without a parent. */
    method CreateAtRoot(owner: OwnerId, name: string) returns (r: Result<FolderId>)
      requires Valid() && name != ""
      modifies this`folders, this`nextId
      ensures Valid()
      ensures match CreateFolder(old(View()), owner, name, None)
              case Ok((t, x)) => r == Ok(x) && View() == t
              case Err(error) => r == Err(error) && View() == old(View())
    {
      hide Forest, GetSystem, CreateUnder, Extends, SystemFolder;
      GetSystemKeeps(View(), owner, ROOT);
      var before, beforeId := folders, nextId;
      var root := GetSystemFolder(owner, ROOT);
      if root.Err? {
        return Err(root.error);
      }
      RootIsOwned(View(), root.value, owner);
      r := CreateBelow(owner, name, root.value);
      if r.Err? {
        folders, nextId := before, beforeId;
      }
    }

    method CreateFolderIn(owner: OwnerId, name: string, parentId: Option<FolderId>) returns (r: Result<FolderId>)
      requires Valid()
      modifies this`folders, this`nextId
      ensures Valid()
      ensures match CreateFolder(old(View()), owner, name, parentId)
              case Ok((t, x)) => r == Ok(x) && View() == t
              case Err(error) => r == Err(error) && View() == old(View())
      ensures Changes(old(View()), View(), Create(owner, name, parentId))
      ensures r.Ok? <==> Creates(old(View()), Create(owner, name, parentId))
    {
      hide Changes, Creates, Forest, GetSystem, CreateUnder;
      CreateChanges(View(), owner, name, parentId);
      if name == "" {
        return Err(Validation);
      }
      if parentId.None? {
        r := CreateAtRoot(owner, name);
        return;
      }
      var parent := parentId.value;
      if parent !in folders || folders[parent].owner != owner {
        return Err(NotFound);
      }
      if folders[parent].kind == TRASH {
        return Err(Validation);
      }
      r := CreateBelow(owner, name, parent);
    }

    method EnsureChildFolder(parent: FolderId, name: string) returns (r: Result<FolderId>)
      requires Valid()
      modifies this`folders, this`nextId
      ensures Valid()
      ensures match EnsureChild(old(View()), parent, name)
              case Ok((t, x)) => r == Ok(x) && View() == t
              case Err(error) => r == Err(error) && View() == old(View())
    {
      EnsureChildKeeps(View(), parent, name);
      if parent !in folders {
        return Err(NotFound);
      }
      var owner := folders[parent].owner;
      ChildPicked(View(), parent, name);
      hide Forest, CreateFolder, EnsureChild, NameTaken;
      var existing := FindByName(parent, owner, name, true, None);
      if existing.Some? {
        if folders[existing.value].kind == TRASH {
          return Err(Validation);
        }
        return Ok(existing.value);
      }
      var trashed := FindByName(parent, owner, name, false, None);
      if trashed.Some? {
        if folders[trashed.value].kind != NORMAL {
          return Err(Validation);
        }
        folders := folders[trashed.value := folders[trashed.value].(trashed := false, trashedAt := None)];
        return Ok(trashed.value);
      }
      r := CreateFolderIn(owner, name, Some(parent));
    }

    method EnsurePathBelow(parent: FolderId, segments: seq<string>) returns (r: Result<FolderId>)
      requires Valid()
      modifies this`folders, this`nextId
      ensures Valid()
      ensures match EnsureFolderPath(old(View()), parent, segments)
              case Ok((t, x)) => r == Ok(x) && View() == t
              case Err(error) => r == Err(error) && View() == old(View())
      ensures Changes(old(View()), View(), Ensure(parent, segments))
      ensures r.Ok? <==> Paves(old(View()), Ensure(parent, segments))
      ensures r.Ok? ==> PathMade(old(View()), View(), parent, segments, r.value)
    {
      hide Changes, Paves, PathMade;
      EnsureChanges(View(), parent, segments);
      hide Forest, EnsureChild;
      if parent !in folders {
        return Err(NotFound);
      }
      if folders[parent].kind == TRASH {
        return Err(Validation);
      }
      var before, beforeId := folders, nextId;
      ghost var start := View();
      var current := parent;
      var i := 0;
      while i < |segments|
        invariant 0 <= i <= |segments| && Valid() && docs == start.docs
        invariant EnsurePath(start, parent, segments) == EnsurePath(View(), current, segments[i..])
      {
        ghost var t := View();
        EnsureChildDocs(t, current, segments[i]);
        var child := EnsureChildFolder(current, segments[i]);
        if child.Err? {
          folders, nextId := before, beforeId;
          return Err(child.error);
        }
        assert segments[i..][1..] == segments[i + 1..];
        current := child.value;
        i := i + 1;
      }
      return Ok(current);
    }

    method RenameFolderTo(owner: OwnerId, x: FolderId, name: string) returns (e: Option<Error>)
      requires Valid()
      modifies this`folders, this`nextId
      ensures Valid()
      ensures match RenameFolder(old(View()), owner, x, name)
              case Ok(t) => e == None && View() == t
              case Err(error) => e == Some(error) && View() == old(View())
      ensures Changes(old(View()), View(), Rename(owner, x, name))
      ensures e == None <==> MayRename(old(View()), owner, x, name)
    {
      hide Changes, MayRename;
      RenameChanges(View(), owner, x, name);
      hide Forest;
      RenameKeepsForest(View(), owner, x, name);
      if x !in folders || folders[x].owner != owner {
        return Some(NotFound);
      }
      if folders[x].kind != NORMAL || name == "" {
        return Some(Validation);
      }
      if folders[x].parent.Some? {
        var existing := FindByName(folders[x].parent.value, owner, name, false, Some(x));
        if existing.Some? {
          return Some(Conflict);
        }
      }
      folders := folders[x := folders[x].(name := name)];
      return None;
    }

    method MoveFolderTo(owner: OwnerId, x: FolderId, dest: FolderId) returns (e: Option<Error>)
      requires Valid()
      modifies this`folders, this`nextId
      ensures Valid()
      ensures match MoveFolder(old(View()), owner, x, dest)
              case Ok(t) => e == None && View() == t
              case Err(error) => e == Some(error) && View() == old(View())
      ensures Changes(old(View()), View(), Move(owner, x, dest))
      ensures e == None <==> MayMove(old(View()), owner, x, dest)
    {
      hide Changes, MayMove;
      MoveChanges(View(), owner, x, dest);
      MoveKeepsForest(View(), owner, x, dest);
      hide Forest, DescendantIds;
      if x !in folders || folders[x].owner != owner {
        return Some(NotFound);
      }
      if folders[x].kind != NORMAL {
        return Some(Validation);
      }
      if dest !in folders || folders[dest].owner != owner {
        return Some(NotFound);
      }
      if folders[dest].kind == TRASH {
        return Some(Validation);
      }
      var cycle := WouldCreateCycle(x, dest);
      if cycle {
        return Some(Validation);
      }
      var existing := FindByName(dest, owner, folders[x].name, false, Some(x));
      if existing.Some? {
        return Some(Conflict);
      }
      folders := folders[x := folders[x].(parent := Some(dest))];
      return None;
    }

    method TrashFolderOf(owner: OwnerId, x: FolderId, now: Time) returns (e: Option<Error>)
      requires Valid()
      modifies this
      ensures Valid()
      ensures match TrashFolder(old(View()), owner, x, now)
              case Ok(t) => e == None && View() == t
              case Err(error) => e == Some(error) && View() == old(View())
      ensures Changes(old(View()), View(), Trash(owner, x, now))
    {
      hide Changes;
      TrashChanges(View(), owner, x, now);
      hide Forest, TrashIn, DescendantIds;
      if x !in folders || folders[x].owner != owner {
        return Some(NotFound);
      }
      if folders[x].kind != NORMAL {
        return Some(Validation);
      }
      if folders[x].trashed {
        return None;
      }
      var ids := DescendantIdsOf(x, owner);
      TrashKeepsForest(View(), ids, owner, now);
      var trashed := TrashIn(Tables(folders, docs, nextId), ids, owner, now);
      folders, docs := trashed.folders, trashed.docs;
      TrashKeepsIds(old(View()), ids, owner, now);
      return None;
    }

    /** Move every child in turn; the first failure undoes the moves before it. */
    method MoveChildren(owner: OwnerId, children: seq<FolderId>, dest: FolderId) returns (e: Option<Error>)
      requires Valid()
      modifies this`folders, this`nextId
      ensures Valid()
      ensures match MoveAll(old(View()), owner, children, dest)
              case Ok(t) => e == None && View() == t
              case Err(error) => e == Some(error) && View() == old(View())
    {
      hide Forest, MoveFolder;
      var before, beforeId := folders, nextId;
      ghost var start := View();
      var i := 0;
      while i < |children|
        invariant 0 <= i <= |children| && Valid() && docs == start.docs
        invariant MoveAll(start, owner, children, dest) == MoveAll(View(), owner, children[i..], dest)
      {
        MoveKeepsDocs(View(), owner, children[i], dest);
        e := MoveFolderTo(owner, children[i], dest);
        if e.Some? {
          folders, nextId := before, beforeId;
          return;
        }
        assert children[i..][1..] == children[i + 1..];
        i := i + 1;
      }
      return None;
    }

    /** The move strategies of `delete_folder`, once the destination is known. */
    method EmptyFolderInto(owner: OwnerId, x: FolderId, children: seq<FolderId>, dest: FolderId, toInbox: bool)
      returns (e: Option<Error>)
      requires Valid() && Owned(View(), x, owner) && Owned(View(), dest, owner) && dest != x
      requires forall y <- folders :: folders[y].parent == Some(x) ==> y in children
      modifies this
      ensures Valid()
      ensures match EmptyInto(old(View()), owner, x, children, dest, toInbox)
              case Ok(t) => e == None && View() == t
              case Err(error) => e == Some(error) && View() == old(View())
    {
      EmptyIntoKeeps(View(), owner, x, children, dest, toInbox);
      EmptyIntoIs(View(), owner, x, children, dest, toInbox);
      hide Forest, MoveAll;
      e := MoveChildren(owner, children, dest);
      if e.Some? {
        return;
      }
      hide RefileDocs, EmptyInto;
      docs := ForgetIn(RefileDocs(Tables(folders, docs, nextId), x, owner, dest, toInbox).docs, {x});
      folders := folders - {x};
      return None;
    }

    /** `delete_folder` with each of its strategies; `children` is what its child query returned. */
    method DeleteFolderOf(owner: OwnerId, x: FolderId, strategy: Strategy) returns (e: Option<Error>, ghost children: seq<FolderId>)
      requires Valid()
      modifies this
      ensures Valid()
      ensures Enumerates(children, ChildIds(old(View()), x, owner))
      ensures match DeleteFolder(old(View()), owner, x, strategy, children)
              case Ok(t) => e == None && View() == t
              case Err(error) => e == Some(error) && View() == old(View())
      ensures Changes(old(View()), View(), Delete(owner, x, strategy, children))
    {
      hide Changes;
      var childIds := set c | c in folders && folders[c].owner == owner && folders[c].parent == Some(x);
      assert childIds == ChildIds(View(), x, owner);
      var rows := RowsOf(childIds);
      children := rows;
      DeleteChanges(View(), owner, x, strategy, rows);
      DeleteKeepsForest(View(), owner, x, strategy, children);
      if x !in folders || folders[x].owner != owner {
        return Some(NotFound), rows;
      }
      if folders[x].kind != NORMAL {
        return Some(Validation), rows;
      }
      ChildrenAreAll(View(), owner, x, rows);
      hide Forest, TrashFolder, EmptyInto, GetSystem, DescendantIds, DocsIn, Extends, DiscardDocs;
      if strategy.ToTrash? {
        e := TrashFolderOf(owner, x, strategy.now);
        return e, rows;
      }
      if rows == [] && DocsIn(Tables(folders, docs, nextId), {x}, owner) == {} {
        folders, docs := folders - {x}, ForgetIn(docs, {x});
        return None, rows;
      }
      e := DeleteFilled(owner, x, strategy, rows);
    }

    /** The part of `delete_folder` for a folder that is not empty. */
    method DeleteFilled(owner: OwnerId, x: FolderId, strategy: Strategy, children: seq<FolderId>) returns (e: Option<Error>)
      requires Valid() && Owned(View(), x, owner) && folders[x].kind == NORMAL && !strategy.ToTrash?
      requires Enumerates(children, ChildIds(View(), x, owner))
      requires children != [] || DocsIn(View(), {x}, owner) != {}
      modifies this
      ensures Valid()
      ensures match DeleteFolder(old(View()), owner, x, strategy, children)
              case Ok(t) => e == None && View() == t
              case Err(error) => e == Some(error) && View() == old(View())
    {
      hide Forest, EmptyInto, GetSystem, DescendantIds, DocsIn, DiscardDocs;
      ghost var start := View();
      ChildrenAreAll(start, owner, x, children);
      DeleteKeepsForest(start, owner, x, strategy, children);
      GetSystemKeeps(start, owner, INBOX);
      GetSystemKeeps(start, owner, TRASH);
      var before, beforeId := folders, nextId;
      match strategy {
        case MoveToParent =>
          var parent := folders[x].parent;
          if parent.None? {
            return Some(Validation);
          }
          if parent.value !in folders || folders[parent.value].owner != owner {
            return Some(NotFound);
          }
          ParentIsAnother(start, x);
          hide Extends;
          e := EmptyFolderInto(owner, x, children, parent.value, false);
        case MoveToInbox =>
          var inbox := GetSystemFolder(owner, INBOX);
          if inbox.Err? {
            return Some(inbox.error);
          }
          SystemIsAnother(start, View(), x, inbox.value, owner, INBOX);
          e := EmptyFolderInto(owner, x, children, inbox.value, true);
          if e.Some? {
            folders, nextId := before, beforeId;
          }
        case DeleteDocuments(confirm, at) =>
          if !confirm {
            return Some(Validation);
          }
          var trash := GetSystemFolder(owner, TRASH);
          if trash.Err? {
            return Some(trash.error);
          }
          SystemIsAnother(start, View(), x, trash.value, owner, TRASH);
          var ids := DescendantIdsOf(x, owner);
          DiscardIs(View(), ids, owner, trash.value, at);
          docs := ForgetIn(DiscardDocs(Tables(folders, docs, nextId), ids, owner, trash.value, at).docs, ids);
          folders := folders - ids;
          return None;
        case Unknown =>
          return Some(Validation);
      }
    }
  }

  // ------------------------------------------------------------ what the calls change

  lemma CreateChanges(t: Tables, owner: OwnerId, name: string, parent: Option<FolderId>)
    requires Forest(t)
    ensures Changes(t, Paired(t, CreateFolder(t, owner, name, parent)), Create(owner, name, parent))
    ensures CreateFolder(t, owner, name, parent).Ok? <==> Creates(t, Create(owner, name, parent))
  {
    hide Forest, FoldersAre, DocumentsAre, CreateFolder, Creates;
    CreateStep(t, Create(owner, name, parent));
  }

  lemma EnsureChanges(t: Tables, from: FolderId, segments: seq<string>)
    requires Forest(t)
    ensures Changes(t, Paired(t, EnsureFolderPath(t, from, segments)), Ensure(from, segments))
    ensures EnsureFolderPath(t, from, segments).Ok? <==> Paves(t, Ensure(from, segments))
    ensures EnsureFolderPath(t, from, segments).Ok? ==>
      PathMade(t, EnsureFolderPath(t, from, segments).value.0, from, segments, EnsureFolderPath(t, from, segments).value.1)
  {
    hide Forest, FoldersAre, DocumentsAre, EnsureFolderPath, PathMade;
    EnsureStep(t, Ensure(from, segments));
    EnsureFolderPathExactly(t, from, segments);
  }

  lemma RenameChanges(t: Tables, owner: OwnerId, x: FolderId, name: string)
    requires Forest(t)
    ensures Changes(t, Tabled(t, RenameFolder(t, owner, x, name)), Rename(owner, x, name))
    ensures RenameFolder(t, owner, x, name).Ok? <==> MayRename(t, owner, x, name)
  {
    hide Forest, FoldersAre, DocumentsAre, RenameFolder, MayRename;
    RenameStep(t, Rename(owner, x, name));
    RenameExactly(t, owner, x, name);
  }

  lemma MoveChanges(t: Tables, owner: OwnerId, x: FolderId, dest: FolderId)
    requires Forest(t)
    ensures Changes(t, Tabled(t, MoveFolder(t, owner, x, dest)), Move(owner, x, dest))
    ensures MoveFolder(t, owner, x, dest).Ok? <==> MayMove(t, owner, x, dest)
  {
    hide Forest, FoldersAre, DocumentsAre, MoveFolder, MayMove;
    MoveStep(t, Move(owner, x, dest));
    MoveExactly(t, owner, x, dest);
  }

  lemma TrashChanges(t: Tables, owner: OwnerId, x: FolderId, now: Time)
    requires Forest(t)
    ensures Changes(t, Tabled(t, TrashFolder(t, owner, x, now)), Trash(owner, x, now))
  {
    hide Forest, FoldersAre, DocumentsAre, TrashFolder;
    BinStep(t, Trash(owner, x, now));
  }

  lemma DeleteChanges(t: Tables, owner: OwnerId, x: FolderId, strategy: Strategy, children: seq<FolderId>)
    requires Forest(t) && Enumerates(children, ChildIds(t, x, owner))
    ensures Changes(t, Tabled(t, DeleteFolder(t, owner, x, strategy, children)), Delete(owner, x, strategy, children))
  {
    hide Forest, FoldersAre, DocumentsAre, DeleteFolder;
    StepChangesExactly(t, Delete(owner, x, strategy, children));
  }

  // ------------------------------------------------------------ facts the loops use

  /** The rows of a query, in some order. */
  method RowsOf(ids: set<FolderId>) returns (rows: seq<FolderId>)
    ensures Enumerates(rows, ids)
  {
    rows := [];
    var rest := ids;
    while rest != {}
      invariant rest <= ids && Enumerates(rows, ids - rest)
      decreases rest
    {
      var x :| x in rest;
      rows, rest := rows + [x], rest - {x};
    }
    assert ids - rest == ids;
  }

  lemma DiscardIs(t: Tables, ids: set<FolderId>, owner: OwnerId, trash: FolderId, at: Time)
    ensures RemoveFolders(DiscardDocs(t, ids, owner, trash, at), ids)
         == t.(docs := ForgetIn(DiscardDocs(t, ids, owner, trash, at).docs, ids), folders := t.folders - ids)
  {
  }

  lemma SystemIsAnother(t: Tables, t': Tables, x: FolderId, y: FolderId, owner: OwnerId, kind: Kind)
    requires Extends(t, t', owner) && x in t.folders && t.folders[x].kind == NORMAL
    requires kind != NORMAL && SystemFolder(t'.folders, y, owner, kind)
    requires Forest(t)
    ensures y != x && Owned(t', y, owner) && x in t'.folders && t'.folders[x] == t.folders[x]
    ensures forall z <- t'.folders :: t'.folders[z].parent == Some(x) ==> z in t.folders && t.folders[z].parent == Some(x)
  {
    hide Acyclic, NamesDiffer, SystemsUnique, DocsFiled;
  }

  lemma ForestIsNotCyclic(t: Tables, x: FolderId)
    requires x in t.folders
    ensures Forest(t) ==> !Cyclic(t.folders, x)
  {
    if Forest(t) {
      var rank :| Ranked(t.folders, rank);
      hide Forest, Ranked, Ancestor;
      forall i: nat, j: nat | i < j && Ancestor(t.folders, x, i).Some? ensures Ancestor(t.folders, x, i) != Ancestor(t.folders, x, j) {
        NeverBack(t.folders, rank, x, i, j);
      }
    }
  }

  lemma NeverBack(folders: map<FolderId, Folder>, rank: map<FolderId, nat>, x: FolderId, i: nat, j: nat)
    requires Ranked(folders, rank) && x in folders && i < j && Ancestor(folders, x, i).Some?
    ensures Ancestor(folders, x, i) != Ancestor(folders, x, j)
  {
    if Ancestor(folders, x, j).Some? {
      RankFalls(folders, rank, x, i);
      AncestorAdd(folders, x, i, j - i);
      RankFalls(folders, rank, Ancestor(folders, x, i).value, j - i);
    }
  }

  /** The walk cannot go on above a folder that is not there. */
  lemma EndOfWalk(folders: map<FolderId, Folder>, x: FolderId, k: nat)
    requires Ancestor(folders, x, k).Some? && Ancestor(folders, x, k).value !in folders
    ensures Ancestor(folders, x, k + 1) == None
  {
    AncestorAdd(folders, x, k, 1);
    assert Ancestor(folders, Ancestor(folders, x, k).value, 1) == None;
  }

  lemma {:induction false} NoneAbove(folders: map<FolderId, Folder>, x: FolderId, k: nat, n: nat)
    requires Ancestor(folders, x, k).None? && k <= n
    ensures Ancestor(folders, x, n).None?
    decreases n
  {
    if n > k && Ancestor(folders, x, n).Some? {
      AncestorDown(folders, x, n, k);
    }
  }

  lemma {:induction false} AncestorDown(folders: map<FolderId, Folder>, x: FolderId, n: nat, k: nat)
    requires Ancestor(folders, x, n).Some? && k <= n
    ensures Ancestor(folders, x, k).Some?
    decreases n
  {
    if k > 0 {
      AncestorDown(folders, folders[x].parent.value, n - 1, k - 1);
    }
  }

  lemma NotOnTheWay(folders: map<FolderId, Folder>, newParent: FolderId, x: FolderId, k: nat)
    requires forall i: nat | i < k :: Ancestor(folders, newParent, i) != Some(x)
    requires Ancestor(folders, newParent, k) == None
          || (Ancestor(folders, newParent, k) != Some(x) && Ancestor(folders, newParent, k + 1) == None)
    ensures newParent !in DescendantIds(folders, x)
  {
    if n: nat :| Ancestor(folders, newParent, n) == Some(x) {
      if Ancestor(folders, newParent, k) == None {
        NoneAbove(folders, newParent, k, Max(k, n));
      } else {
        NoneAbove(folders, newParent, k + 1, Max(k + 1, n));
      }
    }
  }

  lemma OwnersAgree(t: Tables, x: FolderId, y: FolderId)
    requires Forest(t) && x in t.folders && y in DescendantIds(t.folders, x)
    ensures t.folders[y].owner == t.folders[x].owner
  {
    var n: nat :| Ancestor(t.folders, y, n) == Some(x);
    BelowOwner(t.folders, y, x, n);
  }

  function TakeActive(t: Tables, x: FolderId): Result<(Tables, FolderId)>
    requires x in t.folders
  {
    if t.folders[x].kind == TRASH then Err(Validation) else Ok((t, x))
  }

  function TakeTrashed(t: Tables, x: FolderId): Result<(Tables, FolderId)>
    requires x in t.folders
  {
    if t.folders[x].kind != NORMAL then Err(Validation)
    else Ok((t.(folders := t.folders[x := t.folders[x].(trashed := false, trashedAt := None)]), x))
  }

  /** Whichever child of the name a query returns, it is the one that is taken; else one is created. */
  lemma ChildPicked(t: Tables, parent: FolderId, name: string)
    requires Forest(t) && parent in t.folders
    ensures var owner := t.folders[parent].owner;
      var r := EnsureChild(t, parent, name);
      && (forall x: FolderId | NameTaken(t.folders, parent, owner, name, x, true) :: x in t.folders && r == TakeActive(t, x))
      && (!Taken(t.folders, parent, owner, name, true, None) ==>
            && (forall x: FolderId | NameTaken(t.folders, parent, owner, name, x, false) :: x in t.folders && r == TakeTrashed(t, x))
            && (!Taken(t.folders, parent, owner, name, false, None) ==> r == CreateFolder(t, owner, name, Some(parent))))
  {
    NameIsUnique(t, parent, t.folders[parent].owner, name);
    hide Forest, CreateFolder;
    var owner := t.folders[parent].owner;
    forall x: FolderId, active | NameTaken(t.folders, parent, owner, name, x, active)
      ensures Taken(t.folders, parent, owner, name, active, None)
    {
    }
  }

  lemma EnsureChildDocs(t: Tables, parent: FolderId, name: string)
    requires Forest(t)
    ensures EnsureChild(t, parent, name).Ok? ==> EnsureChild(t, parent, name).value.0.docs == t.docs
  {
  }

  lemma MoveKeepsDocs(t: Tables, owner: OwnerId, x: FolderId, dest: FolderId)
    ensures MoveFolder(t, owner, x, dest).Ok? ==> MoveFolder(t, owner, x, dest).value.docs == t.docs
  {
  }

  lemma EmptyIntoIs(t: Tables, owner: OwnerId, x: FolderId, children: seq<FolderId>, dest: FolderId, toInbox: bool)
    ensures var moved := MoveAll(t, owner, children, dest);
      EmptyInto(t, owner, x, children, dest, toInbox) ==
        if moved.Err? then moved
        else Ok(moved.value.(docs := ForgetIn(RefileDocs(moved.value, x, owner, dest, toInbox).docs, {x}), folders := moved.value.folders - {x}))
  {
    hide MoveAll;
  }

  lemma TrashKeepsIds(t: Tables, ids: set<FolderId>, owner: OwnerId, now: Time)
    ensures TrashIn(t, ids, owner, now).nextId == t.nextId
  {
  }
}
