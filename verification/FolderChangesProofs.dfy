/** Every folder call changes exactly the rows that FolderChanges says. */
module FolderChangesProofs {
  import opened Wrappers
  import opened Folders
  import opened FoldersProofs
  import opened FolderPaths
  import opened FolderRights
  import opened FolderChanges

  // ------------------------------------------------------------ what most steps leave alone

  lemma FilingsStand(t: Tables)
    requires Forest(t)
    ensures forall d <- t.docs :: Owned(t, t.docs[d].folder, t.docs[d].owner)
    ensures forall d <- t.docs | t.docs[d].trashedFrom.Some? :: Owned(t, t.docs[d].trashedFrom.value, t.docs[d].owner)
  {
    hide Acyclic, AllPlaced, NamesDiffer, SystemsUnique;
  }

  predicate LeavesFolders(step: Step) {
    step.SetUp? || step.Create? || step.AddDoc? || step.MoveDoc? || step.TrashDoc? || step.RestoreDoc? || step.RemoveDoc?
  }

  lemma FolderStays(t: Tables, t': Tables, step: Step, x: FolderId)
    requires x in t.folders && x in t'.folders && t'.folders[x] == t.folders[x] && LeavesFolders(step)
    ensures FolderIs(t, t', step, x) && !RemovesFolder(t, step, x)
  {
    hide Below, Empty, TakesChildren, SystemReady;
  }

  lemma SameFolders(t: Tables, t': Tables, step: Step)
    requires t'.folders == t.folders && LeavesFolders(step)
    ensures FoldersAre(t, t', step)
  {
    hide FolderIs, RemovesFolder;
    forall x <- t.folders ensures FolderIs(t, t', step, x) && !RemovesFolder(t, step, x) {
      FolderStays(t, t', step, x);
    }
  }

  /** At most system folders of the owner were made. */
  lemma GrownFolders(t: Tables, t': Tables, step: Step)
    requires step.SetUp? || step.TrashDoc? || step.RestoreDoc?
    requires Extends(t, t'.(docs := t.docs), step.owner)
    ensures FoldersAre(t, t', step)
  {
    hide FolderIs, RemovesFolder;
    forall x <- t.folders ensures FolderIs(t, t', step, x) && !RemovesFolder(t, step, x) {
      FolderStays(t, t', step, x);
    }
  }

  /** A document that the step does not name stays as it is while its folders do. */
  lemma DocumentStays(t: Tables, t': Tables, step: Step, d: DocId)
    requires d in t.docs && d in t'.docs && t'.docs[d] == t.docs[d] && !Forgotten(t', t.docs[d])
    requires !step.Trash? && !step.Restore? && !step.Delete?
    requires (step.MoveDoc? || step.TrashDoc? || step.RestoreDoc?) && step.d == d ==>
      !MovesDocument(t, step, d) && !DiscardsDocument(t, step, d) && !ReturnsDocument(t, step, d)
    ensures DocumentLies(t, t', step, d) && DocumentMarked(t, t', step, d)
  {
    hide Below, SystemReady, Empty, TakesChildren;
  }

  lemma SameDocuments(t: Tables, t': Tables, step: Step)
    requires Forest(t) && t'.docs == t.docs && forall x <- t.folders :: x in t'.folders
    requires step.SetUp? || step.Create? || step.Ensure? || step.Rename? || step.Move?
    ensures DocumentsAre(t, t', step)
  {
    hide Forest, DocumentLies, DocumentMarked;
    FilingsStand(t);
    forall d <- t.docs ensures DocumentLies(t, t', step, d) && DocumentMarked(t, t', step, d) {
      DocumentStays(t, t', step, d);
    }
  }

  /** Only the document of the step was written. */
  lemma OneDocument(t: Tables, t': Tables, step: Step, d: DocId)
    requires Forest(t) && forall x <- t.folders :: x in t'.folders
    requires (step.MoveDoc? || step.TrashDoc? || step.RestoreDoc?) && step.d == d
    requires t'.docs.Keys == t.docs.Keys && forall e <- t.docs | e != d :: t'.docs[e] == t.docs[e]
    requires d in t.docs ==> DocumentLies(t, t', step, d) && DocumentMarked(t, t', step, d)
    ensures DocumentsAre(t, t', step)
  {
    hide Forest, DocumentLies, DocumentMarked;
    FilingsStand(t);
    forall e <- t.docs | e != d ensures DocumentLies(t, t', step, e) && DocumentMarked(t, t', step, e) {
      DocumentStays(t, t', step, e);
    }
  }

  // ------------------------------------------------------------ steps on one document

  lemma AddStep(t: Tables, step: Step)
    requires Forest(t) && (step.AddDoc? || step.RemoveDoc?)
    ensures FoldersAre(t, Apply(t, step), step) && DocumentsAre(t, Apply(t, step), step)
  {
    hide Forest, FoldersAre, DocumentLies, DocumentMarked;
    var t' := Apply(t, step);
    SameFolders(t, t', step);
    FilingsStand(t);
    forall d <- t.docs | d in t'.docs ensures DocumentLies(t, t', step, d) && DocumentMarked(t, t', step, d) {
      DocumentStays(t, t', step, d);
    }
  }

  lemma MoveDocStep(t: Tables, step: Step)
    requires Forest(t) && step.MoveDoc?
    ensures FoldersAre(t, Apply(t, step), step) && DocumentsAre(t, Apply(t, step), step)
  {
    hide Forest, FoldersAre, DocumentsAre, DocumentLies, DocumentMarked;
    SameFolders(t, Apply(t, step), step);
    if step.d in t.docs {
      FilingsStand(t);
      MovedDocument(t, step);
    }
    OneDocument(t, Apply(t, step), step, step.d);
  }

  lemma MovedDocument(t: Tables, step: Step)
    requires step.MoveDoc? && step.d in t.docs && !Forgotten(t, t.docs[step.d])
    ensures step.d in Apply(t, step).docs
    ensures DocumentLies(t, Apply(t, step), step, step.d) && DocumentMarked(t, Apply(t, step), step, step.d)
  {
    hide SystemReady, Empty, TakesChildren, Below;
  }

  lemma TrashDocStep(t: Tables, step: Step)
    requires Forest(t) && step.TrashDoc?
    ensures FoldersAre(t, Apply(t, step), step) && DocumentsAre(t, Apply(t, step), step)
  {
    hide Forest, SystemReady, GetSystem, FoldersAre, DocumentsAre;
    GetSystemExactly(t, step.owner, TRASH);
    GetSystemKeeps(t, step.owner, TRASH);
    FilingsStand(t);
    GrownFolders(t, Apply(t, step), step);
    OneDocument(t, Apply(t, step), step, step.d);
  }

  lemma RestoreDocStep(t: Tables, step: Step)
    requires Forest(t) && step.RestoreDoc?
    ensures FoldersAre(t, Apply(t, step), step) && DocumentsAre(t, Apply(t, step), step)
  {
    hide Forest, SystemReady, GetSystem, FoldersAre, DocumentsAre, DocumentLies, DocumentMarked, Origin, Usable;
    GetSystemExactly(t, step.owner, INBOX);
    GetSystemKeeps(t, step.owner, INBOX);
    FilingsStand(t);
    GrownFolders(t, Apply(t, step), step);
    if step.d in t.docs {
      ReturnedDocument(t, step);
    }
    OneDocument(t, Apply(t, step), step, step.d);
  }

  lemma ReturnedDocument(t: Tables, step: Step)
    requires Forest(t) && step.RestoreDoc? && step.d in t.docs
    ensures step.d in Apply(t, step).docs
    ensures DocumentLies(t, Apply(t, step), step, step.d) && DocumentMarked(t, Apply(t, step), step, step.d)
  {
    hide Forest, SystemReady, GetSystem, DocumentLies, DocumentMarked;
    GetSystemExactly(t, step.owner, INBOX);
    GetSystemKeeps(t, step.owner, INBOX);
    FilingsStand(t);
    var r := GetSystem(t, step.owner, INBOX);
    if ReturnsDocument(t, step, step.d) {
      var (t1, queue) := r.value;
      forall y | SystemFolder(t1.folders, y, step.owner, INBOX) ensures y == queue {
        OnlySystem(t1, step.owner, INBOX, y);
      }
      ReturnsHome(t, t1, queue, step);
    } else {
      NotReturned(t, step);
      DocumentStays(t, t, step, step.d);
    }
  }

  lemma NotReturned(t: Tables, step: Step)
    requires step.RestoreDoc? && !ReturnsDocument(t, step, step.d)
    requires GetSystem(t, step.owner, INBOX).Ok? <==> SystemReady(t, step.owner, INBOX)
    ensures Apply(t, step) == t
  {
    hide GetSystem, SystemReady, Usable;
  }

  lemma ReturnsHome(t: Tables, t1: Tables, queue: FolderId, step: Step)
    requires step.RestoreDoc? && ReturnsDocument(t, step, step.d) && GetSystem(t, step.owner, INBOX) == Ok((t1, queue))
    requires Extends(t, t1, step.owner) && SystemFolder(t1.folders, queue, step.owner, INBOX)
    requires forall y | SystemFolder(t1.folders, y, step.owner, INBOX) :: y == queue
    requires t.docs[step.d].trashedFrom.Some? ==> Owned(t, t.docs[step.d].trashedFrom.value, step.owner)
    ensures step.d in Apply(t, step).docs
    ensures DocumentLies(t, Apply(t, step), step, step.d) && DocumentMarked(t, Apply(t, step), step, step.d)
  {
    hide GetSystem, SystemReady, Usable;
  }

  // ------------------------------------------------------------ steps that make or change one folder

  lemma SetUpStep(t: Tables, step: Step)
    requires Forest(t) && step.SetUp?
    ensures FoldersAre(t, Apply(t, step), step) && DocumentsAre(t, Apply(t, step), step)
  {
    hide Forest, EnsureSystemFolders, FoldersAre, DocumentsAre;
    EnsureSystemFoldersKeeps(t, step.owner);
    ExtendsSelf(t, step.owner);
    GrownFolders(t, Apply(t, step), step);
    SameDocuments(t, Apply(t, step), step);
  }

  lemma CreateUnderExactly(t: Tables, owner: OwnerId, name: string, parent: FolderId)
    requires Forest(t) && Owned(t, parent, owner)
    ensures CreateUnder(t, owner, name, parent) == Ok(Insert(t, Folder(name, Some(parent), owner, NORMAL, false, None)))
         || CreateUnder(t, owner, name, parent).Err?
    ensures CreateUnder(t, owner, name, parent).Ok? <==> !HasChild(t.folders, parent, name)
  {
    NameTakenHere(t, Some(parent), owner, name, t.nextId);
    Fresh(t);
    hide Forest;
    TakenByChild(t, parent, owner, name);
    hide HasChild, NameAt;
    if x: FolderId :| NameTaken(t.folders, parent, owner, name, x, true) {
      assert NameTaken(t.folders, parent, owner, name, x, false);
    }
  }

  /** Below a root that was just made there are the inbox and the trash folder. */
  lemma FreshRoot(t: Tables, owner: OwnerId)
    requires Forest(t) && NoRoot(t, owner)
    ensures var r := GetSystem(t, owner, ROOT);
      r.Ok? && forall name :: HasChild(r.value.0.folders, r.value.1, name) <==> name == "Inbox" || name == "Trash"
  {
    hide Forest, EnsureSystemFolders, HasChild;
    NoRootNoFolder(t, owner);
    GetSystemExactly(t, owner, ROOT);
    GetSystemKeeps(t, owner, ROOT);
    SetUpMakes(t, owner, INBOX);
    SetUpMakes(t, owner, TRASH);
    var (t1, root) := GetSystem(t, owner, ROOT).value;
    ChildrenOfFreshRoot(t, t1, owner, root);
  }

  lemma ChildrenOfFreshRoot(t: Tables, t1: Tables, owner: OwnerId, root: FolderId)
    requires forall x <- t.folders :: t.folders[x].owner != owner
    requires Forest(t1) && Extends(t, t1, owner) && SystemFolder(t1.folders, root, owner, ROOT)
    requires exists x <- t1.folders :: SystemFolder(t1.folders, x, owner, INBOX)
    requires exists x <- t1.folders :: SystemFolder(t1.folders, x, owner, TRASH)
    ensures forall name :: HasChild(t1.folders, root, name) <==> name == "Inbox" || name == "Trash"
  {
    var inbox :| inbox in t1.folders && SystemFolder(t1.folders, inbox, owner, INBOX);
    var trash :| trash in t1.folders && SystemFolder(t1.folders, trash, owner, TRASH);
    SystemChild(t1, root, inbox);
    SystemChild(t1, root, trash);
    forall name, c | Child(t1.folders, root, name, c) ensures name == "Inbox" || name == "Trash" {
      OneChild(t1, root, name, c, c);
    }
    hide Forest;
  }

  lemma SystemChild(t: Tables, root: FolderId, x: FolderId)
    requires Forest(t) && x in t.folders && SystemFolder(t.folders, root, t.folders[x].owner, ROOT)
    requires t.folders[x].kind == INBOX || t.folders[x].kind == TRASH
    ensures Child(t.folders, root, t.folders[x].name, x)
  {
    hide Acyclic, NamesDiffer, DocsFiled;
    assert WellPlaced(t.folders, x);
  }

  lemma SystemIsNew(t: Tables, t1: Tables, t': Tables, step: Step, x: FolderId)
    requires step.Create? && x in t1.folders && UnderRoot(t1.folders, x, step.owner)
    requires forall y <- t1.folders :: y in t'.folders && t'.folders[y] == t1.folders[y]
    ensures NewFolderIs(t, t', step, x)
  {
    hide Creates, Paves;
  }

  lemma AskedForIsNew(t: Tables, t': Tables, step: Step, parent: FolderId, x: FolderId)
    requires Creates(t, step) && x in t'.folders
    requires t'.folders[x] == Folder(step.name, Some(parent), step.owner, NORMAL, false, None)
    requires if step.parent.Some? then step.parent.value == parent else SystemFolder(t'.folders, parent, step.owner, ROOT)
    ensures NewFolderIs(t, t', step, x)
  {
    hide Creates, Paves;
  }

  /** The folder asked for was added, after the system folders if the root was missing. */
  lemma CreatedFolders(t: Tables, t1: Tables, t': Tables, step: Step, parent: FolderId)
    requires Creates(t, step) && Forest(t1) && Extends(t, t1, step.owner)
    requires t' == Insert(t1, Folder(step.name, Some(parent), step.owner, NORMAL, false, None))
    requires if step.parent.Some? then step.parent.value == parent else SystemFolder(t1.folders, parent, step.owner, ROOT)
    ensures FoldersAre(t, t', step)
  {
    Fresh(t1);
    hide Forest, Creates, HasChild, FolderIs, RemovesFolder, NewFolderIs;
    forall x <- t.folders ensures FolderIs(t, t', step, x) && !RemovesFolder(t, step, x) {
      FolderStays(t, t', step, x);
    }
    forall x <- t'.folders | x !in t.folders ensures NewFolderIs(t, t', step, x) {
      if x in t1.folders {
        SystemIsNew(t, t1, t', step, x);
      } else {
        AskedForIsNew(t, t', step, parent, x);
      }
    }
  }

  lemma CreateStep(t: Tables, step: Step)
    requires Forest(t) && step.Create?
    ensures FoldersAre(t, Apply(t, step), step) && DocumentsAre(t, Apply(t, step), step)
    ensures Creates(t, step) <==> CreateFolder(t, step.owner, step.name, step.parent).Ok?
  {
    hide Forest, GetSystem, CreateUnder, HasChild, FoldersAre, DocumentsAre;
    CreateKeepsForest(t, step.owner, step.name, step.parent);
    var t' := Apply(t, step);
    if step.parent.Some? {
      if Owned(t, step.parent.value, step.owner) {
        CreateUnderExactly(t, step.owner, step.name, step.parent.value);
      }
      ExtendsSelf(t, step.owner);
      if Creates(t, step) {
        CreatedFolders(t, t, t', step, step.parent.value);
      }
    } else {
      CreateBelowRoot(t, step);
    }
    if !Creates(t, step) {
      NoneCreated(t, step);
    }
    SameDocuments(t, t', step);
  }

  lemma NoneCreated(t: Tables, step: Step)
    requires step.Create?
    ensures FoldersAre(t, t, step)
  {
    SameFolders(t, t, step);
  }

  lemma CreateBelowRoot(t: Tables, step: Step)
    requires Forest(t) && step.Create? && step.parent.None?
    ensures Creates(t, step) <==> CreateFolder(t, step.owner, step.name, step.parent).Ok?
    ensures Creates(t, step) ==> FoldersAre(t, Apply(t, step), step)
  {
    hide Forest, GetSystem, CreateUnder, HasChild, FoldersAre;
    GetSystemExactly(t, step.owner, ROOT);
    GetSystemKeeps(t, step.owner, ROOT);
    if NoRoot(t, step.owner) {
      FreshRoot(t, step.owner);
    }
    var root := GetSystem(t, step.owner, ROOT);
    if root.Ok? {
      CreateUnderExactly(root.value.0, step.owner, step.name, root.value.1);
      if Creates(t, step) {
        CreatedFolders(t, root.value.0, Apply(t, step), step, root.value.1);
      }
    }
  }

  lemma EnsureStep(t: Tables, step: Step)
    requires Forest(t) && step.Ensure?
    ensures FoldersAre(t, Apply(t, step), step) && DocumentsAre(t, Apply(t, step), step)
  {
    hide Forest, EnsurePath, Passable, OnPath, Leads, DocumentsAre;
    EnsureFolderPathExactly(t, step.x, step.segments);
    SameDocuments(t, Apply(t, step), step);
  }

  lemma RenameStep(t: Tables, step: Step)
    requires Forest(t) && step.Rename?
    ensures FoldersAre(t, Apply(t, step), step) && DocumentsAre(t, Apply(t, step), step)
  {
    hide Forest, MayRename, Taken, DocumentsAre;
    RenameExactly(t, step.owner, step.x, step.name);
    SameDocuments(t, Apply(t, step), step);
  }

  lemma MoveStep(t: Tables, step: Step)
    requires Forest(t) && step.Move?
    ensures FoldersAre(t, Apply(t, step), step) && DocumentsAre(t, Apply(t, step), step)
  {
    hide Forest, MayMove, MoveFolder, DocumentsAre;
    MoveExactly(t, step.owner, step.x, step.dest);
    if MayMove(t, step.owner, step.x, step.dest) {
      MoveIs(t, step.owner, step.x, step.dest);
    }
    SameDocuments(t, Apply(t, step), step);
  }

  // ------------------------------------------------------------ trashing and restoring a subtree

  predicate Trashing(step: Step) {
    step.Trash? || (step.Delete? && step.strategy.ToTrash?)
  }

  /** Who lies in the subtree of a plain folder. */
  lemma Within(t: Tables, owner: OwnerId, a: FolderId)
    requires Forest(t) && Plain(t, a, owner)
    ensures forall x <- t.folders | Below(t.folders, x, a) :: Plain(t, x, owner)
    ensures forall d <- t.docs | Below(t.folders, t.docs[d].folder, a) :: t.docs[d].owner == owner
  {
    SubtreeIsPlain(t.folders, a);
    FilingsStand(t);
    hide Forest;
    forall x <- t.folders | Below(t.folders, x, a) ensures Plain(t, x, owner) {
      assert x in DescendantIds(t.folders, a);
    }
    hide Below;
  }

  lemma BinStep(t: Tables, step: Step)
    requires Forest(t) && (step.Trash? || (step.Delete? && step.strategy.ToTrash?))
    ensures FoldersAre(t, Apply(t, step), step) && DocumentsAre(t, Apply(t, step), step)
  {
    hide Forest, Below, FolderIs, DocumentLies, DocumentMarked, RemovesFolder, NewFolderIs;
    var t' := Apply(t, step);
    FilingsStand(t);
    if Bins(t, step) {
      Within(t, step.owner, step.x);
    }
    BinsOnly(t, step);
    forall x <- t.folders ensures x in t'.folders && FolderIs(t, t', step, x) {
      BinnedFolder(t, step, x);
    }
    forall d <- t.docs ensures d in t'.docs && DocumentLies(t, t', step, d) && DocumentMarked(t, t', step, d) {
      BinnedDocument(t, step, d);
    }
  }

  /** Nothing is taken away or made. */
  lemma BinsOnly(t: Tables, step: Step)
    requires step.Trash? || (step.Delete? && step.strategy.ToTrash?)
    ensures Apply(t, step).folders.Keys == t.folders.Keys && Apply(t, step).docs.Keys == t.docs.Keys
    ensures forall x :: !RemovesFolder(t, step, x)
  {
  }

  lemma BinnedFolder(t: Tables, step: Step, x: FolderId)
    requires Trashing(step) && x in t.folders
    requires Bins(t, step) ==> forall y <- t.folders | Below(t.folders, y, step.x) :: Plain(t, y, step.owner)
    ensures x in Apply(t, step).folders && FolderIs(t, Apply(t, step), step, x)
  {
    hide Below;
  }

  lemma BinnedDocument(t: Tables, step: Step, d: DocId)
    requires Trashing(step) && d in t.docs && t.docs[d].folder in t.folders
    requires t.docs[d].trashedFrom.Some? ==> t.docs[d].trashedFrom.value in t.folders
    requires Bins(t, step) && Below(t.folders, t.docs[d].folder, step.x) ==> t.docs[d].owner == step.owner
    ensures d in Apply(t, step).docs
    ensures DocumentLies(t, Apply(t, step), step, d) && DocumentMarked(t, Apply(t, step), step, d)
  {
    hide Below;
  }

  lemma RestoreStep(t: Tables, step: Step)
    requires Forest(t) && step.Restore?
    ensures FoldersAre(t, Apply(t, step), step) && DocumentsAre(t, Apply(t, step), step)
  {
    hide Forest, Below, FolderIs, DocumentLies, DocumentMarked;
    var t' := Apply(t, step);
    FilingsStand(t);
    if Restores(t, step) {
      Within(t, step.owner, step.x);
    }
    forall x <- t.folders ensures x in t'.folders && FolderIs(t, t', step, x) {
      RestoredFolder(t, step, x);
    }
    forall d <- t.docs ensures d in t'.docs && DocumentLies(t, t', step, d) && DocumentMarked(t, t', step, d) {
      RestoredDocument(t, step, d);
    }
  }

  lemma RestoredFolder(t: Tables, step: Step, x: FolderId)
    requires step.Restore? && x in t.folders
    requires Restores(t, step) ==> forall y <- t.folders | Below(t.folders, y, step.x) :: Plain(t, y, step.owner)
    ensures x in Apply(t, step).folders && FolderIs(t, Apply(t, step), step, x)
  {
    hide Below;
  }

  lemma RestoredDocument(t: Tables, step: Step, d: DocId)
    requires step.Restore? && d in t.docs && t.docs[d].folder in t.folders
    requires t.docs[d].trashedFrom.Some? ==> t.docs[d].trashedFrom.value in t.folders
    requires Restores(t, step) && Below(t.folders, t.docs[d].folder, step.x) ==> t.docs[d].owner == step.owner
    ensures d in Apply(t, step).docs
    ensures DocumentLies(t, Apply(t, step), step, d) && DocumentMarked(t, Apply(t, step), step, d)
  {
    hide Below;
  }

  // ------------------------------------------------------------ deleting a folder

  /** A folder's children have different names, and the query found them all. */
  lemma ChildrenApart(t: Tables, owner: OwnerId, x: FolderId, children: seq<FolderId>)
    requires Forest(t) && Plain(t, x, owner) && Enumerates(children, ChildIds(t, x, owner))
    ensures forall c <- children :: c in t.folders && t.folders[c].parent == Some(x)
    ensures forall c <- t.folders | t.folders[c].parent == Some(x) :: c in children
    ensures forall i, j | 0 <= i < j < |children| ::
      children[i] != children[j] && t.folders[children[i]].name != t.folders[children[j]].name
    ensures children == [] && DocsIn(t, {x}, owner) == {} <==> Empty(t, x)
  {
    ChildrenAreAll(t, owner, x, children);
    FilingsStand(t);
    hide Acyclic, AllPlaced, SystemsUnique, DocsFiled;
    forall c <- children ensures c in t.folders && t.folders[c].parent == Some(x) && t.folders[c].owner == owner {
      assert c in ChildIds(t, x, owner);
    }
    forall i, j | 0 <= i < j < |children|
      ensures children[i] != children[j] && t.folders[children[i]].name != t.folders[children[j]].name
    {
      assert children[i] in children && children[j] in children;
      assert Siblings(t.folders[children[i]], t.folders[children[j]]);
    }
    hide Forest;
    if children != [] {
      assert children[0] in children;
    }
    if DocsIn(t, {x}, owner) == {} {
      forall d <- t.docs ensures t.docs[d].folder != x {
        assert d !in DocsIn(t, {x}, owner);
      }
    }
  }

  /** A folder can be unpacked at a place exactly if that could take each of its children alone. */
  lemma EmptyIntoExactly(t: Tables, owner: OwnerId, x: FolderId, children: seq<FolderId>, dest: FolderId, toInbox: bool)
    requires Forest(t) && Plain(t, x, owner) && Enumerates(children, ChildIds(t, x, owner))
    ensures EmptyInto(t, owner, x, children, dest, toInbox).Ok? <==> TakesChildren(t, owner, x, dest)
  {
    ChildrenApart(t, owner, x, children);
    hide Forest, MayMove;
    MoveAllExactly(t, owner, children, dest);
    hide MoveAll;
  }

  /** What a folder that was unpacked leaves behind. */
  ghost predicate Unpacked(t: Tables, t': Tables, x: FolderId, owner: OwnerId, dest: FolderId, toInbox: bool) {
    && t'.folders.Keys == t.folders.Keys - {x}
    && (forall y <- t'.folders :: t'.folders[y] ==
          if t.folders[y].parent == Some(x) then t.folders[y].(parent := Some(dest)) else t.folders[y])
    && SentTo(t, t', owner, x, dest, toInbox)
  }

  lemma EmptyIntoUnpacks(t: Tables, owner: OwnerId, x: FolderId, children: seq<FolderId>, dest: FolderId, toInbox: bool)
    requires Forest(t) && Plain(t, x, owner) && Enumerates(children, ChildIds(t, x, owner))
    requires EmptyInto(t, owner, x, children, dest, toInbox).Ok?
    ensures Unpacked(t, EmptyInto(t, owner, x, children, dest, toInbox).value, x, owner, dest, toInbox)
  {
    hide Forest, MoveAll, SentTo, RefileDocs;
    ChildrenApart(t, owner, x, children);
    MoveAllKeeps(t, owner, children, dest);
    EmptyIntoSends(t, owner, x, children, dest, toInbox);
    RefileSameFolders(MoveAll(t, owner, children, dest).value, x, owner, dest, toInbox);
  }

  lemma RefileSameFolders(t: Tables, x: FolderId, owner: OwnerId, dest: FolderId, toInbox: bool)
    ensures RefileDocs(t, x, owner, dest, toInbox).folders == t.folders
  {
  }

  /** Before the folder was unpacked, at most system folders were made. */
  lemma UnpackedFolders(t: Tables, t1: Tables, t': Tables, step: Step, dest: FolderId)
    requires step.Delete? && Extends(t, t1, step.owner) && Unpacks(t, step) && Forest(t1)
    requires Unpacked(t1, t', step.x, step.owner, dest, step.strategy.MoveToInbox?)
    requires UnpacksTo(t, t', step, dest)
    ensures FoldersAre(t, t', step)
  {
    hide Forest, FolderIs, NewFolderIs, RemovesFolder, Unpacks, UnpacksTo, Unpacked, Extends;
    forall x <- t.folders ensures x !in t'.folders <==> RemovesFolder(t, step, x) {
      UnpackingRemoves(t, t1, t', step, dest, x);
    }
    forall x <- t.folders | x in t'.folders ensures FolderIs(t, t', step, x) {
      UnpackedRow(t, t1, t', step, dest, x);
      UnpackedFolder(t, t', step, x, dest);
    }
    forall x <- t'.folders | x !in t.folders ensures NewFolderIs(t, t', step, x) {
      NewBesideUnpacked(t, t1, t', step, dest, x);
    }
  }

  lemma UnpackingRemoves(t: Tables, t1: Tables, t': Tables, step: Step, dest: FolderId, x: FolderId)
    requires step.Delete? && Extends(t, t1, step.owner) && Unpacks(t, step) && x in t.folders
    requires Unpacked(t1, t', step.x, step.owner, dest, step.strategy.MoveToInbox?)
    ensures x !in t'.folders <==> RemovesFolder(t, step, x)
  {
    hide Empty, Below, TakesChildren, SystemReady, SentTo;
  }

  lemma UnpackedRow(t: Tables, t1: Tables, t': Tables, step: Step, dest: FolderId, x: FolderId)
    requires step.Delete? && Extends(t, t1, step.owner) && x in t.folders && x in t'.folders
    requires Unpacked(t1, t', step.x, step.owner, dest, step.strategy.MoveToInbox?)
    ensures t'.folders[x] == if t.folders[x].parent == Some(step.x) then t.folders[x].(parent := Some(dest)) else t.folders[x]
  {
    hide SentTo;
  }

  lemma UnpackedFolder(t: Tables, t': Tables, step: Step, x: FolderId, dest: FolderId)
    requires Unpacks(t, step) && UnpacksTo(t, t', step, dest) && x in t.folders && x in t'.folders
    requires t'.folders[x] == if t.folders[x].parent == Some(step.x) then t.folders[x].(parent := Some(dest)) else t.folders[x]
    ensures FolderIs(t, t', step, x)
  {
    hide Empty, Below, TakesChildren, SystemReady;
  }

  lemma NewBesideUnpacked(t: Tables, t1: Tables, t': Tables, step: Step, dest: FolderId, x: FolderId)
    requires step.Delete? && Extends(t, t1, step.owner) && Unpacks(t, step)
    requires Unpacked(t1, t', step.x, step.owner, dest, step.strategy.MoveToInbox?)
    requires x in t'.folders && x !in t.folders
    ensures NewFolderIs(t, t', step, x)
  {
    assert Plain(t, step.x, step.owner);
    hide SentTo, Unpacks;
    assert UnderRoot(t1.folders, x, step.owner);
    assert UnderRoot(t'.folders, x, step.owner);
  }

  lemma UnpackedDocuments(t: Tables, t1: Tables, t': Tables, step: Step, dest: FolderId)
    requires step.Delete? && Forest(t) && Extends(t, t1, step.owner) && Unpacks(t, step)
    requires Unpacked(t1, t', step.x, step.owner, dest, step.strategy.MoveToInbox?) && UnpacksTo(t, t', step, dest)
    ensures DocumentsAre(t, t', step)
  {
    hide Forest, DocumentLies, DocumentMarked, Unpacks, UnpacksTo;
    FilingsStand(t);
    UnpacksPlain(t, step);
    forall d <- t.docs ensures DocumentLies(t, t', step, d) && DocumentMarked(t, t', step, d) {
      assert t'.docs[d] == if t.docs[d].folder == step.x
        then Forget(t.docs[d], {step.x}).(folder := dest, inbox := step.strategy.MoveToInbox? || t.docs[d].inbox)
        else Forget(t.docs[d], {step.x});
      UnpackedDocument(t, t', step, dest, d);
    }
  }

  lemma UnpacksPlain(t: Tables, step: Step)
    requires Unpacks(t, step)
    ensures Plain(t, step.x, step.owner)
  {
  }

  lemma UnpackedDocument(t: Tables, t': Tables, step: Step, dest: FolderId, d: DocId)
    requires Unpacks(t, step) && UnpacksTo(t, t', step, dest) && d in t.docs && d in t'.docs
    requires t.docs[d].trashedFrom.Some? ==>
      (t.docs[d].trashedFrom.value !in t'.folders <==> t.docs[d].trashedFrom == Some(step.x))
    requires t'.docs[d] == if t.docs[d].folder == step.x
      then Forget(t.docs[d], {step.x}).(folder := dest, inbox := step.strategy.MoveToInbox? || t.docs[d].inbox)
      else Forget(t.docs[d], {step.x})
    ensures DocumentLies(t, t', step, d) && DocumentMarked(t, t', step, d)
  {
    hide Empty, Below, TakesChildren, SystemReady;
  }

  /** A step that only takes folders away, none of which has other children or documents. */
  ghost predicate Cleared(t: Tables, t': Tables, owner: OwnerId, ids: set<FolderId>) {
    && (forall x <- t.folders :: x !in t'.folders <==> x in ids)
    && (forall x <- t.folders | x in t'.folders :: t'.folders[x] == t.folders[x])
    && (forall x <- t'.folders | x !in t.folders :: UnderRoot(t'.folders, x, owner))
  }

  lemma ClearedFolders(t: Tables, t': Tables, step: Step, ids: set<FolderId>)
    requires step.Delete? && (Drops(t, step) || Destroys(t, step)) && Cleared(t, t', step.owner, ids)
    requires forall x <- t.folders :: x in ids <==> RemovesFolder(t, step, x)
    ensures FoldersAre(t, t', step)
  {
    hide RemovesFolder, FolderIs;
    forall x <- t.folders | x in t'.folders ensures FolderIs(t, t', step, x) {
      UntouchedFolder(t, t', step, x);
    }
    hide Drops, Destroys;
  }

  lemma UntouchedFolder(t: Tables, t': Tables, step: Step, x: FolderId)
    requires step.Delete? && !Bins(t, step) && !Unpacks(t, step)
    requires x in t.folders && x in t'.folders && t'.folders[x] == t.folders[x]
    ensures FolderIs(t, t', step, x)
  {
    hide Below, Unpacks;
  }

  lemma DropStep(t: Tables, step: Step)
    requires Forest(t) && Enabled(t, step) && step.Delete? && Drops(t, step)
    ensures FoldersAre(t, Apply(t, step), step) && DocumentsAre(t, Apply(t, step), step)
  {
    hide Forest, FoldersAre, DocumentLies, DocumentMarked;
    FilingsStand(t);
    ChildrenApart(t, step.owner, step.x, step.children);
    hide Empty, SystemReady, TakesChildren, Below;
    var t' := Apply(t, step);
    assert t' == RemoveFolders(t, {step.x});
    ClearedFolders(t, t', step, {step.x});
    forall d <- t.docs ensures DocumentLies(t, t', step, d) && DocumentMarked(t, t', step, d) {
      RefiledNowhere(t, t', step, d);
    }
  }

  lemma RefiledNowhere(t: Tables, t': Tables, step: Step, d: DocId)
    requires step.Delete? && !Bins(t, step) && !Unpacks(t, step) && !Destroys(t, step)
    requires d in t.docs && d in t'.docs
    requires t'.docs[d] == if Forgotten(t', t.docs[d]) then t.docs[d].(trashedFrom := None) else t.docs[d]
    ensures DocumentLies(t, t', step, d) && DocumentMarked(t, t', step, d)
  {
    hide Below, Unpacks, Destroys;
  }

  /** The new system folders are not in the subtree of a plain folder, which is as it was. */
  lemma SameSubtree(t: Tables, t1: Tables, owner: OwnerId, x: FolderId)
    requires Forest(t) && Forest(t1) && Extends(t, t1, owner) && Plain(t, x, owner)
    ensures forall y <- t1.folders :: Below(t1.folders, y, x) <==> y in t.folders && Below(t.folders, y, x)
  {
    SubtreeIsPlain(t1.folders, x);
    forall y <- t1.folders ensures Below(t1.folders, y, x) <==> y in t.folders && Below(t.folders, y, x) {
      if y in t.folders {
        forall n: nat ensures Ancestor(t1.folders, y, n) == Ancestor(t.folders, y, n) {
          SameWay(t, t1, owner, y, n);
        }
      } else {
        assert y !in DescendantIds(t1.folders, x);
      }
    }
  }

  lemma {:induction false} SameWay(t: Tables, t1: Tables, owner: OwnerId, y: FolderId, n: nat)
    requires AllPlaced(t.folders) && Extends(t, t1, owner) && y in t.folders
    ensures Ancestor(t1.folders, y, n) == Ancestor(t.folders, y, n)
    decreases n
  {
    if n > 0 {
      assert WellPlaced(t.folders, y);
      if t.folders[y].parent.Some? {
        SameWay(t, t1, owner, t.folders[y].parent.value, n - 1);
      }
    }
  }

  lemma DestroyStep(t: Tables, step: Step)
    requires Forest(t) && Enabled(t, step) && step.Delete? && Destroys(t, step)
    ensures FoldersAre(t, Apply(t, step), step) && DocumentsAre(t, Apply(t, step), step)
  {
    hide Forest, FoldersAre, DocumentsAre, GetSystem, DescendantIds;
    var t' := Apply(t, step);
    ChildrenApart(t, step.owner, step.x, step.children);
    GetSystemExactly(t, step.owner, TRASH);
    GetSystemKeeps(t, step.owner, TRASH);
    var (t1, trash) := GetSystem(t, step.owner, TRASH).value;
    var ids := DescendantIds(t1.folders, step.x);
    assert t' == RemoveFolders(DiscardDocs(t1, ids, step.owner, trash, step.strategy.at), ids);
    DestroysExactly(t, t1, step, ids, trash);
  }

  lemma DestroysExactly(t: Tables, t1: Tables, step: Step, ids: set<FolderId>, trash: FolderId)
    requires Forest(t) && Forest(t1) && step.Delete? && Destroys(t, step) && Extends(t, t1, step.owner)
    requires ids == DescendantIds(t1.folders, step.x) && SystemFolder(t1.folders, trash, step.owner, TRASH)
    ensures var t' := RemoveFolders(DiscardDocs(t1, ids, step.owner, trash, step.strategy.at), ids);
      FoldersAre(t, t', step) && DocumentsAre(t, t', step)
  {
    hide Forest, FoldersAre, SystemReady, Empty;
    var t' := RemoveFolders(DiscardDocs(t1, ids, step.owner, trash, step.strategy.at), ids);
    SameSubtree(t, t1, step.owner, step.x);
    FilingsStand(t);
    Within(t, step.owner, step.x);
    hide Below;
    DestroyedFolders(t, t1, t', step, ids);
    hide Extends, DocumentLies, DocumentMarked, Destroys, DiscardDocs;
    forall d <- t.docs ensures d in t'.docs && DocumentLies(t, t', step, d) && DocumentMarked(t, t', step, d) {
      DiscardedDocument(t, t1, step, ids, trash, d);
    }
  }

  lemma DestroyedFolders(t: Tables, t1: Tables, t': Tables, step: Step, ids: set<FolderId>)
    requires step.Delete? && Destroys(t, step) && Extends(t, t1, step.owner) && t'.folders == t1.folders - ids
    requires forall y <- t1.folders :: y in ids <==> y in t.folders && Below(t.folders, y, step.x)
    requires forall y <- ids :: y in t.folders && t.folders[y].kind == NORMAL
    ensures FoldersAre(t, t', step)
  {
    hide FoldersAre, Below, SystemReady, Empty, TakesChildren;
    forall x <- t'.folders | x !in t.folders ensures UnderRoot(t'.folders, x, step.owner) {
      var p := t1.folders[x].parent;
      assert UnderRoot(t1.folders, x, step.owner);
    }
    ClearedFolders(t, t', step, ids);
  }

  lemma DiscardedDocument(t: Tables, t1: Tables, step: Step, ids: set<FolderId>, trash: FolderId, d: DocId)
    requires step.Delete? && Destroys(t, step) && t1.docs == t.docs && d in t.docs
    requires SystemFolder(t1.folders, trash, step.owner, TRASH) && trash !in ids
    requires t.docs[d].folder in ids <==> Below(t.folders, t.docs[d].folder, step.x)
    requires t.docs[d].folder in ids ==> t.docs[d].owner == step.owner
    requires t.docs[d].trashedFrom.Some? ==> t.docs[d].trashedFrom.value in t1.folders
    ensures var t' := RemoveFolders(DiscardDocs(t1, ids, step.owner, trash, step.strategy.at), ids);
      d in t'.docs && DocumentLies(t, t', step, d) && DocumentMarked(t, t', step, d)
  {
    hide Below, SystemReady, Empty, TakesChildren;
  }

  lemma UnpackStep(t: Tables, step: Step)
    requires Forest(t) && Enabled(t, step) && step.Delete? && Plain(t, step.x, step.owner) && !Empty(t, step.x)
    requires step.strategy.MoveToParent? || step.strategy.MoveToInbox?
    ensures if Unpacks(t, step) then FoldersAre(t, Apply(t, step), step) && DocumentsAre(t, Apply(t, step), step)
            else Apply(t, step) == t
  {
    hide Forest, FoldersAre, DocumentsAre, GetSystem, EmptyInto, SystemReady, Empty, DocsIn;
    ChildrenApart(t, step.owner, step.x, step.children);
    if step.strategy.MoveToParent? {
      ParentIsThere(t, step.x);
      var dest := t.folders[step.x].parent.value;
      hide TakesChildren;
      EmptyIntoExactly(t, step.owner, step.x, step.children, dest, false);
      if Unpacks(t, step) {
        EmptyIntoUnpacks(t, step.owner, step.x, step.children, dest, false);
        ExtendsSelf(t, step.owner);
        UnpackedFolders(t, t, Apply(t, step), step, dest);
        UnpackedDocuments(t, t, Apply(t, step), step, dest);
      }
    } else {
      UnpackToInbox(t, step);
    }
  }

  lemma ParentIsThere(t: Tables, x: FolderId)
    requires Forest(t) && x in t.folders && t.folders[x].kind == NORMAL
    ensures t.folders[x].parent.Some? && Owned(t, t.folders[x].parent.value, t.folders[x].owner)
  {
    assert WellPlaced(t.folders, x);
  }

  /** A new inbox takes any child. */
  lemma FreshInboxTakes(t: Tables, t1: Tables, owner: OwnerId, x: FolderId, inbox: FolderId)
    requires Forest(t) && Forest(t1) && Extends(t, t1, owner) && Plain(t, x, owner)
    requires SystemFolder(t1.folders, inbox, owner, INBOX) && inbox !in t.folders
    ensures TakesChildren(t1, owner, x, inbox)
  {
    forall c <- t1.folders | t1.folders[c].parent == Some(x) ensures MayMove(t1, owner, c, inbox) {
      assert WellPlaced(t1.folders, c);
      assert c in t.folders && Plain(t1, c, owner);
      SameSubtree(t, t1, owner, c);
      forall y <- t1.folders ensures t1.folders[y].parent != Some(inbox) {
        NoChildOfFresh(t, t1, owner, inbox, y);
      }
    }
  }

  lemma NoChildOfFresh(t: Tables, t1: Tables, owner: OwnerId, inbox: FolderId, y: FolderId)
    requires Forest(t) && Extends(t, t1, owner) && inbox in t1.folders && inbox !in t.folders && y in t1.folders
    requires t1.folders[inbox].kind == INBOX
    ensures t1.folders[y].parent != Some(inbox)
  {
    if y in t.folders {
      assert WellPlaced(t.folders, y);
    } else {
      assert UnderRoot(t1.folders, y, owner);
    }
  }

  /** The inbox takes the children if every one may move to it, or if it is new. */
  lemma InboxTakes(t: Tables, t1: Tables, owner: OwnerId, x: FolderId, inbox: FolderId)
    requires Forest(t) && Plain(t, x, owner) && GetSystem(t, owner, INBOX) == Ok((t1, inbox))
    ensures Forest(t1) && Extends(t, t1, owner) && SystemFolder(t1.folders, inbox, owner, INBOX)
    ensures TakesChildren(t1, owner, x, inbox) <==>
              forall y <- t.folders | SystemFolder(t.folders, y, owner, INBOX) :: TakesChildren(t, owner, x, y)
  {
    hide Forest, GetSystem, TakesChildren, SystemReady;
    GetSystemExactly(t, owner, INBOX);
    GetSystemKeeps(t, owner, INBOX);
    if inbox in t.folders {
      assert SystemFolder(t.folders, inbox, owner, INBOX);
    } else {
      FreshInboxTakes(t, t1, owner, x, inbox);
    }
  }

  lemma SameChildren(t: Tables, t1: Tables, owner: OwnerId, x: FolderId)
    requires Extends(t, t1, owner) && Plain(t, x, owner)
    ensures ChildIds(t1, x, owner) == ChildIds(t, x, owner) && Plain(t1, x, owner)
  {
    forall y <- t1.folders | y !in t.folders ensures t1.folders[y].parent != Some(x) {
      assert UnderRoot(t1.folders, y, owner);
    }
  }

  lemma UnpackToInbox(t: Tables, step: Step)
    requires Forest(t) && Enabled(t, step) && step.Delete? && Plain(t, step.x, step.owner) && !Empty(t, step.x)
    requires step.strategy.MoveToInbox?
    ensures if Unpacks(t, step) then FoldersAre(t, Apply(t, step), step) && DocumentsAre(t, Apply(t, step), step)
            else Apply(t, step) == t
  {
    hide Forest, FoldersAre, DocumentsAre, GetSystem, EmptyInto, SystemReady, Empty, DocsIn, TakesChildren, Extends;
    ChildrenApart(t, step.owner, step.x, step.children);
    GetSystemExactly(t, step.owner, INBOX);
    var r := GetSystem(t, step.owner, INBOX);
    if r.Ok? {
      var (t1, inbox) := r.value;
      InboxTakes(t, t1, step.owner, step.x, inbox);
      SameChildren(t, t1, step.owner, step.x);
      EmptyIntoExactly(t1, step.owner, step.x, step.children, inbox, true);
      if Unpacks(t, step) {
        var t' := Apply(t, step);
        EmptyIntoUnpacks(t1, step.owner, step.x, step.children, inbox, true);
        InboxRemains(t1, t', step.x, step.owner, inbox);
        UnpackedFolders(t, t1, t', step, inbox);
        UnpackedDocuments(t, t1, t', step, inbox);
      }
    }
  }

  lemma InboxRemains(t: Tables, t': Tables, x: FolderId, owner: OwnerId, inbox: FolderId)
    requires Unpacked(t, t', x, owner, inbox, true) && Plain(t, x, owner) && SystemFolder(t.folders, inbox, owner, INBOX)
    ensures SystemFolder(t'.folders, inbox, owner, INBOX)
  {
    hide SentTo;
    assert inbox in t'.folders;
  }

  // ------------------------------------------------------------ any step

  lemma DeleteStep(t: Tables, step: Step)
    requires Forest(t) && Enabled(t, step) && step.Delete? && !step.strategy.ToTrash?
    ensures FoldersAre(t, Apply(t, step), step) && DocumentsAre(t, Apply(t, step), step)
  {
    hide Forest, FoldersAre, DocumentsAre, GetSystem, EmptyInto, SystemReady, TakesChildren, Empty, DocsIn, DescendantIds;
    if Plain(t, step.x, step.owner) {
      ChildrenApart(t, step.owner, step.x, step.children);
      if Empty(t, step.x) {
        DropStep(t, step);
      } else if step.strategy.MoveToParent? || step.strategy.MoveToInbox? {
        UnpackStep(t, step);
      } else if Destroys(t, step) {
        DestroyStep(t, step);
      } else {
        GetSystemExactly(t, step.owner, TRASH);
      }
    }
    if !Drops(t, step) && !Unpacks(t, step) && !Destroys(t, step) {
      RefusedDelete(t, step);
    }
  }

  lemma RefusedDelete(t: Tables, step: Step)
    requires Forest(t) && step.Delete? && !step.strategy.ToTrash?
    requires !Drops(t, step) && !Unpacks(t, step) && !Destroys(t, step)
    ensures FoldersAre(t, t, step) && DocumentsAre(t, t, step)
  {
    hide Forest, Drops, Unpacks, Destroys, FolderIs, DocumentLies, DocumentMarked;
    FilingsStand(t);
    forall x <- t.folders ensures FolderIs(t, t, step, x) {
      UntouchedFolder(t, t, step, x);
    }
    forall d <- t.docs ensures DocumentLies(t, t, step, d) && DocumentMarked(t, t, step, d) {
      RefiledNowhere(t, t, step, d);
    }
  }

  /** Every call changes exactly what it may: which folders go, what becomes of each that stays, what a
      new one is; and the same for the documents. A call that is refused changes nothing. */
  lemma StepChangesExactly(t: Tables, step: Step)
    requires Forest(t) && Enabled(t, step)
    ensures FoldersAre(t, Apply(t, step), step)
    ensures DocumentsAre(t, Apply(t, step), step)
  {
    hide *;
    match step
    case SetUp(_) => SetUpStep(t, step);
    case Create(_, _, _) => CreateStep(t, step);
    case Ensure(_, _) => EnsureStep(t, step);
    case Rename(_, _, _) => RenameStep(t, step);
    case Move(_, _, _) => MoveStep(t, step);
    case Trash(_, _, _) => BinStep(t, step);
    case Restore(_, _) => RestoreStep(t, step);
    case Delete(_, _, strategy, _) =>
      if strategy.ToTrash? {
        BinStep(t, step);
      } else {
        DeleteStep(t, step);
      }
    case AddDoc(_, _, _) => AddStep(t, step);
    case MoveDoc(_, _, _) => MoveDocStep(t, step);
    case TrashDoc(_, _, _) => TrashDocStep(t, step);
    case RestoreDoc(_, _, _) => RestoreDocStep(t, step);
    case RemoveDoc(_) => AddStep(t, step);
  }
}
