/** With which error a folder call is refused. */
module FolderAnswers {
  import opened Wrappers
  import opened Folders
  import opened FoldersProofs
  import opened FolderPaths
  import opened FolderRights
  import opened FolderChanges
  import opened FolderChangesProofs

  function Refused<T>(r: Result<T>): Option<Error> {
    if r.Ok? then None else Some(r.error)
  }

  /** The error of the call, if it raises one. */
  ghost function Answer(t: Tables, step: Step): Option<Error> {
    match step
    case SetUp(owner) => Refused(EnsureSystemFolders(t, owner))
    case Create(owner, name, parent) => Refused(CreateFolder(t, owner, name, parent))
    case Ensure(x, segments) => Refused(EnsureFolderPath(t, x, segments))
    case Rename(owner, x, name) => Refused(RenameFolder(t, owner, x, name))
    case Move(owner, x, dest) => Refused(MoveFolder(t, owner, x, dest))
    case Trash(owner, x, now) => Refused(TrashFolder(t, owner, x, now))
    case Restore(owner, x) => Refused(RestoreFolder(t, owner, x))
    case Delete(owner, x, strategy, children) => Refused(DeleteFolder(t, owner, x, strategy, children))
    case AddDoc(owner, d, x) => Refused(AddDocument(t, owner, d, x))
    case MoveDoc(owner, d, x) => Refused(MoveDocument(t, owner, d, x))
    case TrashDoc(owner, d, now) => Refused(TrashDocument(t, owner, d, now))
    case RestoreDoc(owner, d, into) => Refused(RestoreDocument(t, owner, d, into))
    case RemoveDoc(_) => None
  }

  // ------------------------------------------------------------ what each answer means

  /** The call has what it needs. */
  ghost predicate Accepted(t: Tables, step: Step) {
    match step
    case SetUp(owner) => !Blocked(t, owner, INBOX) && !Blocked(t, owner, TRASH)
    case Create(_, _, _) => Creates(t, step)
    case Ensure(_, _) => Paves(t, step)
    case Rename(_, x, _) => Renames(t, step, x)
    case Move(_, x, _) => Moves(t, step, x)
    case Trash(owner, x, _) => Plain(t, x, owner)
    case Restore(owner, x) => Plain(t, x, owner)
    case Delete(owner, x, strategy, _) =>
      Plain(t, x, owner) && (strategy.ToTrash? || Drops(t, step) || Unpacks(t, step) || Destroys(t, step))
    case AddDoc(_, d, _) => AddsDocument(t, step, d)
    case MoveDoc(_, d, _) => MovesDocument(t, step, d)
    case TrashDoc(owner, d, _) => Has(t, d, owner) && (t.docs[d].trashed || SystemReady(t, owner, TRASH))
    case RestoreDoc(owner, d, _) => Has(t, d, owner) && (t.docs[d].trashed ==> ReturnsDocument(t, step, d))
    case RemoveDoc(_) => true
  }

  /** A folder or document that the call names is not there for its caller. */
  predicate Misses(t: Tables, step: Step) {
    match step
    case SetUp(_) => false
    case Create(owner, name, parent) => name != "" && parent.Some? && !Owned(t, parent.value, owner)
    case Ensure(x, _) => x !in t.folders
    case Rename(owner, x, _) => !Owned(t, x, owner)
    case Move(owner, x, dest) => !Owned(t, x, owner) || (Plain(t, x, owner) && !Owned(t, dest, owner))
    case Trash(owner, x, _) => !Owned(t, x, owner)
    case Restore(owner, x) => !Owned(t, x, owner)
    case Delete(owner, x, _, _) => !Owned(t, x, owner)
    case AddDoc(owner, _, x) => !Owned(t, x, owner)
    case MoveDoc(owner, d, x) => !Has(t, d, owner) || !Owned(t, x, owner)
    case TrashDoc(owner, d, _) => !Has(t, d, owner)
    case RestoreDoc(owner, d, into) =>
      !Has(t, d, owner) || (t.docs[d].trashed && into.Some? && !Owned(t, into.value, owner))
    case RemoveDoc(_) => false
  }

  ghost predicate LiveChild(t: Tables, parent: FolderId, name: string) {
    exists c :: Child(t.folders, parent, name, c) && !t.folders[c].trashed
  }

  /** The name is taken where the folder is to go: for a new one by a live folder, for one that is
      renamed or moved by any other. */
  ghost predicate Clashes(t: Tables, step: Step) {
    match step
    case Create(owner, name, parent) =>
      name != "" && (match parent
        case Some(p) => Owned(t, p, owner) && t.folders[p].kind != TRASH && LiveChild(t, p, name)
        case None => if NoRoot(t, owner) then name == "Inbox" || name == "Trash"
                     else exists root <- t.folders :: SystemFolder(t.folders, root, owner, ROOT) && LiveChild(t, root, name))
    case Rename(owner, x, name) => Plain(t, x, owner) && name != "" && NameAt(t, t.folders[x].parent, name, x)
    case Move(owner, x, dest) =>
      && Plain(t, x, owner) && Owned(t, dest, owner) && t.folders[dest].kind != TRASH && !Below(t.folders, dest, x)
      && NameAt(t, Some(dest), t.folders[x].name, x)
    case Delete(owner, x, strategy, _) =>
      && Plain(t, x, owner) && !Empty(t, x) && !Unpacks(t, step)
      && ((strategy.MoveToParent? && t.folders[x].parent.Some? && t.folders[x].parent.value in t.folders
           && t.folders[t.folders[x].parent.value].kind != TRASH)
          || (strategy.MoveToInbox? && SystemReady(t, owner, INBOX)))
    case _ => false
  }

  /** The database refuses: the name belongs to a folder in the trash, or to one that stands where a
      system folder has to go, or the document is there already. */
  ghost predicate Violates(t: Tables, step: Step) {
    match step
    case SetUp(owner) => Blocked(t, owner, INBOX) || Blocked(t, owner, TRASH)
    case Create(owner, name, parent) =>
      name != "" && (match parent
        case Some(p) => Owned(t, p, owner) && t.folders[p].kind != TRASH && HasChild(t.folders, p, name) && !LiveChild(t, p, name)
        case None => exists root <- t.folders ::
          SystemFolder(t.folders, root, owner, ROOT) && HasChild(t.folders, root, name) && !LiveChild(t, root, name))
    case Delete(owner, x, strategy, _) =>
      && Plain(t, x, owner) && !Empty(t, x)
      && ((strategy.MoveToInbox? && !SystemReady(t, owner, INBOX))
          || (strategy.DeleteDocuments? && strategy.confirm && !SystemReady(t, owner, TRASH)))
    case AddDoc(owner, d, x) => Owned(t, x, owner) && d in t.docs
    case TrashDoc(owner, d, _) => Has(t, d, owner) && !t.docs[d].trashed && !SystemReady(t, owner, TRASH)
    case RestoreDoc(owner, d, into) =>
      && Has(t, d, owner) && t.docs[d].trashed && (into.Some? ==> Owned(t, into.value, owner))
      && !SystemReady(t, owner, INBOX)
    case _ => false
  }

  ghost predicate Answered(t: Tables, step: Step) {
    && (Answer(t, step) == None <==> Accepted(t, step))
    && (Answer(t, step) == Some(NotFound) <==> Misses(t, step))
    && (Answer(t, step) == Some(Conflict) <==> Clashes(t, step))
    && (Answer(t, step) == Some(Integrity) <==> Violates(t, step))
  }

  // ------------------------------------------------------------ system folders

  lemma SystemError(t: Tables, owner: OwnerId, kind: Kind)
    requires Forest(t) && kind != NORMAL && GetSystem(t, owner, kind).Err?
    ensures GetSystem(t, owner, kind) == Err(Integrity)
  {
    hide Forest, EnsureSystem, FindSystem;
    SetUpError(t, owner);
    GetSystemExactly(t, owner, kind);
    SetUpMakes(t, owner, kind);
    FoundAfterSetUp(t, owner, kind);
  }

  lemma FoundAfterSetUp(t: Tables, owner: OwnerId, kind: Kind)
    requires Forest(t) && kind != NORMAL
    ensures EnsureSystemFolders(t, owner).Ok? ==> FindSystem(EnsureSystemFolders(t, owner).value, owner, kind).Some?
  {
    hide Forest, EnsureSystemFolders;
    SetUpMakes(t, owner, kind);
  }

  lemma SetUpError(t: Tables, owner: OwnerId)
    requires Forest(t)
    ensures EnsureSystemFolders(t, owner).Err? ==> EnsureSystemFolders(t, owner) == Err(Integrity)
  {
    hide Forest, Blocked, BlockedAt, Taken;
    var t1, root := RootIsMade(t, owner);
    OnlySystem(t1, owner, ROOT, root);
    SystemIsMade(t1, owner, INBOX, root);
    var r2 := EnsureSystem(t1, owner, INBOX);
    if r2.Ok? {
      SystemBlocksNone(t1, owner, INBOX, root, TRASH);
      OnlySystem(r2.value, owner, ROOT, root);
    }
  }

  lemma SetUpAnswers(t: Tables, step: Step)
    requires Forest(t) && step.SetUp?
    ensures Answered(t, step)
  {
    hide Forest, Blocked, EnsureSystemFolders;
    SetUpExactly(t, step.owner);
    SetUpError(t, step.owner);
  }

  // ------------------------------------------------------------ folders

  lemma CreateUnderError(t: Tables, owner: OwnerId, name: string, parent: FolderId)
    requires Forest(t) && Owned(t, parent, owner)
    ensures var e := Refused(CreateUnder(t, owner, name, parent));
      && (e == None <==> !HasChild(t.folders, parent, name))
      && (e == Some(Conflict) <==> LiveChild(t, parent, name))
      && (e == Some(Integrity) <==> HasChild(t.folders, parent, name) && !LiveChild(t, parent, name))
  {
    CreateUnderExactly(t, owner, name, parent);
    forall x: FolderId | Child(t.folders, parent, name, x) ensures t.folders[x].owner == owner {
      OneChild(t, parent, name, x, x);
    }
    hide Forest;
    if x: FolderId :| NameTaken(t.folders, parent, owner, name, x, true) {
      assert Child(t.folders, parent, name, x);
    }
    if x :| Child(t.folders, parent, name, x) && !t.folders[x].trashed {
      assert NameTaken(t.folders, parent, owner, name, x, true);
    }
  }

  lemma CreateAnswers(t: Tables, step: Step)
    requires Forest(t) && step.Create?
    ensures Answered(t, step)
  {
    hide Forest, CreateUnder, LiveChild, HasChild, GetSystem;
    CreateStep(t, step);
    if step.parent.Some? {
      if Owned(t, step.parent.value, step.owner) {
        CreateUnderError(t, step.owner, step.name, step.parent.value);
      }
    } else {
      CreateAtRootAnswers(t, step);
    }
  }

  lemma CreateAtRootAnswers(t: Tables, step: Step)
    requires Forest(t) && step.Create? && step.parent.None? && (Creates(t, step) <==> Answer(t, step) == None)
    ensures Answered(t, step)
  {
    hide Forest, CreateUnder, LiveChild, HasChild, GetSystem, SystemReady;
    GetSystemExactly(t, step.owner, ROOT);
    GetSystemKeeps(t, step.owner, ROOT);
    if NoRoot(t, step.owner) {
      FreshRoot(t, step.owner);
      NoRootError(t, step.owner, step.name);
    } else {
      var root :| root in t.folders && SystemFolder(t.folders, root, step.owner, ROOT);
      forall y | SystemFolder(t.folders, y, step.owner, ROOT) ensures y == root {
        OnlySystem(t, step.owner, ROOT, y);
        OnlySystem(t, step.owner, ROOT, root);
      }
      CreateUnderError(t, step.owner, step.name, root);
    }
  }

  /** Below a new root the names that are taken belong to live folders. */
  lemma NoRootError(t: Tables, owner: OwnerId, name: string)
    requires Forest(t) && NoRoot(t, owner)
    ensures var r := GetSystem(t, owner, ROOT);
      r.Ok? && Refused(CreateUnder(r.value.0, owner, name, r.value.1)) ==
        if name == "Inbox" || name == "Trash" then Some(Conflict) else None
  {
    hide Forest, CreateUnder, GetSystem, SystemReady;
    FreshRoot(t, owner);
    GetSystemExactly(t, owner, ROOT);
    GetSystemKeeps(t, owner, ROOT);
    NoRootNoFolder(t, owner);
    var (t1, root) := GetSystem(t, owner, ROOT).value;
    CreateUnderError(t1, owner, name, root);
    if c :| Child(t1.folders, root, name, c) {
      OneChild(t1, root, name, c, c);
      assert UnderRoot(t1.folders, c, owner);
    }
  }

  lemma PathError(t: Tables, from: FolderId, segments: seq<string>)
    requires Forest(t) && from in t.folders && t.folders[from].kind != TRASH
    ensures EnsurePath(t, from, segments).Err? ==> EnsurePath(t, from, segments) == Err(Validation)
    decreases |segments|
  {
    hide Forest, EnsureChild;
    if segments != [] {
      ChildError(t, from, segments[0]);
      EnsureChildKeeps(t, from, segments[0]);
      var r := EnsureChild(t, from, segments[0]);
      if r.Ok? {
        PathError(r.value.0, r.value.1, segments[1..]);
      }
    }
  }

  lemma ChildError(t: Tables, parent: FolderId, name: string)
    requires Forest(t) && parent in t.folders && t.folders[parent].kind != TRASH
    ensures var r := EnsureChild(t, parent, name);
      && (r.Err? ==> r == Err(Validation))
      && (r.Ok? ==> r.value.1 in r.value.0.folders && r.value.0.folders[r.value.1].kind != TRASH)
  {
    if c :| Child(t.folders, parent, name, c) {
      ChildTaken(t, parent, name, c);
    } else {
      ChildCreated(t, parent, name);
    }
    hide Forest, Taken;
  }

  lemma EnsureAnswers(t: Tables, step: Step)
    requires Forest(t) && step.Ensure?
    ensures Answered(t, step)
  {
    hide Forest, EnsurePath, Passable, PathMade;
    EnsureFolderPathExactly(t, step.x, step.segments);
    if step.x in t.folders && t.folders[step.x].kind != TRASH {
      PathError(t, step.x, step.segments);
    }
  }

  lemma RenameAnswers(t: Tables, step: Step)
    requires Forest(t) && step.Rename?
    ensures Answered(t, step)
  {
    RenameExactly(t, step.owner, step.x, step.name);
    if Plain(t, step.x, step.owner) {
      NameTakenHere(t, t.folders[step.x].parent, step.owner, step.name, step.x);
    }
    hide Forest, Taken, NameAt;
  }

  lemma MoveAnswers(t: Tables, step: Step)
    requires Forest(t) && step.Move?
    ensures Answered(t, step)
  {
    MoveExactly(t, step.owner, step.x, step.dest);
    hide Forest, Taken, NameAt, Below;
  }

  lemma TrashAnswers(t: Tables, step: Step)
    requires step.Trash? || step.Restore?
    ensures Answered(t, step)
  {
    hide Forest, DescendantIds, TrashIn, RestoreIn;
  }

  // ------------------------------------------------------------ documents

  lemma DocAnswers(t: Tables, step: Step)
    requires Forest(t) && (step.AddDoc? || step.MoveDoc? || step.RemoveDoc?)
    ensures Answered(t, step)
  {
    hide Forest;
  }

  lemma TrashDocAnswers(t: Tables, step: Step)
    requires Forest(t) && step.TrashDoc?
    ensures Answered(t, step)
  {
    hide Forest, GetSystem, SystemReady;
    GetSystemExactly(t, step.owner, TRASH);
    if GetSystem(t, step.owner, TRASH).Err? {
      SystemError(t, step.owner, TRASH);
    }
  }

  lemma RestoreDocAnswers(t: Tables, step: Step)
    requires Forest(t) && step.RestoreDoc?
    ensures Answered(t, step)
  {
    hide Forest, GetSystem, SystemReady, Usable;
    GetSystemExactly(t, step.owner, INBOX);
    if GetSystem(t, step.owner, INBOX).Err? {
      SystemError(t, step.owner, INBOX);
    }
  }

  // ------------------------------------------------------------ deleting a folder

  /** Children that are plain and not above `dest` fail to move there because of a name, or because
      it is the trash folder. */
  lemma {:induction false} MoveAllError(t: Tables, owner: OwnerId, children: seq<FolderId>, dest: FolderId)
    requires Forest(t) && Owned(t, dest, owner)
    requires forall c <- children :: Plain(t, c, owner) && !Below(t.folders, dest, c)
    ensures MoveAll(t, owner, children, dest).Err? ==>
      MoveAll(t, owner, children, dest) == Err(if t.folders[dest].kind == TRASH then Validation else Conflict)
    decreases |children|
  {
    hide Forest, Below, Taken;
    if children != [] {
      var x := children[0];
      MoveExactly(t, owner, x, dest);
      MoveKeepsForest(t, owner, x, dest);
      var r := MoveFolder(t, owner, x, dest);
      if r.Ok? {
        MoveIs(t, owner, x, dest);
        forall c <- children[1..] ensures Plain(r.value, c, owner) && !Below(r.value.folders, dest, c) {
          SameBelowAfterMove(t, x, dest, c);
        }
        MoveAllError(r.value, owner, children[1..], dest);
      } else {
        assert dest !in DescendantIds(t.folders, x);
      }
    }
  }

  lemma UnpackError(t: Tables, owner: OwnerId, x: FolderId, children: seq<FolderId>, dest: FolderId, toInbox: bool)
    requires Forest(t) && Plain(t, x, owner) && Enumerates(children, ChildIds(t, x, owner))
    requires Owned(t, dest, owner) && !Below(t.folders, dest, x)
    ensures EmptyInto(t, owner, x, children, dest, toInbox).Err? ==>
      EmptyInto(t, owner, x, children, dest, toInbox) == Err(if t.folders[dest].kind == TRASH then Validation else Conflict)
  {
    ChildrenApart(t, owner, x, children);
    Within(t, owner, x);
    hide Forest;
    forall c <- children ensures Plain(t, c, owner) && !Below(t.folders, dest, c) {
      SelfBelow(t.folders, x);
      ChildBelow(t.folders, c, x);
      if n: nat :| Ancestor(t.folders, dest, n) == Some(c) {
        BelowTrans(t.folders, dest, c, x);
      }
    }
    hide Below;
    MoveAllError(t, owner, children, dest);
    hide MoveAll;
  }

  lemma BelowTrans(folders: map<FolderId, Folder>, x: FolderId, y: FolderId, z: FolderId)
    requires Below(folders, x, y) && Below(folders, y, z)
    ensures Below(folders, x, z)
  {
    var m: nat :| Ancestor(folders, x, m) == Some(y);
    var n: nat :| Ancestor(folders, y, n) == Some(z);
    AncestorAdd(folders, x, m, n);
    assert Ancestor(folders, x, m + n) == Some(z);
  }

  lemma ParentIsAbove(t: Tables, x: FolderId)
    requires Forest(t) && x in t.folders && t.folders[x].parent.Some?
    ensures !Below(t.folders, t.folders[x].parent.value, x)
  {
    var p := t.folders[x].parent.value;
    var rank :| Ranked(t.folders, rank);
    if n: nat :| Ancestor(t.folders, p, n) == Some(x) {
      RankFalls(t.folders, rank, p, n);
    }
  }

  lemma ToParentAnswers(t: Tables, step: Step)
    requires Forest(t) && Enabled(t, step) && step.Delete? && step.strategy.MoveToParent?
    requires Plain(t, step.x, step.owner) && !Empty(t, step.x)
    ensures Answered(t, step)
  {
    hide Forest, EmptyInto, Empty, DocsIn, TakesChildren, Below, SystemReady;
    ChildrenApart(t, step.owner, step.x, step.children);
    ParentIsThere(t, step.x);
    ParentIsAbove(t, step.x);
    var dest := t.folders[step.x].parent.value;
    EmptyIntoExactly(t, step.owner, step.x, step.children, dest, false);
    UnpackError(t, step.owner, step.x, step.children, dest, false);
    if t.folders[dest].kind == TRASH {
      TrashTakesNone(t, step.owner, step.x, dest);
    }
  }

  /** The trash folder takes no child, so it takes all of them only if there are none. */
  lemma TrashTakesNone(t: Tables, owner: OwnerId, x: FolderId, dest: FolderId)
    requires dest in t.folders && t.folders[dest].kind == TRASH
    ensures TakesChildren(t, owner, x, dest) <==> forall c <- t.folders :: t.folders[c].parent != Some(x)
  {
    hide Below, NameAt;
  }

  lemma ToInboxAnswers(t: Tables, step: Step)
    requires Forest(t) && Enabled(t, step) && step.Delete? && step.strategy.MoveToInbox?
    requires Plain(t, step.x, step.owner) && !Empty(t, step.x)
    ensures Answered(t, step)
  {
    hide Forest, EmptyInto, Empty, DocsIn, TakesChildren, Below, SystemReady, GetSystem, Extends;
    ChildrenApart(t, step.owner, step.x, step.children);
    GetSystemExactly(t, step.owner, INBOX);
    var r := GetSystem(t, step.owner, INBOX);
    if r.Err? {
      SystemError(t, step.owner, INBOX);
    } else {
      var (t1, inbox) := r.value;
      InboxTakes(t, t1, step.owner, step.x, inbox);
      SameChildren(t, t1, step.owner, step.x);
      EmptyIntoExactly(t1, step.owner, step.x, step.children, inbox, true);
      SystemIsNotBelow(t1, step.x, inbox, step.owner);
      UnpackError(t1, step.owner, step.x, step.children, inbox, true);
    }
  }

  lemma SystemIsNotBelow(t: Tables, x: FolderId, inbox: FolderId, owner: OwnerId)
    requires Forest(t) && Plain(t, x, owner) && SystemFolder(t.folders, inbox, owner, INBOX)
    ensures !Below(t.folders, inbox, x)
  {
    Within(t, owner, x);
    hide Forest, Below;
  }

  lemma OtherDeleteAnswers(t: Tables, step: Step)
    requires Forest(t) && Enabled(t, step) && step.Delete? && !step.strategy.MoveToParent? && !step.strategy.MoveToInbox?
    requires Plain(t, step.x, step.owner) && !Empty(t, step.x)
    ensures Answered(t, step)
  {
    hide Forest, Empty, DocsIn, SystemReady, GetSystem, DescendantIds, TrashIn;
    ChildrenApart(t, step.owner, step.x, step.children);
    GetSystemExactly(t, step.owner, TRASH);
    if GetSystem(t, step.owner, TRASH).Err? {
      SystemError(t, step.owner, TRASH);
    }
  }

  lemma DeleteAnswers(t: Tables, step: Step)
    requires Forest(t) && Enabled(t, step) && step.Delete?
    ensures Answered(t, step)
  {
    hide Forest, Empty, EmptyInto, DocsIn, SystemReady, GetSystem, DescendantIds, TrashIn, TakesChildren;
    if !Plain(t, step.x, step.owner) {
    } else if Empty(t, step.x) {
      ChildrenApart(t, step.owner, step.x, step.children);
    } else if step.strategy.MoveToParent? {
      ToParentAnswers(t, step);
    } else if step.strategy.MoveToInbox? {
      ToInboxAnswers(t, step);
    } else {
      OtherDeleteAnswers(t, step);
    }
  }

  // ------------------------------------------------------------ any call

  /** Every call succeeds exactly if it has what it needs, says "not found" exactly if something it names
      is not there for its caller, reports a conflict exactly if a name is taken where a folder is to
      go, and fails in the database exactly in the cases listed; whatever else is refused is invalid. */
  lemma AnswersExactly(t: Tables, step: Step)
    requires Forest(t) && Enabled(t, step)
    ensures Answer(t, step) == None <==> Accepted(t, step)
    ensures Answer(t, step) == Some(NotFound) <==> Misses(t, step)
    ensures Answer(t, step) == Some(Conflict) <==> Clashes(t, step)
    ensures Answer(t, step) == Some(Integrity) <==> Violates(t, step)
  {
    hide Forest, Enabled, Answer, Accepted, Misses, Clashes, Violates;
    match step
    case SetUp(_) => SetUpAnswers(t, step);
    case Create(_, _, _) => CreateAnswers(t, step);
    case Ensure(_, _) => EnsureAnswers(t, step);
    case Rename(_, _, _) => RenameAnswers(t, step);
    case Move(_, _, _) => MoveAnswers(t, step);
    case Trash(_, _, _) => TrashAnswers(t, step);
    case Restore(_, _) => TrashAnswers(t, step);
    case Delete(_, _, _, _) => DeleteAnswers(t, step);
    case AddDoc(_, _, _) => DocAnswers(t, step);
    case MoveDoc(_, _, _) => DocAnswers(t, step);
    case TrashDoc(_, _, _) => TrashDocAnswers(t, step);
    case RestoreDoc(_, _, _) => RestoreDocAnswers(t, step);
    case RemoveDoc(_) => DocAnswers(t, step);
  }
}
