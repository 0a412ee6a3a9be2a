/** Short runs at which folder calls do not do what they are for. */
module FoldersWitnesses {
  import opened Wrappers
  import opened Folders
  import opened FoldersProofs

  /** The folders of owner 0 after the first call. */
  function SetUpTables(): Tables {
    Tables(
      map[0 := Folder(SystemName(ROOT), None, 0, ROOT, false, None),
          1 := Folder(SystemName(INBOX), Some(0), 0, INBOX, false, None),
          2 := Folder(SystemName(TRASH), Some(0), 0, TRASH, false, None)],
      map[], 3)
  }

  lemma FoundSystem(t: Tables, kind: Kind, x: FolderId)
    requires SystemFolder(t.folders, x, 0, kind) && forall y | SystemFolder(t.folders, y, 0, kind) :: y == x
    ensures FindSystem(t, 0, kind) == Some(x)
  {
  }

  lemma SetUpIs()
    ensures EnsureSystemFolders(EMPTY, 0) == Ok(SetUpTables())
  {
    var root := Folder(SystemName(ROOT), None, 0, ROOT, false, None);
    var inbox := Folder(SystemName(INBOX), Some(0), 0, INBOX, false, None);
    var t1 := Tables(map[0 := root], map[], 1);
    var t2 := Tables(map[0 := root, 1 := inbox], map[], 2);
    assert EnsureSystem(EMPTY, 0, ROOT) == Ok(t1);
    FoundSystem(t1, ROOT, 0);
    assert EnsureSystem(t1, 0, INBOX) == Ok(t2);
    FoundSystem(t2, ROOT, 0);
    assert EnsureSystem(t2, 0, TRASH) == Ok(SetUpTables());
  }

  /** A new name below a given folder is taken in under the next id. */
  lemma CreateIs(t: Tables, name: string, parent: FolderId)
    requires name != "" && Owned(t, parent, 0) && t.folders[parent].kind != TRASH
    requires forall x <- t.folders :: t.folders[x].name != name
    ensures Apply(t, Create(0, name, Some(parent))) == Insert(t, Folder(name, Some(parent), 0, NORMAL, false, None))
  {
  }

  /** The root with the folder "a" below it, as number 3. */
  function OneFolder(): Tables {
    Insert(SetUpTables(), Folder("a", Some(0), 0, NORMAL, false, None))
  }

  lemma FirstSteps()
    ensures Apply(EMPTY, SetUp(0)) == SetUpTables()
    ensures Apply(SetUpTables(), Create(0, "a", Some(0))) == OneFolder()
  {
    SetUpIs();
    hide EnsureSystemFolders;
    CreateIs(SetUpTables(), "a", 0);
  }

  lemma TopTrashed(t: Tables, x: FolderId)
    requires Owned(t, x, 0) && t.folders[x].kind == NORMAL && !t.folders[x].trashed && t.docs == map[]
    ensures var after := Apply(t, Trash(0, x, 0));
      && after.folders.Keys == t.folders.Keys && after.docs == map[] && after.nextId == t.nextId
      && after.folders[x].trashed
      && forall y <- t.folders :: SameButTrash(t.folders[y], after.folders[y])
  {
    assert Ancestor(t.folders, x, 0) == Some(x) && Below(t.folders, x, x);
    assert x in DescendantIds(t.folders, x);
  }

  predicate SameButTrash(before: Folder, after: Folder) {
    after == before.(trashed := after.trashed, trashedAt := after.trashedAt)
  }

  lemma ChildBelow(t: Tables, child: FolderId, parent: FolderId)
    requires child in t.folders && t.folders[child].parent == Some(parent)
    ensures child in DescendantIds(t.folders, parent)
  {
    assert Ancestor(t.folders, parent, 0) == Some(parent);
    assert Ancestor(t.folders, child, 1) == Some(parent);
  }

  /** Four steps from the empty tables, given where each leads. */
  lemma FourSteps(steps: seq<Step>, t1: Tables, t2: Tables, t3: Tables, t4: Tables) returns (states: seq<Tables>)
    requires |steps| == 4 && forall i | 0 <= i < 4 :: !steps[i].Delete?
    requires Apply(EMPTY, steps[0]) == t1 && Apply(t1, steps[1]) == t2
    requires Apply(t2, steps[2]) == t3 && Apply(t3, steps[3]) == t4
    ensures IsRun(states, steps) && states[4] == t4 && Forest(t4)
  {
    hide Apply, Forest;
    states := [EMPTY, t1, t2, t3, t4];
    RunKeepsForest(states, steps, 4);
  }

  /** Create "a", put it into the trash, create "b" below it: permanently deleting "a" then leaves "b"
      without a root. */
  lemma PurgeLosesRoot() returns (states: seq<Tables>, steps: seq<Step>)
    ensures IsRun(states, steps)
    ensures var t := states[|steps|];
      Forest(t) && PurgeSubtree(t, 0, 3).Ok? && !Forest(PurgeSubtree(t, 0, 3).value)
  {
    hide Forest, Apply, PurgeSubtree, DescendantIds, IsRun;
    FirstSteps();
    TopTrashed(OneFolder(), 3);
    var binned := Apply(OneFolder(), Trash(0, 3, 0));
    CreateIs(binned, "b", 3);
    var t := Insert(binned, Folder("b", Some(3), 0, NORMAL, false, None));
    steps := [SetUp(0), Create(0, "a", Some(0)), Trash(0, 3, 0), Create(0, "b", Some(3))];
    states := FourSteps(steps, SetUpTables(), OneFolder(), binned, t);
    ChildBelow(t, 4, 3);
    TopBelow(t, 3);
    EmptyPurges(t, 3);
    LiveChildDetaches(t, 0, 3, 4);
  }

  lemma TopBelow(t: Tables, x: FolderId)
    requires x in t.folders
    ensures x in DescendantIds(t.folders, x)
  {
    SelfBelow(t.folders, x);
  }

  lemma EmptyPurges(t: Tables, x: FolderId)
    requires Owned(t, x, 0) && t.folders[x].kind == NORMAL && t.folders[x].trashed && t.docs == map[]
    ensures PurgeSubtree(t, 0, x).Ok?
  {
  }

  /** "a" with "b" below it, as numbers 3 and 4. */
  function TwoFolders(): Tables {
    Insert(OneFolder(), Folder("b", Some(3), 0, NORMAL, false, None))
  }

  lemma NotBelowItsChild()
    ensures 3 !in DescendantIds(TwoFolders().folders, 4)
  {
    var f := TwoFolders().folders;
    forall n: nat ensures Ancestor(f, 3, n) != Some(4) {
      if n > 1 {
        assert Ancestor(f, 3, n) == Ancestor(f, 0, n - 1) == None;
      }
    }
  }

  lemma ChildTrashed()
    ensures var after := Apply(TwoFolders(), Trash(0, 4, 0)); after.folders[3] == TwoFolders().folders[3]
  {
    NotBelowItsChild();
    hide DescendantIds;
  }

  /** Put "b" into the trash, then "a" above it: restoring "a" brings "b" back as well. */
  lemma RestoreRevivesMore() returns (states: seq<Tables>, steps: seq<Step>)
    ensures IsRun(states, steps)
    ensures var t := states[|steps|];
      && Owned(t, 3, 0) && !t.folders[3].trashed && TrashFolder(t, 0, 3, 1).Ok?
      && RestoreFolder(TrashFolder(t, 0, 3, 1).value, 0, 3).Ok?
      && RestoreFolder(TrashFolder(t, 0, 3, 1).value, 0, 3).value != t
  {
    hide Forest, Apply, DescendantIds, TrashFolder, RestoreFolder, IsRun;
    FirstSteps();
    CreateIs(OneFolder(), "b", 3);
    TopTrashed(TwoFolders(), 4);
    ChildTrashed();
    var t := Apply(TwoFolders(), Trash(0, 4, 0));
    steps := [SetUp(0), Create(0, "a", Some(0)), Create(0, "b", Some(3)), Trash(0, 4, 0)];
    states := FourSteps(steps, SetUpTables(), OneFolder(), TwoFolders(), t);
    ChildBelow(t, 4, 3);
    RestoreUndoesTrash(t, 0, 3, 1);
  }
}
