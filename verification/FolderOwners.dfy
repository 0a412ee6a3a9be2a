/** A folder call acts for one owner and leaves what others have alone. */
module FolderOwners {
  import opened Wrappers
  import opened Folders
  import opened FoldersProofs
  import opened FolderPaths
  import opened FolderRights
  import opened FolderChanges
  import opened FolderChangesProofs

  lemma {:induction false} PathIsOwned(t: Tables, from: FolderId, segments: seq<string>, x: FolderId)
    requires Forest(t) && from in t.folders && OnPath(t.folders, from, segments, x)
    ensures x in t.folders && t.folders[x].owner == t.folders[from].owner
    decreases |segments|
  {
    var c :| Child(t.folders, from, segments[0], c) && (x == c || OnPath(t.folders, c, segments[1..], x));
    OneChild(t, from, segments[0], c, c);
    hide Forest;
    if x != c {
      PathIsOwned(t, c, segments[1..], x);
    }
  }

  /** A step that touches a folder acts for its owner. */
  lemma ActsForOwner(t: Tables, step: Step, x: FolderId)
    requires Forest(t) && x in t.folders
    requires Renames(t, step, x) || Moves(t, step, x) || BinsFolder(t, step, x) || RevivesFolder(t, step, x)
          || RemovesFolder(t, step, x) || (Unpacks(t, step) && t.folders[x].parent == Some(step.x))
    ensures Actor(t, step) == Some(t.folders[x].owner)
  {
    hide Forest, Below, OnPath, Passable, Empty, TakesChildren, SystemReady, NameAt;
    if step.Ensure? {
      PathIsOwned(t, step.x, step.segments, x);
    } else if Plain(t, step.x, step.owner) {
      Within(t, step.owner, step.x);
      NameTakenHere(t, t.folders[x].parent, step.owner, "", x);
    }
  }

  lemma FolderOfOther(t: Tables, t': Tables, step: Step, x: FolderId)
    requires Forest(t) && x in t.folders && FoldersAre(t, t', step) && Actor(t, step) != Some(t.folders[x].owner)
    ensures x in t'.folders && t'.folders[x] == t.folders[x]
  {
    hide Forest, Renames, Moves, BinsFolder, RevivesFolder, RemovesFolder, Unpacks, Actor, NewFolderIs;
    if Renames(t, step, x) || Moves(t, step, x) || BinsFolder(t, step, x) || RevivesFolder(t, step, x)
       || RemovesFolder(t, step, x) || (Unpacks(t, step) && step.Delete? && t.folders[x].parent == Some(step.x)) {
      ActsForOwner(t, step, x);
    }
  }

  /** A step that touches a document acts for its owner. */
  lemma ActsForHolder(t: Tables, step: Step, d: DocId)
    requires Forest(t) && d in t.docs
    requires MovesDocument(t, step, d) || DiscardsDocument(t, step, d) || BinsDocument(t, step, d) || ReturnsDocument(t, step, d)
          || RestoresDocument(t, step, d) || UnpacksDocument(t, step, d) || step == RemoveDoc(d)
    ensures Actor(t, step) == Some(t.docs[d].owner)
  {
    FilingsStand(t);
    hide Forest, Below, Empty, TakesChildren, SystemReady;
    if !step.MoveDoc? && !step.TrashDoc? && !step.RestoreDoc? && !step.RemoveDoc? {
      Within(t, step.owner, step.x);
    }
  }

  lemma DocumentOfOther(t: Tables, t': Tables, step: Step, d: DocId)
    requires Forest(t) && d in t.docs && DocumentsAre(t, t', step) && Actor(t, step) != Some(t.docs[d].owner)
    requires !Forgotten(t', t.docs[d])
    ensures d in t'.docs && t'.docs[d] == t.docs[d]
  {
    hide Forest, MovesDocument, DiscardsDocument, BinsDocument, ReturnsDocument, RestoresDocument, UnpacksDocument, Actor, Forgotten;
    if MovesDocument(t, step, d) || DiscardsDocument(t, step, d) || BinsDocument(t, step, d) || ReturnsDocument(t, step, d)
       || RestoresDocument(t, step, d) || UnpacksDocument(t, step, d) || step == RemoveDoc(d) {
      ActsForHolder(t, step, d);
    }
  }

  predicate SameFolder(t: Tables, t': Tables, x: FolderId) {
    x in t.folders && x in t'.folders && t'.folders[x] == t.folders[x]
  }

  ghost predicate FoldersKept(t: Tables, t': Tables, owner: OwnerId) {
    forall x | Owned(t, x, owner) || Owned(t', x, owner) :: SameFolder(t, t', x)
  }

  predicate SameDocument(t: Tables, t': Tables, d: DocId) {
    d in t.docs && d in t'.docs && t'.docs[d] == t.docs[d]
  }

  ghost predicate DocumentsKept(t: Tables, t': Tables, owner: OwnerId) {
    forall d | Has(t, d, owner) || Has(t', d, owner) :: SameDocument(t, t', d)
  }

  /** All that an owner has is in both tables, the same in each. */
  ghost predicate SameFor(t: Tables, t': Tables, owner: OwnerId) {
    FoldersKept(t, t', owner) && DocumentsKept(t, t', owner)
  }

  /** A step acts for one owner: it neither changes, adds nor removes anything of another. */
  lemma OthersUntouched(t: Tables, step: Step, owner: OwnerId)
    requires Forest(t) && Enabled(t, step) && Actor(t, step) != Some(owner)
    ensures SameFor(t, Apply(t, step), owner)
  {
    hide FoldersAre, DocumentsAre, FoldersKept, DocumentsKept, Forest, Enabled, Actor, Apply;
    StepChangesExactly(t, step);
    FoldersOfOthers(t, Apply(t, step), step, owner);
    DocumentsOfOthers(t, Apply(t, step), step, owner);
  }

  lemma FoldersOfOthers(t: Tables, t': Tables, step: Step, owner: OwnerId)
    requires Forest(t) && FoldersAre(t, t', step) && Actor(t, step) != Some(owner)
    ensures FoldersKept(t, t', owner)
  {
    hide Forest, FoldersAre, Actor;
    forall x | Owned(t, x, owner) ensures Owned(t', x, owner) && t'.folders[x] == t.folders[x] {
      FolderOfOther(t, t', step, x);
    }
    forall x | Owned(t', x, owner) ensures Owned(t, x, owner) {
      NewForActor(t, t', step, x);
    }
  }

  lemma DocumentsOfOthers(t: Tables, t': Tables, step: Step, owner: OwnerId)
    requires Forest(t) && FoldersKept(t, t', owner) && DocumentsAre(t, t', step) && Actor(t, step) != Some(owner)
    ensures DocumentsKept(t, t', owner)
  {
    FilingsStand(t);
    hide Forest, DocumentsAre, Actor;
    forall d | Has(t, d, owner) ensures Has(t', d, owner) && t'.docs[d] == t.docs[d] {
      assert t.docs[d].trashedFrom.Some? ==> Owned(t, t.docs[d].trashedFrom.value, owner);
      DocumentOfOther(t, t', step, d);
    }
    forall d | Has(t', d, owner) ensures Has(t, d, owner) {
      HeldForActor(t, t', step, d);
    }
  }

  lemma NewForActor(t: Tables, t': Tables, step: Step, x: FolderId)
    requires FoldersAre(t, t', step) && x in t'.folders
    ensures if x in t.folders then t.folders[x].owner == t'.folders[x].owner else Actor(t, step) == Some(t'.folders[x].owner)
  {
    hide HasChild, Passable, OnPath, RemovesFolder, Renames, Moves, BinsFolder, RevivesFolder, Unpacks;
  }

  lemma HeldForActor(t: Tables, t': Tables, step: Step, d: DocId)
    requires DocumentsAre(t, t', step) && d in t'.docs
    ensures if d in t.docs then t.docs[d].owner == t'.docs[d].owner else Actor(t, step) == Some(t'.docs[d].owner)
  {
    hide DocumentLies, DiscardsDocument, BinsDocument, ReturnsDocument, RestoresDocument;
  }

  /** Over any stretch of a run in which no step acts for an owner, all that is the owner's stays the same. */
  lemma {:induction false} RunLeavesOthers(states: seq<Tables>, steps: seq<Step>, m: nat, n: nat, owner: OwnerId)
    requires IsRun(states, steps) && m <= n < |states|
    requires forall i | m <= i < n :: Actor(states[i], steps[i]) != Some(owner)
    ensures SameFor(states[m], states[n], owner)
    decreases n
  {
    hide Forest, Apply, Enabled, Actor, SameFor;
    if m == n {
      SameSelf(states[m], owner);
    } else {
      RunLeavesOthers(states, steps, m, n - 1, owner);
      RunKeepsForest(states, steps, n - 1);
      OthersUntouched(states[n - 1], steps[n - 1], owner);
      SameOn(states[m], states[n - 1], states[n], owner);
    }
  }

  lemma SameSelf(t: Tables, owner: OwnerId)
    ensures SameFor(t, t, owner)
  {
  }

  lemma SameOn(t: Tables, t1: Tables, t2: Tables, owner: OwnerId)
    requires SameFor(t, t1, owner) && SameFor(t1, t2, owner)
    ensures SameFor(t, t2, owner)
  {
    forall x | Owned(t, x, owner) || Owned(t2, x, owner) ensures SameFolder(t, t2, x) {
      assert Owned(t1, x, owner) ==> SameFolder(t, t1, x) && SameFolder(t1, t2, x);
      assert Owned(t2, x, owner) ==> SameFolder(t1, t2, x);
    }
    forall d | Has(t, d, owner) || Has(t2, d, owner) ensures SameDocument(t, t2, d) {
      assert Has(t1, d, owner) ==> SameDocument(t, t1, d) && SameDocument(t1, t2, d);
      assert Has(t2, d, owner) ==> SameDocument(t1, t2, d);
    }
  }
}
