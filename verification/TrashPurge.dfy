/** `purge_expired_trash` and `empty_trash`: documents first, then folders in leaf-first passes. */
module TrashPurge {
  import opened Wrappers
  import opened Folders
  import opened FoldersProofs
  import opened FolderService

  /** An expired folder that holds no document. */
  ghost predicate Clear(t: Tables, expired: set<FolderId>, y: FolderId) {
    y in expired && forall d <- t.docs :: t.docs[d].folder != y
  }

  /** The folders whose whole subtree is expired and free of documents. */
  ghost function Deletable(t: Tables, expired: set<FolderId>): set<FolderId> {
    set x | x in t.folders && forall y <- DescendantIds(t.folders, x) :: Clear(t, expired, y)
  }

  predicate ScopedTo(owner: Option<OwnerId>, actual: OwnerId) {
    owner.None? || owner.value == actual
  }

  predicate ExpiredFolder(f: Folder, owner: Option<OwnerId>, cutoff: Option<Time>) {
    f.trashed && f.kind == NORMAL && ScopedTo(owner, f.owner)
    && (cutoff.None? || (f.trashedAt.Some? && f.trashedAt.value < cutoff.value))
  }

  predicate ExpiredDocument(d: Document, owner: Option<OwnerId>, cutoff: Option<Time>) {
    d.trashed && ScopedTo(owner, d.owner) && (cutoff.None? || (d.trashedAt.Some? && d.trashedAt.value < cutoff.value))
  }

  function ExpiredFolders(t: Tables, owner: Option<OwnerId>, cutoff: Option<Time>): set<FolderId> {
    set x | x in t.folders && ExpiredFolder(t.folders[x], owner, cutoff)
  }

  function WithoutExpiredDocs(t: Tables, owner: Option<OwnerId>, cutoff: Option<Time>): Tables {
    t.(docs := map d | d in t.docs && !ExpiredDocument(t.docs[d], owner, cutoff) :: t.docs[d])
  }

  // ------------------------------------------------------------ the fixpoint

  /** The way up from `y` to `x` ends with a child of `x`. */
  lemma LastStep(folders: map<FolderId, Folder>, y: FolderId, x: FolderId, n: nat) returns (c: FolderId)
    requires n > 0 && Ancestor(folders, y, n) == Some(x)
    ensures c in folders && folders[c].parent == Some(x) && Ancestor(folders, y, n - 1) == Some(c)
    decreases n
  {
    if n == 1 {
      c := y;
    } else {
      c := LastStep(folders, folders[y].parent.value, x, n - 1);
    }
  }

  /** A clear folder whose children are all deletable is deletable. */
  lemma ClearOverDeletable(t: Tables, expired: set<FolderId>, x: FolderId, gone: set<FolderId>)
    requires x in t.folders && Clear(t, expired, x) && gone <= Deletable(t, expired)
    requires forall c <- t.folders :: t.folders[c].parent == Some(x) ==> c in gone
    ensures x in Deletable(t, expired)
  {
    forall y <- DescendantIds(t.folders, x) ensures Clear(t, expired, y) {
      var n: nat :| Ancestor(t.folders, y, n) == Some(x);
      if n > 0 {
        var c := LastStep(t.folders, y, x, n);
        assert c in Deletable(t, expired) && Below(t.folders, y, c);
      }
    }
  }

  lemma ChildOfDeletable(t: Tables, expired: set<FolderId>, x: FolderId, c: FolderId)
    requires x in Deletable(t, expired) && c in t.folders && t.folders[c].parent == Some(x)
    ensures c in Deletable(t, expired)
  {
    forall y <- DescendantIds(t.folders, c) ensures Clear(t, expired, y) {
      var n: nat :| Ancestor(t.folders, y, n) == Some(c);
      AncestorAdd(t.folders, y, n, 1);
      assert Ancestor(t.folders, c, 1) == Some(x);
      assert Below(t.folders, y, x);
    }
  }

  /** Nothing that the passes could still take is left: every remaining expired folder holds a
      document or a child that is still there. */
  ghost predicate Stuck(t: Tables, expired: set<FolderId>, gone: set<FolderId>) {
    forall x <- expired - gone | x in t.folders ::
      (exists d <- t.docs :: t.docs[d].folder == x) || (exists c <- t.folders :: t.folders[c].parent == Some(x) && c !in gone)
  }

  lemma {:induction false} RankBound(rank: map<FolderId, nat>, ids: set<FolderId>) returns (bound: nat)
    requires ids <= rank.Keys
    ensures forall x <- ids :: rank[x] <= bound
    decreases ids
  {
    if ids == {} {
      bound := 0;
    } else {
      var x :| x in ids;
      bound := RankBound(rank, ids - {x});
      if rank[x] > bound {
        bound := rank[x];
      }
    }
  }

  lemma {:induction false} NoneLeft(t: Tables, expired: set<FolderId>, gone: set<FolderId>, rank: map<FolderId, nat>, bound: nat, x: FolderId)
    requires Ranked(t.folders, rank) && (forall y <- t.folders :: rank[y] <= bound)
    requires Stuck(t, expired, gone) && x in Deletable(t, expired)
    ensures x in gone
    decreases bound - rank[x]
  {
    SelfBelow(t.folders, x);
    assert Clear(t, expired, x);
    if x !in gone {
      var c :| c in t.folders && t.folders[c].parent == Some(x) && c !in gone;
      ChildOfDeletable(t, expired, x, c);
      NoneLeft(t, expired, gone, rank, bound, c);
    }
  }

  lemma StuckMeansDone(t: Tables, expired: set<FolderId>, gone: set<FolderId>)
    requires Acyclic(t.folders) && Stuck(t, expired, gone) && gone <= Deletable(t, expired)
    ensures gone == Deletable(t, expired)
  {
    var rank :| Ranked(t.folders, rank);
    var bound := RankBound(rank, t.folders.Keys);
    forall x <- Deletable(t, expired) ensures x in gone {
      NoneLeft(t, expired, gone, rank, bound, x);
    }
  }

  /** The purge takes whole subtrees only, so what is left is still a forest. */
  lemma PurgedForest(t: Tables, expired: set<FolderId>)
    requires Forest(t)
    ensures Forest(RemoveFolders(t, Deletable(t, expired)))
  {
    forall y <- t.folders | y !in Deletable(t, expired)
      ensures !(t.folders[y].parent.Some? && t.folders[y].parent.value in Deletable(t, expired))
    {
      if t.folders[y].parent.Some? && t.folders[y].parent.value in Deletable(t, expired) {
        ChildOfDeletable(t, expired, t.folders[y].parent.value, y);
      }
    }
    forall d <- t.docs ensures t.docs[d].folder !in Deletable(t, expired) {
      SelfBelow(t.folders, t.docs[d].folder);
      assert !Clear(t, expired, t.docs[d].folder);
    }
    RemoveKeepsForest(t, Deletable(t, expired));
  }

  // ------------------------------------------------------------ the passes

  /** Midway: `gone` has been deleted from the tables `t`, and the rest of the expired folders are
      still to be looked at. */
  ghost predicate Purging(t: Tables, now: Tables, expired: set<FolderId>, gone: set<FolderId>) {
    && now == RemoveFolders(t, gone)
    && gone <= Deletable(t, expired)
  }

  /** Every folder goes after all of its children. */
  ghost predicate LeafFirst(t: Tables, order: seq<FolderId>) {
    forall i | 0 <= i < |order| :: forall c <- t.folders :: t.folders[c].parent == Some(order[i]) ==> c in order[..i]
  }

  function Gone(order: seq<FolderId>): set<FolderId> {
    set x | x in order
  }

  lemma RemoveTwice(t: Tables, a: set<FolderId>, b: set<FolderId>)
    ensures RemoveFolders(RemoveFolders(t, a), b) == RemoveFolders(t, a + b)
  {
  }

  lemma SameNumber(docs: map<DocId, Document>, ids: set<FolderId>)
    ensures |ForgetIn(docs, ids)| == |docs|
  {
    assert ForgetIn(docs, ids).Keys == docs.Keys;
    assert |docs| == |docs.Keys| && |ForgetIn(docs, ids)| == |ForgetIn(docs, ids).Keys|;
  }

  lemma RemoveNone(t: Tables)
    ensures RemoveFolders(t, {}) == t
  {
  }

  lemma DeleteOne(t: Tables, now: Tables, expired: set<FolderId>, order: seq<FolderId>, x: FolderId)
    requires Purging(t, now, expired, Gone(order)) && LeafFirst(t, order)
    requires x in expired && x in t.folders && x !in Gone(order)
    requires forall c <- now.folders :: now.folders[c].parent != Some(x)
    requires forall d <- now.docs :: now.docs[d].folder != x
    ensures Purging(t, RemoveFolders(now, {x}), expired, Gone(order + [x])) && LeafFirst(t, order + [x])
  {
    forall c <- t.folders | t.folders[c].parent == Some(x) ensures c in Gone(order) {
      assert c in now.folders || c in Gone(order);
    }
    forall d <- t.docs ensures t.docs[d].folder != x {
      assert now.docs[d].folder == t.docs[d].folder;
    }
    ClearOverDeletable(t, expired, x, Gone(order));
    assert Gone(order + [x]) == Gone(order) + {x};
    RemoveTwice(t, Gone(order), {x});
    forall i | 0 <= i < |order + [x]|
      ensures forall c <- t.folders :: t.folders[c].parent == Some((order + [x])[i]) ==> c in (order + [x])[..i]
    {
      if i < |order| {
        assert (order + [x])[..i] == order[..i];
      } else {
        assert (order + [x])[..i] == order;
      }
    }
  }

  /** A folder goes if it has neither children nor documents at the moment. */
  method DropIfEmpty(table: FolderTable, ghost t: Tables, ghost expired: set<FolderId>, ghost order: seq<FolderId>, x: FolderId)
    returns (dropped: bool)
    requires Purging(t, table.View(), expired, Gone(order)) && LeafFirst(t, order)
    requires x in expired - Gone(order) && x in t.folders
    modifies table`folders, table`docs
    ensures dropped ==> Purging(t, table.View(), expired, Gone(order + [x])) && LeafFirst(t, order + [x])
    ensures !dropped ==> table.View() == old(table.View()) && Held(t, Gone(order), x)
  {
    hide Purging, LeafFirst, Held, ForgetIn;
    var children := set c | c in table.folders && table.folders[c].parent == Some(x);
    var contents := set d | d in table.docs && table.docs[d].folder == x;
    if children != {} || contents != {} {
      HeldNow(t, table.View(), expired, Gone(order), x, children, contents);
      return false;
    }
    assert forall c <- table.folders :: c in children || table.folders[c].parent != Some(x);
    assert forall d <- table.docs :: d in contents || table.docs[d].folder != x;
    DeleteOne(t, table.View(), expired, order, x);
    table.folders, table.docs := table.folders - {x}, ForgetIn(table.docs, {x});
    return true;
  }

  /** One pass: try every remaining folder once, in order. A folder that goes makes its parent a
      leaf for the rest of the pass. */
  method OnePass(table: FolderTable, ghost t: Tables, ghost expired: set<FolderId>, remaining: seq<FolderId>, ghost order: seq<FolderId>)
    returns (left: seq<FolderId>, ghost order': seq<FolderId>)
    requires Purging(t, table.View(), expired, Gone(order)) && LeafFirst(t, order)
    requires forall x :: x in remaining <==> x in expired - Gone(order)
    requires forall i, j | 0 <= i < j < |remaining| :: remaining[i] != remaining[j]
    requires expired <= t.folders.Keys
    modifies table`folders, table`docs
    ensures Purging(t, table.View(), expired, Gone(order')) && LeafFirst(t, order')
    ensures forall x :: x in left <==> x in expired - Gone(order')
    ensures forall i, j | 0 <= i < j < |left| :: left[i] != left[j]
    ensures |left| + |order'| == |remaining| + |order| && |left| <= |remaining|
    ensures |left| == |remaining| ==> Stuck(t, expired, Gone(order'))
  {
    hide Purging, LeafFirst, Held, ForgetIn, Stuck;
    left, order' := [], order;
    for i := 0 to |remaining|
      invariant Purging(t, table.View(), expired, Gone(order')) && LeafFirst(t, order')
      invariant forall x :: x in left || x in remaining[i..] <==> x in expired - Gone(order')
      invariant forall x <- left :: x !in remaining[i..]
      invariant forall a, b | 0 <= a < b < |left| :: left[a] != left[b]
      invariant |left| + |order'| == i + |order| && |left| <= i
      invariant order <= order'
      invariant |left| == i ==> order' == order && forall x <- left :: Held(t, Gone(order), x)
    {
      var x := remaining[i];
      assert x in remaining[i..];
      assert forall y :: y in remaining[i..] <==> y == x || y in remaining[i + 1..];
      var dropped := DropIfEmpty(table, t, expired, order', x);
      if dropped {
        assert x !in remaining[i + 1..] && x !in left;
        assert Gone(order' + [x]) == Gone(order') + {x};
        assert forall y :: y in expired - Gone(order' + [x]) <==> y in expired - Gone(order') && y != x;
        order' := order' + [x];
      } else {
        left := left + [x];
      }
    }
    assert remaining[|remaining|..] == [];
    if |left| == |remaining| {
      AllHeld(t, expired, left, Gone(order'));
    }
  }

  lemma AllHeld(t: Tables, expired: set<FolderId>, left: seq<FolderId>, gone: set<FolderId>)
    requires forall x <- left :: Held(t, gone, x)
    requires forall x <- expired - gone :: x in left
    ensures Stuck(t, expired, gone)
  {
  }

  /** A folder that a pass has to leave for later. */
  ghost predicate Held(t: Tables, gone: set<FolderId>, x: FolderId) {
    (exists d <- t.docs :: t.docs[d].folder == x) || (exists c <- t.folders :: t.folders[c].parent == Some(x) && c !in gone)
  }

  lemma HeldNow(t: Tables, now: Tables, expired: set<FolderId>, gone: set<FolderId>, x: FolderId, children: set<FolderId>,
                contents: set<DocId>)
    requires Purging(t, now, expired, gone)
    requires forall c <- children :: c in now.folders && now.folders[c].parent == Some(x)
    requires forall d <- contents :: d in now.docs && now.docs[d].folder == x
    requires children != {} || contents != {}
    ensures Held(t, gone, x)
  {
    if children != {} {
      var c :| c in children;
      assert c in t.folders && t.folders[c].parent == Some(x) && c !in gone;
    } else {
      var d :| d in contents;
    }
  }

  /** The passes over the expired folders. Exactly the deletable ones go, every folder after its
      children, and len + 1 passes always suffice. */
  method PurgeFolders(table: FolderTable, expired: seq<FolderId>) returns (deleted: nat, ghost order: seq<FolderId>)
    requires table.Valid()
    requires forall x <- expired :: x in table.folders
    requires forall i, j | 0 <= i < j < |expired| :: expired[i] != expired[j]
    modifies table`folders, table`docs
    ensures table.View() == RemoveFolders(old(table.View()), Deletable(old(table.View()), Gone(expired)))
    ensures table.Valid()
    ensures LeafFirst(old(table.View()), order) && Gone(order) == Deletable(old(table.View()), Gone(expired))
    ensures deleted == |order|
  {
    ghost var t, goal := table.View(), Gone(expired);
    order := [];
    var remaining := expired;
    var n := |expired|;
    var pass := 0;
    ghost var done := false;
    assert Gone([]) == {};
    RemoveNone(t);
    while pass < n + 1
      invariant 0 <= pass <= n + 1
      invariant Purging(t, table.View(), goal, Gone(order)) && LeafFirst(t, order)
      invariant forall x :: x in remaining <==> x in goal - Gone(order)
      invariant forall i, j | 0 <= i < j < |remaining| :: remaining[i] != remaining[j]
      invariant |remaining| + |order| == n && |remaining| <= n - pass
      decreases n + 1 - pass
    {
      if remaining == [] {
        break;
      }
      var left;
      left, order := OnePass(table, t, goal, remaining, order);
      if |left| == |remaining| {
        done := true;
        remaining := left;
        break;
      }
      remaining := left;
      pass := pass + 1;
    }
    if !done {
      assert remaining == [];
      assert forall x <- goal - Gone(order) :: x in remaining;
    }
    assert Stuck(t, goal, Gone(order));
    StuckMeansDone(t, goal, Gone(order));
    PurgedForest(t, goal);
    deleted := n - |remaining|;
  }

  function ExpiredDocs(t: Tables, owner: Option<OwnerId>, cutoff: Option<Time>): set<DocId> {
    set d | d in t.docs && ExpiredDocument(t.docs[d], owner, cutoff)
  }

  /** The expired documents, one by one. */
  method PurgeDocuments(table: FolderTable, owner: Option<OwnerId>, cutoff: Option<Time>) returns (deleted: nat)
    requires table.Valid()
    modifies table`docs
    ensures table.View() == WithoutExpiredDocs(old(table.View()), owner, cutoff) && table.Valid()
    ensures deleted == |old(table.docs)| - |table.docs|
  {
    hide Forest, ExpiredDocs, WithoutExpiredDocs;
    ghost var t := table.View();
    var expired := ExpiredDocs(Tables(table.folders, table.docs, table.nextId), owner, cutoff);
    deleted := 0;
    var rest := expired;
    WithoutDocs(t, owner, cutoff);
    while rest != {}
      invariant rest <= expired
      invariant table.docs == t.docs - (expired - rest)
      invariant deleted == |expired| - |rest|
      decreases rest
    {
      var d :| d in rest;
      DropOneDoc(t.docs, expired, rest, d);
      table.docs := table.docs - {d};
      rest := rest - {d};
      deleted := deleted + 1;
    }
    assert expired - rest == expired;
  }

  lemma WithoutDocs(t: Tables, owner: Option<OwnerId>, cutoff: Option<Time>)
    requires Forest(t)
    ensures var expired := ExpiredDocs(t, owner, cutoff);
      && WithoutExpiredDocs(t, owner, cutoff) == t.(docs := t.docs - expired)
      && |t.docs - expired| == |t.docs| - |expired|
    ensures Forest(WithoutExpiredDocs(t, owner, cutoff))
  {
    hide Forest, ExpiredDocs, WithoutExpiredDocs;
    var expired := ExpiredDocs(t, owner, cutoff);
    WithoutAre(t, owner, cutoff);
    KeysFall(t.docs, expired);
    FewerDocsForest(t, expired);
  }

  lemma WithoutAre(t: Tables, owner: Option<OwnerId>, cutoff: Option<Time>)
    ensures ExpiredDocs(t, owner, cutoff) <= t.docs.Keys
    ensures WithoutExpiredDocs(t, owner, cutoff) == t.(docs := t.docs - ExpiredDocs(t, owner, cutoff))
  {
  }

  lemma FewerDocsForest(t: Tables, gone: set<DocId>)
    requires Forest(t)
    ensures Forest(t.(docs := t.docs - gone))
  {
    hide Acyclic, AllPlaced, NamesDiffer, SystemsUnique;
    SameTreeForest(t, t.(docs := t.docs - gone));
  }

  lemma DropOneDoc(docs: map<DocId, Document>, expired: set<DocId>, rest: set<DocId>, d: DocId)
    requires d in rest && rest <= expired
    ensures docs - (expired - rest) - {d} == docs - (expired - (rest - {d}))
    ensures |rest - {d}| == |rest| - 1
  {
  }

  /** In the trash, since before the cutoff if there is one, and of the owner if one is given. */
  predicate Due(trashed: bool, since: Option<Time>, holder: OwnerId, owner: Option<OwnerId>, cutoff: Option<Time>) {
    && trashed && (owner.Some? ==> holder == owner.value)
    && (cutoff.Some? ==> since.Some? && since.value < cutoff.value)
  }

  predicate DueDocument(doc: Document, owner: Option<OwnerId>, cutoff: Option<Time>) {
    Due(doc.trashed, doc.trashedAt, doc.owner, owner, cutoff)
  }

  predicate DueFolder(f: Folder, owner: Option<OwnerId>, cutoff: Option<Time>) {
    f.kind == NORMAL && Due(f.trashed, f.trashedAt, f.owner, owner, cutoff)
  }

  /** All folders from `x` down are due, and so is every document in them. */
  ghost predicate AllDue(t: Tables, x: FolderId, owner: Option<OwnerId>, cutoff: Option<Time>) {
    && (forall y <- t.folders | Below(t.folders, y, x) :: DueFolder(t.folders[y], owner, cutoff))
    && (forall d <- t.docs | Below(t.folders, t.docs[d].folder, x) :: DueDocument(t.docs[d], owner, cutoff))
  }

  /** What a purge leaves of the tables: of the documents, those that are not due; of the folders, those
      from which something down is not due. Nothing else about them changes, except that a document
      forgets a folder that is gone. */
  ghost predicate PurgedExactly(t: Tables, t': Tables, owner: Option<OwnerId>, cutoff: Option<Time>) {
    && (forall d :: d in t'.docs <==> d in t.docs && !DueDocument(t.docs[d], owner, cutoff))
    && (forall x :: x in t'.folders <==> x in t.folders && !AllDue(t, x, owner, cutoff))
    && (forall x <- t'.folders :: t'.folders[x] == t.folders[x])
    && (forall d <- t'.docs :: t'.docs[d] ==
          if t.docs[d].trashedFrom.Some? && t.docs[d].trashedFrom.value !in t'.folders
          then t.docs[d].(trashedFrom := None) else t.docs[d])
  }

  lemma DueFolders(t: Tables, owner: Option<OwnerId>, cutoff: Option<Time>)
    ensures forall y :: y in ExpiredFolders(t, owner, cutoff) <==> y in t.folders && DueFolder(t.folders[y], owner, cutoff)
  {
  }

  lemma KeptDocs(t: Tables, owner: Option<OwnerId>, cutoff: Option<Time>)
    ensures var kept := WithoutExpiredDocs(t, owner, cutoff);
      && kept.folders == t.folders && (forall d :: d in kept.docs <==> d in t.docs && !DueDocument(t.docs[d], owner, cutoff))
      && forall d <- kept.docs :: kept.docs[d] == t.docs[d]
  {
  }

  lemma FoldersThere(t: Tables)
    requires Forest(t)
    ensures forall d <- t.docs :: t.docs[d].folder in t.folders
  {
  }

  lemma ClearIsDue(t: Tables, kept: Tables, expired: set<FolderId>, y: FolderId, owner: Option<OwnerId>, cutoff: Option<Time>)
    requires forall d :: d in kept.docs <==> d in t.docs && !DueDocument(t.docs[d], owner, cutoff)
    requires forall d <- kept.docs :: kept.docs[d] == t.docs[d]
    requires y in t.folders && (y in expired <==> DueFolder(t.folders[y], owner, cutoff))
    ensures Clear(kept, expired, y) <==>
              DueFolder(t.folders[y], owner, cutoff) && forall d <- t.docs | t.docs[d].folder == y :: DueDocument(t.docs[d], owner, cutoff)
  {
    hide DueDocument, DueFolder;
  }

  lemma DeletableIsDue(t: Tables, x: FolderId, owner: Option<OwnerId>, cutoff: Option<Time>)
    requires Forest(t) && x in t.folders
    ensures x in Deletable(WithoutExpiredDocs(t, owner, cutoff), ExpiredFolders(t, owner, cutoff)) <==> AllDue(t, x, owner, cutoff)
  {
    var kept, expired := WithoutExpiredDocs(t, owner, cutoff), ExpiredFolders(t, owner, cutoff);
    FoldersThere(t);
    hide Forest, ExpiredFolders, WithoutExpiredDocs, DueDocument, DueFolder, Clear, Ancestor;
    DueFolders(t, owner, cutoff);
    KeptDocs(t, owner, cutoff);
    forall y <- t.folders
      ensures Clear(kept, expired, y) <==>
                DueFolder(t.folders[y], owner, cutoff) && forall d <- t.docs | t.docs[d].folder == y :: DueDocument(t.docs[d], owner, cutoff)
    {
      ClearIsDue(t, kept, expired, y, owner, cutoff);
    }
    assert forall y :: y in DescendantIds(t.folders, x) <==> y in t.folders && Below(t.folders, y, x);
  }

  lemma PurgedAre(t: Tables, kept: Tables, gone: set<FolderId>, owner: Option<OwnerId>, cutoff: Option<Time>)
    requires kept.folders == t.folders && forall d :: d in kept.docs <==> d in t.docs && !DueDocument(t.docs[d], owner, cutoff)
    requires forall d <- kept.docs :: kept.docs[d] == t.docs[d]
    requires forall x :: x in gone <==> x in t.folders && AllDue(t, x, owner, cutoff)
    requires forall d <- t.docs | t.docs[d].trashedFrom.Some? :: t.docs[d].trashedFrom.value in t.folders
    ensures PurgedExactly(t, RemoveFolders(kept, gone), owner, cutoff)
  {
    hide AllDue, DueDocument;
  }

  lemma OriginsThere(t: Tables)
    requires Forest(t)
    ensures forall d <- t.docs | t.docs[d].trashedFrom.Some? :: t.docs[d].trashedFrom.value in t.folders
  {
  }

  lemma PurgeIsExact(t: Tables, owner: Option<OwnerId>, cutoff: Option<Time>)
    requires Forest(t)
    ensures var kept := WithoutExpiredDocs(t, owner, cutoff);
      PurgedExactly(t, RemoveFolders(kept, Deletable(kept, ExpiredFolders(t, owner, cutoff))), owner, cutoff)
  {
    var kept := WithoutExpiredDocs(t, owner, cutoff);
    var gone := Deletable(kept, ExpiredFolders(t, owner, cutoff));
    assert forall x <- gone :: x in kept.folders;
    hide Forest, AllDue, ExpiredFolders, WithoutExpiredDocs, DueDocument, PurgedExactly, RemoveFolders, Deletable;
    KeptDocs(t, owner, cutoff);
    OriginsThere(t);
    forall x <- t.folders ensures x in gone <==> AllDue(t, x, owner, cutoff) {
      DeletableIsDue(t, x, owner, cutoff);
    }
    PurgedAre(t, kept, gone, owner, cutoff);
  }

  /** Both purges: `cutoff` is None for emptying the trash. Documents go first; then exactly the
      expired folders whose whole subtree is expired and, by then, free of documents. */
  method PurgeTrash(table: FolderTable, owner: Option<OwnerId>, cutoff: Option<Time>)
    returns (deletedDocs: nat, deletedFolders: nat, ghost order: seq<FolderId>)
    requires table.Valid()
    modifies table
    ensures table.Valid()
    ensures var t := WithoutExpiredDocs(old(table.View()), owner, cutoff);
      var gone := Deletable(t, ExpiredFolders(old(table.View()), owner, cutoff));
      && table.View() == RemoveFolders(t, gone)
      && LeafFirst(t, order) && Gone(order) == gone && deletedFolders == |order|
      && deletedDocs == |old(table.docs)| - |table.docs|
    ensures PurgedExactly(old(table.View()), table.View(), owner, cutoff)
  {
    hide Forest, Deletable, LeafFirst, ExpiredFolder, ExpiredDocument, PurgedExactly;
    PurgeIsExact(table.View(), owner, cutoff);
    deletedDocs := PurgeDocuments(table, owner, cutoff);
    var expired := set x | x in table.folders && ExpiredFolder(table.folders[x], owner, cutoff);
    var rows := RowsOf(expired);
    assert Gone(rows) == expired == ExpiredFolders(old(table.View()), owner, cutoff);
    ghost var kept := table.docs;
    deletedFolders, order := PurgeFolders(table, rows);
    hide ForgetIn;
    SameNumber(kept, Gone(order));
  }

  lemma KeysFall(docs: map<DocId, Document>, gone: set<DocId>)
    requires gone <= docs.Keys
    ensures |docs - gone| == |docs| - |gone|
  {
    assert (docs - gone).Keys == docs.Keys - gone;
    assert |docs - gone| == |(docs - gone).Keys|;
  }
}
