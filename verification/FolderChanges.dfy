/** What each folder call changes, row by row: the statement that FolderChangesProofs proves. */
module FolderChanges {
  import opened Wrappers
  import opened Folders
  import opened FoldersProofs
  import opened FolderPaths
  import opened FolderRights

  // ------------------------------------------------------------ the calls that take effect

  /** No folder hangs under it and no document lies in it. */
  ghost predicate Empty(t: Tables, x: FolderId) {
    (forall y <- t.folders :: t.folders[y].parent != Some(x)) && forall d <- t.docs :: t.docs[d].folder != x
  }

  ghost predicate TakesChildren(t: Tables, owner: OwnerId, x: FolderId, dest: FolderId) {
    forall c <- t.folders | t.folders[c].parent == Some(x) :: MayMove(t, owner, c, dest)
  }

  ghost predicate Creates(t: Tables, step: Step) {
    && step.Create? && step.name != ""
    && match step.parent
       case Some(p) => Owned(t, p, step.owner) && t.folders[p].kind != TRASH && !HasChild(t.folders, p, step.name)
       case None =>
         && (forall root <- t.folders | SystemFolder(t.folders, root, step.owner, ROOT) :: !HasChild(t.folders, root, step.name))
         && (NoRoot(t, step.owner) ==> step.name != "Inbox" && step.name != "Trash")
  }

  predicate NoRoot(t: Tables, owner: OwnerId) {
    forall x <- t.folders :: !SystemFolder(t.folders, x, owner, ROOT)
  }

  ghost predicate Paves(t: Tables, step: Step) {
    && step.Ensure? && step.x in t.folders && t.folders[step.x].kind != TRASH
    && Passable(t.folders, step.x, step.segments)
  }

  ghost predicate Renames(t: Tables, step: Step, x: FolderId) {
    step.Rename? && step.x == x && MayRename(t, step.owner, x, step.name)
  }

  ghost predicate Moves(t: Tables, step: Step, x: FolderId) {
    step.Move? && step.x == x && MayMove(t, step.owner, x, step.dest)
  }

  /** The subtree goes to the trash as it is. */
  predicate Bins(t: Tables, step: Step) {
    && (step.Trash? || (step.Delete? && step.strategy.ToTrash?))
    && Plain(t, step.x, step.owner) && !t.folders[step.x].trashed
  }

  predicate Restores(t: Tables, step: Step) {
    step.Restore? && Plain(t, step.x, step.owner) && t.folders[step.x].trashed
  }

  ghost predicate Drops(t: Tables, step: Step) {
    step.Delete? && !step.strategy.ToTrash? && Plain(t, step.x, step.owner) && Empty(t, step.x)
  }

  /** A folder that is not empty goes, and what was in it moves up or to the inbox. */
  ghost predicate Unpacks(t: Tables, step: Step) {
    && step.Delete? && Plain(t, step.x, step.owner) && !Empty(t, step.x)
    && match step.strategy
       case MoveToParent =>
         t.folders[step.x].parent.Some? && TakesChildren(t, step.owner, step.x, t.folders[step.x].parent.value)
       case MoveToInbox =>
         && SystemReady(t, step.owner, INBOX)
         && forall inbox <- t.folders | SystemFolder(t.folders, inbox, step.owner, INBOX) :: TakesChildren(t, step.owner, step.x, inbox)
       case _ => false
  }

  /** The whole subtree goes, and its documents to the trash folder. */
  ghost predicate Destroys(t: Tables, step: Step) {
    && step.Delete? && step.strategy.DeleteDocuments? && step.strategy.confirm
    && Plain(t, step.x, step.owner) && !Empty(t, step.x) && SystemReady(t, step.owner, TRASH)
  }

  // ------------------------------------------------------------ folders

  ghost predicate BinsFolder(t: Tables, step: Step, x: FolderId) {
    Bins(t, step) && Below(t.folders, x, step.x)
  }

  ghost predicate RevivesFolder(t: Tables, step: Step, x: FolderId) {
    && x in t.folders && t.folders[x].trashed
    && ((Restores(t, step) && Below(t.folders, x, step.x))
        || (Paves(t, step) && OnPath(t.folders, step.x, step.segments, x)))
  }

  ghost predicate RemovesFolder(t: Tables, step: Step, x: FolderId) {
    ((Drops(t, step) || Unpacks(t, step)) && x == step.x) || (Destroys(t, step) && Below(t.folders, x, step.x))
  }

  /** When the step says that it happens. */
  function Moment(step: Step): Time {
    match step
    case Trash(_, _, now) => now
    case TrashDoc(_, _, now) => now
    case Delete(_, _, strategy, _) =>
      (match strategy case ToTrash(now) => now case DeleteDocuments(_, at) => at case _ => 0)
    case _ => 0
  }

  /** Where what was in an unpacked folder goes. */
  ghost predicate UnpacksTo(t: Tables, t': Tables, step: Step, dest: FolderId) {
    && step.Delete? && step.x in t.folders
    && if step.strategy.MoveToParent? then t.folders[step.x].parent == Some(dest) else SystemFolder(t'.folders, dest, step.owner, INBOX)
  }

  /** What a folder that stays looks like after the step. */
  ghost predicate FolderIs(t: Tables, t': Tables, step: Step, x: FolderId)
    requires x in t.folders && x in t'.folders
  {
    var before, after := t.folders[x], t'.folders[x];
    && after.owner == before.owner && after.kind == before.kind
    && after.name == (if Renames(t, step, x) then step.name else before.name)
    && after.trashed == (BinsFolder(t, step, x) || (before.trashed && !RevivesFolder(t, step, x)))
    && after.trashedAt == (if BinsFolder(t, step, x) then Some(Moment(step))
                           else if RevivesFolder(t, step, x) then None else before.trashedAt)
    && if Moves(t, step, x) then after.parent == Some(step.dest)
       else if Unpacks(t, step) && before.parent == Some(step.x) then
         after.parent.Some? && UnpacksTo(t, t', step, after.parent.value)
       else after.parent == before.parent
  }

  /** Whose folders and documents the step may touch. */
  function Actor(t: Tables, step: Step): Option<OwnerId> {
    match step
    case Ensure(x, _) => if x in t.folders then Some(t.folders[x].owner) else None
    case RemoveDoc(d) => if d in t.docs then Some(t.docs[d].owner) else None
    case _ => Some(step.owner)
  }

  /** A folder that was not there: the one asked for, one of the path asked for, or a system folder. */
  ghost predicate NewFolderIs(t: Tables, t': Tables, step: Step, x: FolderId)
    requires x in t'.folders
  {
    || (Creates(t, step) && t'.folders[x].parent.Some?
        && t'.folders[x] == Folder(step.name, t'.folders[x].parent, step.owner, NORMAL, false, None)
        && if step.parent.Some? then t'.folders[x].parent == step.parent
           else SystemFolder(t'.folders, t'.folders[x].parent.value, step.owner, ROOT))
    || (Paves(t, step) && OnPath(t'.folders, step.x, step.segments, x) && Made(t, t'.folders[x], step.x))
    || (Actor(t, step).Some? && UnderRoot(t'.folders, x, Actor(t, step).value))
  }

  ghost predicate FoldersAre(t: Tables, t': Tables, step: Step) {
    && (forall x <- t.folders :: x !in t'.folders <==> RemovesFolder(t, step, x))
    && (forall x <- t.folders | x in t'.folders :: FolderIs(t, t', step, x))
    && (forall x <- t'.folders | x !in t.folders :: NewFolderIs(t, t', step, x))
  }

  // ------------------------------------------------------------ documents

  predicate Has(t: Tables, d: DocId, owner: OwnerId) {
    d in t.docs && t.docs[d].owner == owner
  }

  predicate AddsDocument(t: Tables, step: Step, d: DocId) {
    step.AddDoc? && step.d == d && d !in t.docs && Owned(t, step.x, step.owner)
  }

  predicate MovesDocument(t: Tables, step: Step, d: DocId) {
    step.MoveDoc? && step.d == d && Has(t, d, step.owner) && Owned(t, step.x, step.owner) && t.folders[step.x].kind != TRASH
  }

  /** Alone, or with the folder that is destroyed. */
  ghost predicate DiscardsDocument(t: Tables, step: Step, d: DocId) {
    || (step.TrashDoc? && step.d == d && Has(t, d, step.owner) && !t.docs[d].trashed && SystemReady(t, step.owner, TRASH))
    || (d in t.docs && Destroys(t, step) && Below(t.folders, t.docs[d].folder, step.x))
  }

  ghost predicate BinsDocument(t: Tables, step: Step, d: DocId) {
    d in t.docs && Bins(t, step) && Below(t.folders, t.docs[d].folder, step.x) && !t.docs[d].trashed
  }

  ghost predicate ReturnsDocument(t: Tables, step: Step, d: DocId) {
    && step.RestoreDoc? && step.d == d && Has(t, d, step.owner) && t.docs[d].trashed && SystemReady(t, step.owner, INBOX)
    && (step.into.Some? ==> Owned(t, step.into.value, step.owner))
  }

  ghost predicate RestoresDocument(t: Tables, step: Step, d: DocId) {
    d in t.docs && Restores(t, step) && Below(t.folders, t.docs[d].folder, step.x) && t.docs[d].trashed
  }

  ghost predicate UnpacksDocument(t: Tables, step: Step, d: DocId) {
    d in t.docs && Unpacks(t, step) && t.docs[d].folder == step.x
  }

  /** Where a document returns to: the folder asked for, else the one it came from, else the inbox. */
  ghost predicate ReturnsTo(t: Tables, t': Tables, step: Step, d: DocId, home: FolderId)
    requires step.RestoreDoc? && d in t.docs
  {
    if step.into.Some? && Usable(t, step.into.value) then step.into == Some(home)
    else if step.into.None? && t.docs[d].trashedFrom.Some? && Usable(t, t.docs[d].trashedFrom.value)
    then t.docs[d].trashedFrom == Some(home)
    else SystemFolder(t'.folders, home, step.owner, INBOX)
  }

  /** Where a document lies after the step, and with which inbox flag. */
  ghost predicate DocumentLies(t: Tables, t': Tables, step: Step, d: DocId)
    requires d in t.docs && d in t'.docs
  {
    var before, after := t.docs[d], t'.docs[d];
    if MovesDocument(t, step, d) then
      after.folder == step.x && after.inbox == (before.inbox || t.folders[step.x].kind == INBOX)
    else if DiscardsDocument(t, step, d) then
      SystemFolder(t'.folders, after.folder, before.owner, TRASH) && !after.inbox
    else if ReturnsDocument(t, step, d) then
      ReturnsTo(t, t', step, d, after.folder) && after.inbox == SystemFolder(t'.folders, after.folder, before.owner, INBOX)
    else if UnpacksDocument(t, step, d) then
      UnpacksTo(t, t', step, after.folder) && after.inbox == (before.inbox || step.strategy.MoveToInbox?)
    else
      after.folder == before.folder && after.inbox == (before.inbox && !BinsDocument(t, step, d))
  }

  /** Whether it is in the trash then, since when, and where it came from. */
  ghost predicate DocumentMarked(t: Tables, t': Tables, step: Step, d: DocId)
    requires d in t.docs && d in t'.docs
  {
    var before, after := t.docs[d], t'.docs[d];
    var bins := DiscardsDocument(t, step, d) || BinsDocument(t, step, d);
    var restores := ReturnsDocument(t, step, d) || RestoresDocument(t, step, d);
    && after.owner == before.owner
    && after.trashed == (bins || (before.trashed && !MovesDocument(t, step, d) && !restores))
    && after.trashedAt == (if bins then Some(Moment(step))
                           else if MovesDocument(t, step, d) || restores then None else before.trashedAt)
    && after.trashedFrom == (if bins && !Destroys(t, step) then Some(before.folder)
                             else if restores || Forgotten(t', before) then None else before.trashedFrom)
  }

  /** The folder that a document came from is gone. */
  predicate Forgotten(t': Tables, before: Document) {
    before.trashedFrom.Some? && before.trashedFrom.value !in t'.folders
  }

  ghost predicate DocumentsAre(t: Tables, t': Tables, step: Step) {
    && (forall d <- t.docs :: d !in t'.docs <==> step == RemoveDoc(d))
    && (forall d <- t'.docs | d !in t.docs ::
          AddsDocument(t, step, d) && t'.docs[d] == Document(step.x, step.owner, t.folders[step.x].kind == INBOX, false, None, None))
    && (forall d :: AddsDocument(t, step, d) ==> d in t'.docs)
    && (forall d <- t.docs | d in t'.docs :: DocumentLies(t, t', step, d) && DocumentMarked(t, t', step, d))
  }

  /** The step changed exactly what it may. */
  ghost predicate Changes(t: Tables, t': Tables, step: Step) {
    FoldersAre(t, t', step) && DocumentsAre(t, t', step)
  }
}
