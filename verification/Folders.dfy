/** The folder and document tables and what services/folders.py does to them. A call that raises
    leaves both tables as they were. */
module Folders {
  import opened Wrappers

  type FolderId = nat
  type DocId = nat
  type OwnerId = nat
  type Time = int

  datatype Kind = ROOT | INBOX | TRASH | NORMAL

  datatype Folder = Folder(
    name: string, parent: Option<FolderId>, owner: OwnerId, kind: Kind, trashed: bool, trashedAt: Option<Time>)

  datatype Document = Document(
    folder: FolderId, owner: OwnerId, inbox: bool, trashed: bool, trashedAt: Option<Time>, trashedFrom: Option<FolderId>)

  datatype Tables = Tables(folders: map<FolderId, Folder>, docs: map<DocId, Document>, nextId: FolderId)

  datatype Error = NotFound | Validation | Conflict | Integrity

  datatype Result<+T> = Ok(value: T) | Err(error: Error)

  // ------------------------------------------------------------ the tree

  /** The n-th folder on the way up from `x`; `x` itself for n = 0. */
  function Ancestor(folders: map<FolderId, Folder>, x: FolderId, n: nat): Option<FolderId>
    decreases n
  {
    if n == 0 then Some(x)
    else if x in folders && folders[x].parent.Some? then Ancestor(folders, folders[x].parent.value, n - 1)
    else None
  }

  ghost predicate Below(folders: map<FolderId, Folder>, x: FolderId, a: FolderId) {
    exists n: nat :: Ancestor(folders, x, n) == Some(a)
  }

  /** `descendant_ids`: the folder and everything below it. */
  ghost function DescendantIds(folders: map<FolderId, Folder>, a: FolderId): set<FolderId> {
    set x | x in folders && Below(folders, x, a)
  }

  /** A rank that falls on every step towards the root: there is no cycle. */
  ghost predicate Ranked(folders: map<FolderId, Folder>, rank: map<FolderId, nat>) {
    forall x <- folders :: x in rank
      && (folders[x].parent.Some? ==> folders[x].parent.value in rank && rank[folders[x].parent.value] < rank[x])
  }

  ghost predicate Acyclic(folders: map<FolderId, Folder>) {
    exists rank :: Ranked(folders, rank)
  }

  /** A folder's parent exists and has its owner; only roots have none, and system folders hang
      directly under a root. */
  predicate WellPlaced(folders: map<FolderId, Folder>, x: FolderId)
    requires x in folders
  {
    var f := folders[x];
    if f.parent.None? then f.kind == ROOT
    else
      && f.kind != ROOT
      && f.parent.value in folders && folders[f.parent.value].owner == f.owner
      && (f.kind == NORMAL || folders[f.parent.value].kind == ROOT)
  }

  predicate SystemFolder(folders: map<FolderId, Folder>, x: FolderId, owner: OwnerId, kind: Kind) {
    x in folders && folders[x].owner == owner && folders[x].kind == kind
  }

  predicate Siblings(a: Folder, b: Folder) {
    a.parent.Some? && a.parent == b.parent && a.owner == b.owner
  }

  ghost predicate NamesDiffer(folders: map<FolderId, Folder>) {
    forall x, y | x in folders && y in folders && x != y && Siblings(folders[x], folders[y]) ::
      folders[x].name != folders[y].name
  }

  /** An owner has at most one system folder of a kind. */
  ghost predicate SystemsUnique(folders: map<FolderId, Folder>) {
    forall x, y | x in folders && y in folders && x != y && folders[x].owner == folders[y].owner
                  && folders[x].kind == folders[y].kind :: folders[x].kind == NORMAL
  }

  ghost predicate AllPlaced(folders: map<FolderId, Folder>) {
    forall x <- folders :: WellPlaced(folders, x)
  }

  ghost predicate DocsFiled(t: Tables) {
    forall d <- t.docs ::
      && t.docs[d].folder in t.folders && t.folders[t.docs[d].folder].owner == t.docs[d].owner
      && (t.docs[d].trashedFrom.Some? ==> Owned(t, t.docs[d].trashedFrom.value, t.docs[d].owner))
  }

  /** The folders form a forest that reaches each owner's only root, siblings have different names,
      every document lies in a folder of its own owner, and a document that is said to come from a
      folder comes from one of its owner that is still there. */
  ghost predicate Forest(t: Tables) {
    && (forall x <- t.folders :: x < t.nextId)
    && Acyclic(t.folders) && AllPlaced(t.folders) && NamesDiffer(t.folders) && SystemsUnique(t.folders)
    && DocsFiled(t)
  }

  // ------------------------------------------------------------ looking folders up

  predicate Owned(t: Tables, x: FolderId, owner: OwnerId) {
    x in t.folders && t.folders[x].owner == owner
  }

  ghost function FindSystem(t: Tables, owner: OwnerId, kind: Kind): Option<FolderId> {
    if x :| SystemFolder(t.folders, x, owner, kind) then Some(x) else None
  }

  predicate NameTaken(folders: map<FolderId, Folder>, parent: FolderId, owner: OwnerId, name: string, x: FolderId, activeOnly: bool) {
    && x in folders && folders[x].parent == Some(parent) && folders[x].owner == owner && folders[x].name == name
    && !(activeOnly && folders[x].trashed)
  }

  ghost predicate Taken(folders: map<FolderId, Folder>, parent: FolderId, owner: OwnerId, name: string,
                        activeOnly: bool, except: Option<FolderId>) {
    exists x: FolderId :: NameTaken(folders, parent, owner, name, x, activeOnly) && except != Some(x)
  }

  // ------------------------------------------------------------ creating

  function Insert(t: Tables, f: Folder): Tables {
    t.(folders := t.folders[t.nextId := f], nextId := t.nextId + 1)
  }

  function SystemName(kind: Kind): string {
    match kind
    case ROOT => "Documents"
    case INBOX => "Inbox"
    case TRASH => "Trash"
    case NORMAL => ""
  }

  /** One round of `ensure_system_folders`; the root comes first, so later rounds find it. */
  ghost function EnsureSystem(t: Tables, owner: OwnerId, kind: Kind): Result<Tables> {
    if FindSystem(t, owner, kind).Some? then Ok(t)
    else if kind == ROOT then Ok(Insert(t, Folder(SystemName(ROOT), None, owner, ROOT, false, None)))
    else
      var root := FindSystem(t, owner, ROOT);
      if root.None? then Err(NotFound)
      else if Taken(t.folders, root.value, owner, SystemName(kind), false, None) then Err(Integrity)
      else Ok(Insert(t, Folder(SystemName(kind), root, owner, kind, false, None)))
  }

  ghost function EnsureSystemFolders(t: Tables, owner: OwnerId): Result<Tables> {
    var r1 := EnsureSystem(t, owner, ROOT);
    if r1.Err? then r1
    else
      var r2 := EnsureSystem(r1.value, owner, INBOX);
      if r2.Err? then r2 else EnsureSystem(r2.value, owner, TRASH)
  }

  /** `get_root`, `get_inbox`, `get_trash`: look the folder up, or create what is missing first. */
  ghost function GetSystem(t: Tables, owner: OwnerId, kind: Kind): Result<(Tables, FolderId)> {
    var found := FindSystem(t, owner, kind);
    if found.Some? then Ok((t, found.value))
    else
      var made := EnsureSystemFolders(t, owner);
      if made.Err? then Err(made.error)
      else
        var x := FindSystem(made.value, owner, kind);
        if x.Some? then Ok((made.value, x.value)) else Err(NotFound)
  }

  /** `create_folder` under a given parent; names arrive stripped. The database's sibling-name
      constraint also counts trashed rows. */
  ghost function CreateUnder(t: Tables, owner: OwnerId, name: string, parent: FolderId): Result<Tables> {
    if Taken(t.folders, parent, owner, name, true, None) then Err(Conflict)
    else if Taken(t.folders, parent, owner, name, false, None) then Err(Integrity)
    else Ok(Insert(t, Folder(name, Some(parent), owner, NORMAL, false, None)))
  }

  /** The new folder's id is the `nextId` of the tables it was inserted into. */
  ghost function CreateFolder(t: Tables, owner: OwnerId, name: string, parent: Option<FolderId>): Result<(Tables, FolderId)> {
    if name == "" then Err(Validation)
    else if parent.None? then
      var root := GetSystem(t, owner, ROOT);
      if root.Err? then Err(root.error)
      else
        var made := CreateUnder(root.value.0, owner, name, root.value.1);
        if made.Err? then Err(made.error) else Ok((made.value, root.value.0.nextId))
    else if !Owned(t, parent.value, owner) then Err(NotFound)
    else if t.folders[parent.value].kind == TRASH then Err(Validation)
    else
      var made := CreateUnder(t, owner, name, parent.value);
      if made.Err? then Err(made.error) else Ok((made.value, t.nextId))
  }

  /** Get or create a child; a trashed sibling of that name is revived. */
  ghost function EnsureChild(t: Tables, parent: FolderId, name: string): Result<(Tables, FolderId)> {
    if parent !in t.folders then Err(NotFound)
    else
      var owner := t.folders[parent].owner;
      if x :| NameTaken(t.folders, parent, owner, name, x, true) then
        if t.folders[x].kind == TRASH then Err(Validation) else Ok((t, x))
      else if x :| NameTaken(t.folders, parent, owner, name, x, false) then
        if t.folders[x].kind != NORMAL then Err(Validation)
        else Ok((t.(folders := t.folders[x := t.folders[x].(trashed := false, trashedAt := None)]), x))
      else CreateFolder(t, owner, name, Some(parent))
  }

  ghost function EnsurePath(t: Tables, parent: FolderId, segments: seq<string>): Result<(Tables, FolderId)>
    decreases |segments|
  {
    if segments == [] then Ok((t, parent))
    else
      var r := EnsureChild(t, parent, segments[0]);
      if r.Err? then r else EnsurePath(r.value.0, r.value.1, segments[1..])
  }

  ghost function EnsureFolderPath(t: Tables, parent: FolderId, segments: seq<string>): Result<(Tables, FolderId)> {
    if parent !in t.folders then Err(NotFound)
    else if t.folders[parent].kind == TRASH then Err(Validation)
    else EnsurePath(t, parent, segments)
  }

  // ------------------------------------------------------------ renaming and moving

  ghost function RenameFolder(t: Tables, owner: OwnerId, x: FolderId, name: string): Result<Tables> {
    if !Owned(t, x, owner) then Err(NotFound)
    else if t.folders[x].kind != NORMAL || name == "" then Err(Validation)
    else if t.folders[x].parent.Some? && Taken(t.folders, t.folders[x].parent.value, owner, name, false, Some(x)) then Err(Conflict)
    else Ok(t.(folders := t.folders[x := t.folders[x].(name := name)]))
  }

  ghost function MoveFolder(t: Tables, owner: OwnerId, x: FolderId, dest: FolderId): Result<Tables> {
    if !Owned(t, x, owner) then Err(NotFound)
    else if t.folders[x].kind != NORMAL then Err(Validation)
    else if !Owned(t, dest, owner) then Err(NotFound)
    else if t.folders[dest].kind == TRASH then Err(Validation)
    else if dest in DescendantIds(t.folders, x) then Err(Validation)
    else if Taken(t.folders, dest, owner, t.folders[x].name, false, Some(x)) then Err(Conflict)
    else Ok(t.(folders := t.folders[x := t.folders[x].(parent := Some(dest))]))
  }

  // ------------------------------------------------------------ trashing

  function TrashIn(t: Tables, ids: set<FolderId>, owner: OwnerId, now: Time): Tables {
    t.(folders := map x | x in t.folders ::
         if x in ids && t.folders[x].owner == owner && t.folders[x].kind == NORMAL
         then t.folders[x].(trashed := true, trashedAt := Some(now)) else t.folders[x],
       docs := map d | d in t.docs ::
         var doc := t.docs[d];
         if doc.folder in ids && doc.owner == owner && !doc.trashed
         then doc.(trashed := true, trashedAt := Some(now), inbox := false, trashedFrom := Some(doc.folder)) else doc)
  }

  ghost function TrashFolder(t: Tables, owner: OwnerId, x: FolderId, now: Time): Result<Tables> {
    if !Owned(t, x, owner) then Err(NotFound)
    else if t.folders[x].kind != NORMAL then Err(Validation)
    else if t.folders[x].trashed then Ok(t)
    else Ok(TrashIn(t, DescendantIds(t.folders, x), owner, now))
  }

  function RestoreIn(t: Tables, ids: set<FolderId>, owner: OwnerId): Tables {
    t.(folders := map x | x in t.folders ::
         if x in ids && t.folders[x].owner == owner && t.folders[x].trashed
         then t.folders[x].(trashed := false, trashedAt := None) else t.folders[x],
       docs := map d | d in t.docs ::
         var doc := t.docs[d];
         if doc.folder in ids && doc.owner == owner && doc.trashed
         then doc.(trashed := false, trashedAt := None, trashedFrom := None) else doc)
  }

  ghost function RestoreFolder(t: Tables, owner: OwnerId, x: FolderId): Result<Tables> {
    if !Owned(t, x, owner) then Err(NotFound)
    else if t.folders[x].kind != NORMAL then Err(Validation)
    else if !t.folders[x].trashed then Ok(t)
    else Ok(RestoreIn(t, DescendantIds(t.folders, x), owner))
  }

  // ------------------------------------------------------------ deleting

  datatype Strategy = ToTrash(now: Time) | MoveToParent | MoveToInbox | DeleteDocuments(confirm: bool, at: Time) | Unknown

  function ChildIds(t: Tables, x: FolderId, owner: OwnerId): set<FolderId> {
    set c | c in t.folders && t.folders[c].owner == owner && t.folders[c].parent == Some(x)
  }

  function DocsIn(t: Tables, ids: set<FolderId>, owner: OwnerId): set<DocId> {
    set d | d in t.docs && t.docs[d].owner == owner && t.docs[d].folder in ids
  }

  /** The database forgets where a trashed document came from when that folder is deleted. */
  function Forget(doc: Document, ids: set<FolderId>): Document {
    if doc.trashedFrom.Some? && doc.trashedFrom.value in ids then doc.(trashedFrom := None) else doc
  }

  function ForgetIn(docs: map<DocId, Document>, ids: set<FolderId>): map<DocId, Document> {
    map d | d in docs :: Forget(docs[d], ids)
  }

  function RemoveFolders(t: Tables, ids: set<FolderId>): Tables {
    t.(folders := t.folders - ids, docs := ForgetIn(t.docs, ids))
  }

  function RefileDocs(t: Tables, from: FolderId, owner: OwnerId, dest: FolderId, toInbox: bool): Tables {
    t.(docs := map d | d in t.docs ::
         var doc := t.docs[d];
         if doc.folder == from && doc.owner == owner
         then doc.(folder := dest, inbox := if toInbox then true else doc.inbox) else doc)
  }

  function DiscardDocs(t: Tables, ids: set<FolderId>, owner: OwnerId, trash: FolderId, now: Time): Tables {
    t.(docs := map d | d in t.docs ::
         var doc := t.docs[d];
         if doc.folder in ids && doc.owner == owner
         then doc.(folder := trash, trashed := true, trashedAt := Some(now), inbox := false) else doc)
  }

  /** Move the children one by one, in the order the query returned them. */
  ghost function MoveAll(t: Tables, owner: OwnerId, children: seq<FolderId>, dest: FolderId): Result<Tables>
    decreases |children|
  {
    if children == [] then Ok(t)
    else
      var r := MoveFolder(t, owner, children[0], dest);
      if r.Err? then r else MoveAll(r.value, owner, children[1..], dest)
  }

  /** Empty a folder into `dest`, then drop it. */
  ghost function EmptyInto(t: Tables, owner: OwnerId, x: FolderId, children: seq<FolderId>, dest: FolderId, toInbox: bool): Result<Tables> {
    var moved := MoveAll(t, owner, children, dest);
    if moved.Err? then moved else Ok(RemoveFolders(RefileDocs(moved.value, x, owner, dest, toInbox), {x}))
  }

  /** `children` is the result of the child query, in whatever order. */
  ghost predicate Enumerates(children: seq<FolderId>, ids: set<FolderId>) {
    (forall c :: c in children <==> c in ids) && (forall i, j | 0 <= i < j < |children| :: children[i] != children[j])
  }

  ghost function DeleteFolder(t: Tables, owner: OwnerId, x: FolderId, strategy: Strategy, children: seq<FolderId>): Result<Tables> {
    if !Owned(t, x, owner) then Err(NotFound)
    else if t.folders[x].kind != NORMAL then Err(Validation)
    else if strategy.ToTrash? then TrashFolder(t, owner, x, strategy.now)
    else if children == [] && DocsIn(t, {x}, owner) == {} then Ok(RemoveFolders(t, {x}))
    else match strategy
      case MoveToParent =>
        if t.folders[x].parent.None? then Err(Validation)
        else if !Owned(t, t.folders[x].parent.value, owner) then Err(NotFound)
        else EmptyInto(t, owner, x, children, t.folders[x].parent.value, false)
      case MoveToInbox =>
        var inbox := GetSystem(t, owner, INBOX);
        if inbox.Err? then Err(inbox.error) else EmptyInto(inbox.value.0, owner, x, children, inbox.value.1, true)
      case DeleteDocuments(confirm, at) =>
        if !confirm then Err(Validation)
        else
          var trash := GetSystem(t, owner, TRASH);
          if trash.Err? then Err(trash.error)
          else
            var ids := DescendantIds(trash.value.0.folders, x);
            Ok(RemoveFolders(DiscardDocs(trash.value.0, ids, owner, trash.value.1, at), ids))
      case Unknown => Err(Validation)
      case ToTrash(_) => Err(Validation)
  }

  // ------------------------------------------------------------ purging a trashed subtree

  /** The folders of the subtree that the deletion loop takes. */
  ghost function Purgeable(t: Tables, owner: OwnerId, x: FolderId): set<FolderId> {
    set y | y in DescendantIds(t.folders, x) && t.folders[y].owner == owner && t.folders[y].trashed && t.folders[y].kind == NORMAL
  }

  /** The mapper clears the parent of a surviving child of a deleted row. */
  function DetachAndRemove(t: Tables, ids: set<FolderId>): Tables {
    t.(folders := map y | y in t.folders && y !in ids ::
         if t.folders[y].parent.Some? && t.folders[y].parent.value in ids then t.folders[y].(parent := None) else t.folders[y],
       docs := ForgetIn(t.docs, ids))
  }

  /** `permanently_delete_trashed_subtree`: first the trashed documents, then the trashed folders.
      A document that survives in a deleted folder violates its foreign key. */
  ghost function PurgeSubtree(t: Tables, owner: OwnerId, x: FolderId): Result<Tables> {
    if !Owned(t, x, owner) then Err(NotFound)
    else if t.folders[x].kind != NORMAL || !t.folders[x].trashed then Err(Validation)
    else
      var ids := DescendantIds(t.folders, x);
      var gone := Purgeable(t, owner, x);
      var kept := t.(docs := map d | d in t.docs && !(d in DocsIn(t, ids, owner) && t.docs[d].trashed) :: t.docs[d]);
      if exists d :: d in kept.docs && kept.docs[d].folder in gone then Err(Integrity)
      else Ok(DetachAndRemove(kept, gone))
  }

  // ------------------------------------------------------------ filing documents

  function AddDocument(t: Tables, owner: OwnerId, d: DocId, x: FolderId): Result<Tables> {
    if !Owned(t, x, owner) then Err(NotFound)
    else if d in t.docs then Err(Integrity)
    else Ok(t.(docs := t.docs[d := Document(x, owner, t.folders[x].kind == INBOX, false, None, None)]))
  }

  function MoveDocument(t: Tables, owner: OwnerId, d: DocId, x: FolderId): Result<Tables> {
    if d !in t.docs || t.docs[d].owner != owner || !Owned(t, x, owner) then Err(NotFound)
    else if t.folders[x].kind == TRASH then Err(Validation)
    else Ok(t.(docs := t.docs[d := t.docs[d].(
      folder := x, inbox := t.docs[d].inbox || t.folders[x].kind == INBOX, trashed := false, trashedAt := None)]))
  }

  ghost function TrashDocument(t: Tables, owner: OwnerId, d: DocId, now: Time): Result<Tables> {
    if d !in t.docs || t.docs[d].owner != owner then Err(NotFound)
    else if t.docs[d].trashed then Ok(t)
    else
      var trash := GetSystem(t, owner, TRASH);
      if trash.Err? then Err(trash.error)
      else
        var t1 := trash.value.0;
        Ok(t1.(docs := t1.docs[d := t.docs[d].(
          folder := trash.value.1, trashed := true, trashedAt := Some(now), inbox := false, trashedFrom := Some(t.docs[d].folder))]))
  }

  /** The folder a trashed document goes back to: the one asked for, else the one it came from. */
  function Origin(t: Tables, owner: OwnerId, doc: Document, into: Option<FolderId>): Option<FolderId> {
    if into.Some? then into
    else if doc.trashedFrom.Some? && Owned(t, doc.trashedFrom.value, owner) && Usable(t, doc.trashedFrom.value) then doc.trashedFrom
    else None
  }

  predicate Usable(t: Tables, x: FolderId) {
    x in t.folders && !t.folders[x].trashed && t.folders[x].kind != TRASH
  }

  ghost function RestoreDocument(t: Tables, owner: OwnerId, d: DocId, into: Option<FolderId>): Result<Tables> {
    if d !in t.docs || t.docs[d].owner != owner then Err(NotFound)
    else if !t.docs[d].trashed then Ok(t)
    else
      var target := Origin(t, owner, t.docs[d], into);
      if target.Some? && !Owned(t, target.value, owner) then Err(NotFound)
      else
        var inbox := GetSystem(t, owner, INBOX);
        if inbox.Err? then Err(inbox.error)
        else
          var (t1, queue) := inbox.value;
          var dest := if target.Some? && Usable(t, target.value) then target.value else queue;
          Ok(t1.(docs := t1.docs[d := t.docs[d].(
            folder := dest, trashed := false, trashedAt := None, inbox := dest == queue, trashedFrom := None)]))
  }

  // ------------------------------------------------------------ runs

  datatype Step =
    | SetUp(owner: OwnerId)
    | Create(owner: OwnerId, name: string, parent: Option<FolderId>)
    | Ensure(x: FolderId, segments: seq<string>)
    | Rename(owner: OwnerId, x: FolderId, name: string)
    | Move(owner: OwnerId, x: FolderId, dest: FolderId)
    | Trash(owner: OwnerId, x: FolderId, now: Time)
    | Restore(owner: OwnerId, x: FolderId)
    | Delete(owner: OwnerId, x: FolderId, strategy: Strategy, children: seq<FolderId>)
    | AddDoc(owner: OwnerId, d: DocId, x: FolderId)
    | MoveDoc(owner: OwnerId, d: DocId, x: FolderId)
    | TrashDoc(owner: OwnerId, d: DocId, now: Time)
    | RestoreDoc(owner: OwnerId, d: DocId, into: Option<FolderId>)
    | RemoveDoc(d: DocId)

  function Tabled(t: Tables, r: Result<Tables>): Tables {
    if r.Ok? then r.value else t
  }

  function Paired(t: Tables, r: Result<(Tables, FolderId)>): Tables {
    if r.Ok? then r.value.0 else t
  }

  /** A raised error rolls the call back. */
  ghost function Apply(t: Tables, step: Step): Tables {
    match step
    case SetUp(owner) => Tabled(t, EnsureSystemFolders(t, owner))
    case Create(owner, name, parent) => Paired(t, CreateFolder(t, owner, name, parent))
    case Ensure(x, segments) => Paired(t, EnsureFolderPath(t, x, segments))
    case Rename(owner, x, name) => Tabled(t, RenameFolder(t, owner, x, name))
    case Move(owner, x, dest) => Tabled(t, MoveFolder(t, owner, x, dest))
    case Trash(owner, x, now) => Tabled(t, TrashFolder(t, owner, x, now))
    case Restore(owner, x) => Tabled(t, RestoreFolder(t, owner, x))
    case Delete(owner, x, strategy, children) => Tabled(t, DeleteFolder(t, owner, x, strategy, children))
    case AddDoc(owner, d, x) => Tabled(t, AddDocument(t, owner, d, x))
    case MoveDoc(owner, d, x) => Tabled(t, MoveDocument(t, owner, d, x))
    case TrashDoc(owner, d, now) => Tabled(t, TrashDocument(t, owner, d, now))
    case RestoreDoc(owner, d, into) => Tabled(t, RestoreDocument(t, owner, d, into))
    case RemoveDoc(d) => t.(docs := t.docs - {d})
  }

  ghost predicate Enabled(t: Tables, step: Step) {
    step.Delete? ==> Enumerates(step.children, ChildIds(t, step.x, step.owner))
  }

  const EMPTY := Tables(map[], map[], 0)

  ghost predicate IsRun(states: seq<Tables>, steps: seq<Step>) {
    && |states| == |steps| + 1 && states[0] == EMPTY
    && forall i | 0 <= i < |steps| :: Enabled(states[i], steps[i]) && states[i + 1] == Apply(states[i], steps[i])
  }
}
