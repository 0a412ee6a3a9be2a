/** Content-addressed originals: ingest and deletion in services/documents.py over the key-to-content
    store of storage/service.py. A call that raises leaves rows and store as they were. */
module Originals {
  import opened Wrappers

  type Byte = x: int | 0 <= x < 256
  type Bytes = seq<Byte>
  type DocId = nat
  type OwnerId = nat

  const DIGEST_LENGTH := 64

  datatype Doc = Doc(owner: OwnerId, checksum: string, storageKey: string, trashed: bool, inbox: bool)

  datatype Library = Library(docs: map<DocId, Doc>, blobs: map<string, Bytes>, nextId: DocId)

  const EMPTY := Library(map[], map[], 0)

  datatype DuplicatePolicy = RaiseError | Skip

  /** What `ingest_bytes` is given or looks up elsewhere: `acceptable` is the size and MIME verdict,
      `withinQuota` the quota's, and `placement` the inbox flag of the resolved folder, or None if the
      folder cannot be had. */
  datatype Upload = Upload(
    owner: OwnerId, data: Bytes, extension: string, onDuplicate: DuplicatePolicy,
    acceptable: bool, withinQuota: bool, placement: Option<bool>)

  datatype Ingested = Created(id: DocId) | Duplicate(existing: DocId)

  datatype Error = NotFound | Validation | DuplicateDocument(existing: DocId) | QuotaExceeded | Collision

  datatype Result<+T> = Ok(value: T) | Err(error: Error)

  /** SHA-256 in hex, as any function with 64-character digests. */
  ghost predicate IsDigest(hash: Bytes -> string) {
    forall b: Bytes :: |hash(b)| == DIGEST_LENGTH
  }

  // ------------------------------------------------------------ storage/service.py

  function StripDots(s: string): string {
    if s != [] && s[0] == '.' then StripDots(s[1..]) else s
  }

  function Lower(s: string): string {
    seq(|s|, i requires 0 <= i < |s| => if 'A' <= s[i] <= 'Z' then (s[i] as int + 32) as char else s[i])
  }

  function StorageKeyFor(checksum: string, extension: string): string
    requires |checksum| == DIGEST_LENGTH
  {
    var ext := Lower(StripDots(extension));
    checksum[..2] + "/" + checksum + "." + if ext == [] then "bin" else ext
  }

  /** The checksum is spelled out in the key. */
  predicate Names(key: string, checksum: string) {
    |checksum| == DIGEST_LENGTH && |key| >= DIGEST_LENGTH + 3 && key[3..DIGEST_LENGTH + 3] == checksum
  }

  /** Keys of different checksums differ, whatever the extensions. */
  lemma KeyNamesChecksum(checksum: string, extension: string)
    requires |checksum| == DIGEST_LENGTH
    ensures Names(StorageKeyFor(checksum, extension), checksum)
    ensures forall other :: Names(StorageKeyFor(checksum, extension), other) ==> other == checksum
  {
    var key := StorageKeyFor(checksum, extension);
    assert key[3..DIGEST_LENGTH + 3] == checksum;
  }

  predicate Upper(c: char) {
    'A' <= c <= 'Z'
  }

  lemma {:induction false} LeadingDots(s: string) returns (n: nat)
    ensures n <= |s| && StripDots(s) == s[n..]
    ensures (forall i | 0 <= i < n :: s[i] == '.') && (n < |s| ==> s[n] != '.')
  {
    n := 0;
    if s != [] && s[0] == '.' {
      var m := LeadingDots(s[1..]);
      n := m + 1;
      assert s[1..][m..] == s[n..];
      forall i | 0 <= i < n ensures s[i] == '.' {
        assert i > 0 ==> s[1..][i - 1] == s[i];
      }
    }
  }

  /** A key is the first two digits of the checksum, the checksum, and the extension without its leading
      dots and in small letters, or "bin" if nothing is left of it. */
  lemma KeyLayout(checksum: string, extension: string) returns (n: nat, suffix: string)
    requires |checksum| == DIGEST_LENGTH
    ensures StorageKeyFor(checksum, extension) == checksum[..2] + "/" + checksum + "." + suffix
    ensures n <= |extension| && (forall i | 0 <= i < n :: extension[i] == '.') && (n < |extension| ==> extension[n] != '.')
    ensures n == |extension| ==> suffix == "bin"
    ensures n < |extension| ==> |suffix| == |extension| - n && forall i | 0 <= i < |suffix| ::
      suffix[i] as int == extension[n + i] as int + if Upper(extension[n + i]) then 'a' as int - 'A' as int else 0
  {
    n := LeadingDots(extension);
    suffix := if n == |extension| then "bin" else Lower(extension[n..]);
  }

  function PersistOriginal(hash: Bytes -> string, blobs: map<string, Bytes>, data: Bytes, checksum: string, extension: string)
    : Result<(map<string, Bytes>, string)>
    requires |checksum| == DIGEST_LENGTH
  {
    var key := StorageKeyFor(checksum, extension);
    if '\\' in key then Err(Validation)
    else if key in blobs then if hash(blobs[key]) == checksum then Ok((blobs, key)) else Err(Collision)
    else Ok((blobs[key := data], key))
  }

  function ReadOriginal(l: Library, d: DocId): Option<Bytes> {
    if d in l.docs && l.docs[d].storageKey in l.blobs then Some(l.blobs[l.docs[d].storageKey]) else None
  }

  // ------------------------------------------------------------ services/documents.py

  predicate Matches(doc: Doc, owner: OwnerId, checksum: string, trashed: bool) {
    doc.owner == owner && doc.checksum == checksum && doc.trashed == trashed
  }

  ghost function Find(l: Library, owner: OwnerId, checksum: string, trashed: bool): Option<DocId> {
    if d :| d in l.docs && Matches(l.docs[d], owner, checksum, trashed) then Some(d) else None
  }

  predicate Visible(l: Library, d: DocId, owner: Option<OwnerId>) {
    d in l.docs && (owner.None? || l.docs[d].owner == owner.value)
  }

  /** Another row still points at the document's original. */
  ghost predicate Shared(l: Library, d: DocId)
    requires d in l.docs
  {
    exists e <- l.docs :: e != d && l.docs[e].storageKey == l.docs[d].storageKey
  }

  ghost function Remove(l: Library, d: DocId): Library
    requires d in l.docs
  {
    l.(docs := l.docs - {d}, blobs := if Shared(l, d) then l.blobs else l.blobs - {l.docs[d].storageKey})
  }

  ghost function PermanentlyDelete(l: Library, d: DocId, owner: Option<OwnerId>, allowInbox: bool): Result<Library> {
    if !Visible(l, d, owner) then Err(NotFound)
    else if !l.docs[d].trashed && !(allowInbox && l.docs[d].inbox) then Err(Validation)
    else Ok(Remove(l, d))
  }

  ghost function RemoveFromQueue(l: Library, d: DocId, owner: OwnerId): Result<Library> {
    if !Visible(l, d, Some(owner)) then Err(NotFound)
    else if !l.docs[d].inbox || l.docs[d].trashed then Err(Validation)
    else PermanentlyDelete(l, d, Some(owner), true)
  }

  /** What ingest starts storing from: the trashed duplicate, if any, is gone. */
  ghost function Cleared(l: Library, owner: OwnerId, checksum: string): Library {
    var twin := Find(l, owner, checksum, true);
    if twin.Some? then Remove(l, twin.value) else l
  }

  ghost function Ingest(l: Library, hash: Bytes -> string, u: Upload): Result<(Library, Ingested)>
    requires IsDigest(hash)
  {
    if u.data == [] || !u.acceptable then Err(Validation)
    else
      var checksum := hash(u.data);
      var existing := Find(l, u.owner, checksum, false);
      if existing.Some? then
        if u.onDuplicate == Skip then Ok((l, Duplicate(existing.value))) else Err(DuplicateDocument(existing.value))
      else
        Store(Cleared(l, u.owner, checksum), hash, u)
  }

  /** The part of ingest after the duplicate checks. */
  ghost function Store(l: Library, hash: Bytes -> string, u: Upload): Result<(Library, Ingested)>
    requires IsDigest(hash)
  {
    var checksum := hash(u.data);
    if !u.withinQuota then Err(QuotaExceeded)
    else if u.placement.None? then Err(NotFound)
    else
      var stored := PersistOriginal(hash, l.blobs, u.data, checksum, u.extension);
      if stored.Err? then Err(stored.error)
      else
        var doc := Doc(u.owner, checksum, stored.value.1, false, u.placement.value);
        Ok((Library(l.docs[l.nextId := doc], stored.value.0, l.nextId + 1), Created(l.nextId)))
  }

  function TrashDocument(l: Library, d: DocId, owner: OwnerId): Result<Library> {
    if !Visible(l, d, Some(owner)) then Err(NotFound)
    else if l.docs[d].trashed then Ok(l)
    else Ok(l.(docs := l.docs[d := l.docs[d].(trashed := true, inbox := false)]))
  }

  /** `toInbox` says whether the folder that restore settles on is the inbox. */
  function RestoreDocument(l: Library, d: DocId, owner: OwnerId, toInbox: bool): Result<Library> {
    if !Visible(l, d, Some(owner)) then Err(NotFound)
    else if !l.docs[d].trashed then Ok(l)
    else Ok(l.(docs := l.docs[d := l.docs[d].(trashed := false, inbox := toInbox)]))
  }

  datatype Target = TrashFolder | InboxFolder | OtherFolder

  /** Moving takes a document out of the trash, too. */
  function MoveDocument(l: Library, d: DocId, owner: OwnerId, target: Target, preserveInbox: Option<bool>): Result<Library> {
    if !Visible(l, d, Some(owner)) then Err(NotFound)
    else if target == TrashFolder then Err(Validation)
    else
      var keep := preserveInbox.GetOr(l.docs[d].inbox);
      Ok(l.(docs := l.docs[d := l.docs[d].(trashed := false, inbox := keep || target == InboxFolder)]))
  }

  // ------------------------------------------------------------ deleting many

  function StoredKeys(docs: map<DocId, Doc>): set<string> {
    set d | d in docs :: docs[d].storageKey
  }

  /** The rows go, and with them exactly the originals that no row names any more. */
  function DeleteAll(l: Library, ids: set<DocId>): Library {
    l.(docs := l.docs - ids, blobs := l.blobs - (l.blobs.Keys - StoredKeys(l.docs - ids)))
  }

  function Trashed(l: Library, owner: Option<OwnerId>): set<DocId> {
    set d | d in l.docs && l.docs[d].trashed && Visible(l, d, owner)
  }

  // ------------------------------------------------------------ runs

  datatype Step =
    | IngestStep(upload: Upload)
    | DeleteStep(d: DocId, owner: Option<OwnerId>, allowInbox: bool)
    | RemoveStep(d: DocId, actor: OwnerId)
    | TrashStep(d: DocId, actor: OwnerId)
    | RestoreStep(d: DocId, actor: OwnerId, toInbox: bool)
    | MoveStep(d: DocId, actor: OwnerId, target: Target, preserveInbox: Option<bool>)
    | EmptyTrashStep(owner: Option<OwnerId>)

  ghost function Attempt(l: Library, hash: Bytes -> string, step: Step): Result<Library>
    requires IsDigest(hash)
  {
    match step
    case IngestStep(u) => (var r := Ingest(l, hash, u); if r.Ok? then Ok(r.value.0) else Err(r.error))
    case DeleteStep(d, owner, allowInbox) => PermanentlyDelete(l, d, owner, allowInbox)
    case RemoveStep(d, actor) => RemoveFromQueue(l, d, actor)
    case TrashStep(d, actor) => TrashDocument(l, d, actor)
    case RestoreStep(d, actor, toInbox) => RestoreDocument(l, d, actor, toInbox)
    case MoveStep(d, actor, target, preserve) => MoveDocument(l, d, actor, target, preserve)
    case EmptyTrashStep(owner) => Ok(DeleteAll(l, Trashed(l, owner)))
  }

  ghost function Apply(l: Library, hash: Bytes -> string, step: Step): Library
    requires IsDigest(hash)
  {
    var r := Attempt(l, hash, step);
    if r.Ok? then r.value else l
  }

  ghost function Run(l: Library, hash: Bytes -> string, steps: seq<Step>): Library
    requires IsDigest(hash)
    decreases |steps|
  {
    if steps == [] then l else Run(Apply(l, hash, steps[0]), hash, steps[1..])
  }

  // ------------------------------------------------------------ the invariant

  ghost predicate Kept(l: Library, hash: Bytes -> string, d: DocId)
    requires d in l.docs
  {
    var doc := l.docs[d];
    d < l.nextId && Names(doc.storageKey, doc.checksum)
    && doc.storageKey in l.blobs && hash(l.blobs[doc.storageKey]) == doc.checksum
  }

  ghost predicate AllKept(l: Library, hash: Bytes -> string) {
    forall d <- l.docs :: Kept(l, hash, d)
  }

  /** No owner has two rows for one checksum, trashed ones included. */
  ghost predicate ChecksumsUnique(docs: map<DocId, Doc>) {
    forall d, e | d in docs && e in docs && docs[d].owner == docs[e].owner && docs[d].checksum == docs[e].checksum :: d == e
  }

  /** The store holds exactly the originals that some document of any owner names, each with the
      content its checksum promises. */
  ghost predicate Consistent(l: Library, hash: Bytes -> string) {
    && AllKept(l, hash)
    && l.blobs.Keys == StoredKeys(l.docs)
    && ChecksumsUnique(l.docs)
  }

  lemma EmptyIsConsistent(hash: Bytes -> string)
    ensures Consistent(EMPTY, hash)
  {
  }

  /** One deletion is the deletion of all of one: shared originals stay, unshared ones go. */
  lemma RemoveIsDeleteAll(l: Library, hash: Bytes -> string, d: DocId)
    requires Consistent(l, hash) && d in l.docs
    ensures Remove(l, d) == DeleteAll(l, {d})
  {
    hide AllKept, ChecksumsUnique;
    var key := l.docs[d].storageKey;
    var left := StoredKeys(l.docs - {d});
    forall k <- StoredKeys(l.docs) | k != key ensures k in left {
      var e :| e in l.docs && l.docs[e].storageKey == k;
      assert e in l.docs - {d};
    }
    if Shared(l, d) {
      var f :| f in l.docs && f != d && l.docs[f].storageKey == key;
      assert f in l.docs - {d};
    }
    assert Remove(l, d).blobs == DeleteAll(l, {d}).blobs;
  }

  /** Deletion keeps the invariant, and nobody else's original changes. */
  lemma DeleteAllKeeps(l: Library, hash: Bytes -> string, ids: set<DocId>)
    requires Consistent(l, hash)
    ensures Consistent(DeleteAll(l, ids), hash)
    ensures forall e <- l.docs | e !in ids :: ReadOriginal(DeleteAll(l, ids), e) == ReadOriginal(l, e)
  {
    hide Names;
    var after := DeleteAll(l, ids);
    forall e <- after.docs
      ensures Kept(after, hash, e) && ReadOriginal(after, e) == ReadOriginal(l, e)
    {
      assert Kept(l, hash, e);
      assert after.docs[e].storageKey in StoredKeys(after.docs);
    }
    assert StoredKeys(after.docs) <= StoredKeys(l.docs);
    assert after.blobs.Keys == StoredKeys(after.docs);
  }

  lemma DeleteAllTwice(l: Library, ids: set<DocId>, more: set<DocId>)
    ensures DeleteAll(DeleteAll(l, ids), more) == DeleteAll(l, ids + more)
  {
    assert l.docs - ids - more == l.docs - (ids + more);
    assert StoredKeys(l.docs - (ids + more)) <= StoredKeys(l.docs - ids);
    assert DeleteAll(DeleteAll(l, ids), more).blobs == DeleteAll(l, ids + more).blobs;
  }

  /** In a consistent library the store never holds other content under the key. */
  lemma NoCollision(l: Library, hash: Bytes -> string, data: Bytes, extension: string)
    requires IsDigest(hash) && Consistent(l, hash)
    ensures var r := PersistOriginal(hash, l.blobs, data, hash(data), extension);
      r.Ok? <==> '\\' !in StorageKeyFor(hash(data), extension)
  {
    var key := StorageKeyFor(hash(data), extension);
    KeyNamesChecksum(hash(data), extension);
    if key in l.blobs {
      assert key in StoredKeys(l.docs);
      var d :| d in l.docs && l.docs[d].storageKey == key;
      assert Kept(l, hash, d);
    }
  }

  /** A new row and its original. */
  lemma InsertKeeps(l: Library, hash: Bytes -> string, doc: Doc, data: Bytes)
    requires Consistent(l, hash) && Names(doc.storageKey, doc.checksum)
    requires doc.storageKey in l.blobs ==> data == l.blobs[doc.storageKey]
    requires hash(data) == doc.checksum
    requires forall d <- l.docs :: l.docs[d].owner == doc.owner ==> l.docs[d].checksum != doc.checksum
    ensures var after := Library(l.docs[l.nextId := doc], l.blobs[doc.storageKey := data], l.nextId + 1);
      Consistent(after, hash) && forall e <- l.docs :: e in after.docs && ReadOriginal(after, e) == ReadOriginal(l, e)
  {
    hide Names, ChecksumsUnique, StoredKeys;
    var after := Library(l.docs[l.nextId := doc], l.blobs[doc.storageKey := data], l.nextId + 1);
    forall e <- l.docs ensures Kept(after, hash, e) && after.docs[e] == l.docs[e] && ReadOriginal(after, e) == ReadOriginal(l, e) {
      assert Kept(l, hash, e);
    }
    StoredAfter(l, after, l.nextId);
    InsertedUnique(l, doc);
  }

  lemma InsertedUnique(l: Library, doc: Doc)
    requires ChecksumsUnique(l.docs) && l.nextId !in l.docs
    requires forall d <- l.docs :: l.docs[d].owner == doc.owner ==> l.docs[d].checksum != doc.checksum
    ensures ChecksumsUnique(l.docs[l.nextId := doc])
  {
  }

  lemma StoreKeeps(l: Library, hash: Bytes -> string, u: Upload)
    requires IsDigest(hash) && Consistent(l, hash)
    requires forall d <- l.docs :: l.docs[d].owner == u.owner ==> l.docs[d].checksum != hash(u.data)
    ensures var r := Store(l, hash, u);
      r.Ok? ==>
        && Consistent(r.value.0, hash)
        && (forall e <- l.docs :: ReadOriginal(r.value.0, e) == ReadOriginal(l, e))
        && r.value.1 == Created(l.nextId) && r.value.0.nextId == l.nextId + 1
        && r.value.0.docs.Keys == l.docs.Keys + {l.nextId}
  {
    hide StorageKeyFor, Consistent, Names, ReadOriginal;
    var r := Store(l, hash, u);
    if r.Ok? {
      var key := StorageKeyFor(hash(u.data), u.extension);
      KeyNamesChecksum(hash(u.data), u.extension);
      var data := if key in l.blobs then l.blobs[key] else u.data;
      assert r.value.0.blobs == l.blobs[key := data];
      InsertKeeps(l, hash, r.value.0.docs[l.nextId], data);
    }
  }

  lemma StoredAfter(l: Library, after: Library, d: DocId)
    requires d in after.docs && d !in l.docs && after.docs == l.docs[d := after.docs[d]]
    ensures StoredKeys(after.docs) == StoredKeys(l.docs) + {after.docs[d].storageKey}
  {
    forall k <- StoredKeys(l.docs) ensures k in StoredKeys(after.docs) {
      var e :| e in l.docs && l.docs[e].storageKey == k;
      assert after.docs[e].storageKey == k;
    }
  }

  lemma ClearedKeeps(l: Library, hash: Bytes -> string, owner: OwnerId, checksum: string)
    requires Consistent(l, hash) && Find(l, owner, checksum, false).None?
    ensures var c := Cleared(l, owner, checksum);
      && Consistent(c, hash) && c.nextId == l.nextId && c.docs.Keys <= l.docs.Keys
      && (forall d <- c.docs :: c.docs[d].owner == owner ==> c.docs[d].checksum != checksum)
      && (forall e <- c.docs :: ReadOriginal(c, e) == ReadOriginal(l, e))
      && (forall e <- l.docs :: e !in c.docs ==> Matches(l.docs[e], owner, checksum, true))
  {
    hide Kept, StoredKeys, Shared;
    var twin := Find(l, owner, checksum, true);
    if twin.Some? {
      RemoveIsDeleteAll(l, hash, twin.value);
      DeleteAllKeeps(l, hash, {twin.value});
    }
    var c := Cleared(l, owner, checksum);
    forall d <- l.docs | l.docs[d].owner == owner && l.docs[d].checksum == checksum ensures d !in c.docs {
      assert !Matches(l.docs[d], owner, checksum, false);
      assert Matches(l.docs[d], owner, checksum, true);
    }
  }

  /** Ingest creates a document exactly when the upload passes every check and no active document of
      the owner has its bytes; a storage collision is not among the outcomes. */
  lemma IngestOutcome(l: Library, hash: Bytes -> string, u: Upload)
    requires IsDigest(hash) && Consistent(l, hash)
    ensures var r := Ingest(l, hash, u);
      var twin := exists d <- l.docs :: Matches(l.docs[d], u.owner, hash(u.data), false);
      && (r.Ok? && r.value.1.Created? <==>
          u.data != [] && u.acceptable && !twin && u.withinQuota && u.placement.Some? && '\\' !in StorageKeyFor(hash(u.data), u.extension))
      && (r.Ok? && r.value.1.Duplicate? <==> u.data != [] && u.acceptable && twin && u.onDuplicate == Skip)
      && r != Err(Collision)
  {
    hide Consistent, StorageKeyFor;
    if Find(l, u.owner, hash(u.data), false).None? {
      ClearedKeeps(l, hash, u.owner, hash(u.data));
      NoCollision(Cleared(l, u.owner, hash(u.data)), hash, u.data, u.extension);
    }
  }

  lemma ReadsItsChecksum(l: Library, hash: Bytes -> string, d: DocId)
    requires Consistent(l, hash) && d in l.docs
    ensures ReadOriginal(l, d).Some? && hash(ReadOriginal(l, d).value) == l.docs[d].checksum
  {
    hide Names, ChecksumsUnique, StoredKeys;
    assert Kept(l, hash, d);
  }

  lemma HoldsKey(l: Library, hash: Bytes -> string, key: string) returns (d: DocId)
    requires Consistent(l, hash) && key in l.blobs
    ensures d in l.docs && l.docs[d].storageKey == key && ReadOriginal(l, d) == Some(l.blobs[key])
  {
    hide Names, ChecksumsUnique, Kept;
    assert key in StoredKeys(l.docs);
    d :| d in l.docs && l.docs[d].storageKey == key;
  }

  /** The new document has the bytes given, or those that were stored under its key before. */
  lemma StoredUnderKey(c: Library, hash: Bytes -> string, u: Upload)
    requires IsDigest(hash) && Consistent(c, hash)
    ensures var r := Store(c, hash, u);
      r.Ok? ==>
        var got := ReadOriginal(r.value.0, c.nextId);
        && (got == Some(u.data) || exists e <- c.docs :: ReadOriginal(c, e) == got)
        && c.nextId in r.value.0.docs
        && r.value.0.docs[c.nextId] == Doc(u.owner, hash(u.data), StorageKeyFor(hash(u.data), u.extension), false, u.placement.value)
  {
    hide StorageKeyFor, Names, Consistent;
    var r, key := Store(c, hash, u), StorageKeyFor(hash(u.data), u.extension);
    if r.Ok? && key in c.blobs {
      var e := HoldsKey(c, hash, key);
    }
  }

  lemma StoreReadsBack(c: Library, hash: Bytes -> string, u: Upload)
    requires IsDigest(hash) && Consistent(c, hash)
    requires forall d <- c.docs :: c.docs[d].owner == u.owner ==> c.docs[d].checksum != hash(u.data)
    ensures var r := Store(c, hash, u);
      r.Ok? ==>
        var got := ReadOriginal(r.value.0, r.value.1.id);
        && got.Some? && hash(got.value) == hash(u.data)
        && (got.value == u.data || exists e <- c.docs :: ReadOriginal(c, e) == got)
        && r.value.0.docs[r.value.1.id] == Doc(u.owner, hash(u.data), StorageKeyFor(hash(u.data), u.extension), false, u.placement.value)
  {
    hide StorageKeyFor, Names, Consistent, ReadOriginal;
    var r := Store(c, hash, u);
    if r.Ok? {
      StoreKeeps(c, hash, u);
      ReadsItsChecksum(r.value.0, hash, c.nextId);
      StoredUnderKey(c, hash, u);
    }
  }

  /** What ingest stores can be read back: the new document's original has the digest of the bytes
      given, and is those very bytes unless other bytes with their digest are stored. */
  lemma IngestReadsBack(l: Library, hash: Bytes -> string, u: Upload)
    requires IsDigest(hash) && Consistent(l, hash)
    ensures var r := Ingest(l, hash, u);
      r.Ok? && r.value.1.Created? ==>
        var got := ReadOriginal(r.value.0, r.value.1.id);
        && got.Some? && hash(got.value) == hash(u.data)
        && (got.value == u.data || exists e <- l.docs :: ReadOriginal(l, e) == got)
        && r.value.0.docs[r.value.1.id] == Doc(u.owner, hash(u.data), StorageKeyFor(hash(u.data), u.extension), false, u.placement.value)
  {
    hide StorageKeyFor, Consistent, PersistOriginal, ReadOriginal;
    var r := Ingest(l, hash, u);
    if r.Ok? && r.value.1.Created? {
      var c := Cleared(l, u.owner, hash(u.data));
      ClearedKeeps(l, hash, u.owner, hash(u.data));
      StoreReadsBack(c, hash, u);
    }
  }

  // ------------------------------------------------------------ every step, every run

  /** A document that both states have reads the same in both, and no id is used twice. */
  ghost predicate SameOriginals(l: Library, after: Library) {
    && l.nextId <= after.nextId
    && forall e <- after.docs | e < l.nextId :: e in l.docs && ReadOriginal(after, e) == ReadOriginal(l, e)
  }

  lemma FlagsKeep(l: Library, hash: Bytes -> string, d: DocId, doc: Doc)
    requires Consistent(l, hash) && d in l.docs && doc == l.docs[d].(trashed := doc.trashed, inbox := doc.inbox)
    ensures Consistent(l.(docs := l.docs[d := doc]), hash) && SameOriginals(l, l.(docs := l.docs[d := doc]))
  {
    hide Names, StoredKeys;
    var after := l.(docs := l.docs[d := doc]);
    forall e <- after.docs ensures Kept(after, hash, e) && ReadOriginal(after, e) == ReadOriginal(l, e) {
      assert Kept(l, hash, e);
    }
    SameKeys(l.docs, d, doc);
  }

  lemma SameKeys(docs: map<DocId, Doc>, d: DocId, doc: Doc)
    requires d in docs && doc.storageKey == docs[d].storageKey
    ensures StoredKeys(docs[d := doc]) == StoredKeys(docs)
  {
    forall k <- StoredKeys(docs) ensures k in StoredKeys(docs[d := doc]) {
      var e :| e in docs && docs[e].storageKey == k;
      assert docs[d := doc][e].storageKey == k;
    }
  }

  lemma IngestKeeps(l: Library, hash: Bytes -> string, u: Upload)
    requires IsDigest(hash) && Consistent(l, hash)
    ensures var r := Ingest(l, hash, u); r.Ok? ==> Consistent(r.value.0, hash) && SameOriginals(l, r.value.0)
  {
    hide Consistent, PersistOriginal, StorageKeyFor;
    var r := Ingest(l, hash, u);
    if r.Ok? && r.value.1.Created? {
      ClearedKeeps(l, hash, u.owner, hash(u.data));
      StoreKeeps(Cleared(l, u.owner, hash(u.data)), hash, u);
    }
  }

  lemma StepKeeps(l: Library, hash: Bytes -> string, step: Step)
    requires IsDigest(hash) && Consistent(l, hash)
    ensures Consistent(Apply(l, hash, step), hash) && SameOriginals(l, Apply(l, hash, step))
  {
    hide Consistent, Ingest, DeleteAll, Remove;
    match step
    case IngestStep(u) => IngestKeeps(l, hash, u);
    case EmptyTrashStep(owner) =>
      DeletionKeeps(l, hash, Trashed(l, owner));
    case DeleteStep(d, owner, allowInbox) =>
      if d in l.docs {
        RemoveIsDeleteAll(l, hash, d);
        DeletionKeeps(l, hash, {d});
      }
    case RemoveStep(d, actor) =>
      if d in l.docs {
        RemoveIsDeleteAll(l, hash, d);
        DeletionKeeps(l, hash, {d});
      }
    case TrashStep(d, actor) =>
      if d in l.docs {
        FlagsKeep(l, hash, d, l.docs[d].(trashed := true, inbox := false));
      }
    case RestoreStep(d, actor, toInbox) =>
      if d in l.docs {
        FlagsKeep(l, hash, d, l.docs[d].(trashed := false, inbox := toInbox));
      }
    case MoveStep(d, actor, target, preserve) =>
      if d in l.docs {
        FlagsKeep(l, hash, d, l.docs[d].(trashed := false, inbox := preserve.GetOr(l.docs[d].inbox) || target == InboxFolder));
      }
  }

  lemma DeletionKeeps(l: Library, hash: Bytes -> string, ids: set<DocId>)
    requires Consistent(l, hash)
    ensures Consistent(DeleteAll(l, ids), hash) && SameOriginals(l, DeleteAll(l, ids))
  {
    hide Consistent, ReadOriginal;
    DeleteAllKeeps(l, hash, ids);
  }

  /** Over every run the store holds exactly the referenced originals, and a document that survives
      the run reads the same bytes after it as before. */
  lemma {:induction false} RunKeeps(l: Library, hash: Bytes -> string, steps: seq<Step>)
    requires IsDigest(hash) && Consistent(l, hash)
    ensures Consistent(Run(l, hash, steps), hash) && SameOriginals(l, Run(l, hash, steps))
    decreases |steps|
  {
    hide Consistent, Apply, ReadOriginal;
    if steps != [] {
      StepKeeps(l, hash, steps[0]);
      RunKeeps(Apply(l, hash, steps[0]), hash, steps[1..]);
    }
  }
}
