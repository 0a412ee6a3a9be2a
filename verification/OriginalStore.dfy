/** The ingest and deletion calls over a mutable document table and store of originals. */
module OriginalStore {
  import opened Wrappers
  import opened Originals

  class DocumentStore {
    const hash: Bytes -> string
    var docs: map<DocId, Doc>
    var blobs: map<string, Bytes>
    var nextId: DocId

    ghost function View(): Library
      reads this
    {
      Library(docs, blobs, nextId)
    }

    ghost predicate Valid()
      reads this
    {
      IsDigest(hash) && Consistent(View(), hash)
    }

    constructor (hash: Bytes -> string)
      requires IsDigest(hash)
      ensures Valid() && View() == EMPTY && this.hash == hash
    {
      this.hash := hash;
      docs, blobs, nextId := map[], map[], 0;
      new;
      EmptyIsConsistent(hash);
    }

    /** `find_by_checksum` and `find_trashed_by_checksum`. */
    method FindByChecksum(owner: OwnerId, checksum: string, trashed: bool) returns (found: Option<DocId>)
      requires Valid()
      ensures found == Find(View(), owner, checksum, trashed)
    {
      hide Kept, StoredKeys;
      var rest := docs.Keys;
      while rest != {}
        invariant rest <= docs.Keys
        invariant forall d <- docs.Keys - rest :: !Matches(docs[d], owner, checksum, trashed)
        decreases rest
      {
        var d :| d in rest;
        if Matches(docs[d], owner, checksum, trashed) {
          assert forall e <- docs :: Matches(docs[e], owner, checksum, trashed) ==> e == d;
          return Some(d);
        }
        rest := rest - {d};
      }
      assert docs.Keys - rest == docs.Keys;
      return None;
    }

    method Persist(data: Bytes, checksum: string, extension: string) returns (r: Result<string>)
      requires |checksum| == DIGEST_LENGTH
      modifies this`blobs
      ensures var spec := PersistOriginal(hash, old(blobs), data, checksum, extension);
        if spec.Ok? then r == Ok(spec.value.1) && blobs == spec.value.0 else r == Err(spec.error) && blobs == old(blobs)
      ensures var key := StorageKeyFor(checksum, extension);
        && (r == Err(Validation) <==> '\\' in key)
        && (r == Err(Collision) <==> '\\' !in key && key in old(blobs) && hash(old(blobs)[key]) != checksum)
        && (r.Ok? <==> '\\' !in key && (key in old(blobs) ==> hash(old(blobs)[key]) == checksum))
        && (r.Ok? ==> r == Ok(key) && key in blobs && hash(blobs[key]) == hash(if key in old(blobs) then old(blobs)[key] else data))
    {
      var key := StorageKeyFor(checksum, extension);
      if '\\' in key {
        return Err(Validation);
      }
      if key in blobs {
        var existing := hash(blobs[key]);
        if existing == checksum {
          return Ok(key);
        }
        return Err(Collision);
      }
      blobs := blobs[key := data];
      return Ok(key);
    }

    /** The row first, then the original if no other row names it. */
    method PermanentlyDeleteDocument(d: DocId, owner: Option<OwnerId>, allowInbox: bool) returns (r: Result<()>)
      requires Valid()
      modifies this`docs, this`blobs
      ensures var spec := PermanentlyDelete(old(View()), d, owner, allowInbox);
        if spec.Ok? then r == Ok(()) && View() == spec.value else r == Err(spec.error) && View() == old(View())
      ensures r.Ok? <==>
        && d in old(docs) && (owner == None || owner == Some(old(docs)[d].owner))
        && (old(docs)[d].trashed || (allowInbox && old(docs)[d].inbox))
      ensures docs == if r.Ok? then old(docs) - {d} else old(docs)
      ensures Valid()
    {
      hide Consistent;
      if !(d in docs && (owner.None? || docs[d].owner == owner.value)) {
        return Err(NotFound);
      }
      if !docs[d].trashed && !(allowInbox && docs[d].inbox) {
        return Err(Validation);
      }
      ghost var l := View();
      var key := docs[d].storageKey;
      var sharing := set e | e in docs && docs[e].storageKey == key && e != d;
      if e :| e in docs && e != d && docs[e].storageKey == key {
        assert e in sharing;
      }
      docs := docs - {d};
      if sharing == {} {
        blobs := blobs - {key};
      }
      RemoveIsDeleteAll(l, hash, d);
      DeleteAllKeeps(l, hash, {d});
      return Ok(());
    }

    method RemoveFromInbox(d: DocId, owner: OwnerId) returns (r: Result<()>)
      requires Valid()
      modifies this`docs, this`blobs
      ensures var spec := RemoveFromQueue(old(View()), d, owner);
        if spec.Ok? then r == Ok(()) && View() == spec.value else r == Err(spec.error) && View() == old(View())
      ensures Valid()
    {
      hide Consistent;
      if !(d in docs && docs[d].owner == owner) {
        return Err(NotFound);
      }
      if !docs[d].inbox {
        return Err(Validation);
      }
      if docs[d].trashed {
        return Err(Validation);
      }
      r := PermanentlyDeleteDocument(d, Some(owner), true);
    }

    /** An error rolls the rows and the store back. */
    method IngestBytes(u: Upload) returns (r: Result<Ingested>)
      requires Valid()
      modifies this
      ensures var spec := Ingest(old(View()), hash, u);
        if spec.Ok? then r == Ok(spec.value.1) && View() == spec.value.0 else r == Err(spec.error) && View() == old(View())
      ensures Valid()
    {
      hide Consistent, PersistOriginal;
      ghost var l := View();
      if u.data == [] {
        return Err(Validation);
      }
      if !u.acceptable {
        return Err(Validation);
      }
      var checksum := hash(u.data);
      var existing := FindByChecksum(u.owner, checksum, false);
      if existing.Some? {
        if u.onDuplicate == Skip {
          return Ok(Duplicate(existing.value));
        }
        return Err(DuplicateDocument(existing.value));
      }
      IngestKeeps(l, hash, u);
      var docsBefore, blobsBefore := docs, blobs;
      var trashed := FindByChecksum(u.owner, checksum, true);
      if trashed.Some? {
        var deleted := PermanentlyDeleteDocument(trashed.value, Some(u.owner), false);
        assert deleted.Ok?;
      }
      assert View() == Cleared(l, u.owner, checksum);
      r := StoreUpload(u, checksum);
      if r.Err? {
        docs, blobs := docsBefore, blobsBefore;
      }
    }

    method StoreUpload(u: Upload, checksum: string) returns (r: Result<Ingested>)
      requires IsDigest(hash) && checksum == hash(u.data)
      modifies this
      ensures var spec := Store(old(View()), hash, u);
        if spec.Ok? then r == Ok(spec.value.1) && View() == spec.value.0 else r == Err(spec.error) && View() == old(View())
    {
      hide PersistOriginal;
      if !u.withinQuota {
        return Err(QuotaExceeded);
      }
      if u.placement.None? {
        return Err(NotFound);
      }
      var key := Persist(u.data, checksum, u.extension);
      if key.Err? {
        return Err(key.error);
      }
      var id := nextId;
      docs := docs[id := Doc(u.owner, checksum, key.value, false, u.placement.value)];
      nextId := nextId + 1;
      return Ok(Created(id));
    }

    /** Every trashed document, one permanent deletion after the other. */
    method EmptyTrash(owner: Option<OwnerId>) returns (deleted: nat)
      requires Valid()
      modifies this`docs, this`blobs
      ensures View() == DeleteAll(old(View()), Trashed(old(View()), owner)) && Valid()
      ensures deleted == |Trashed(old(View()), owner)|
    {
      hide Consistent, DeleteAll;
      ghost var l := View();
      var ids := set d | d in docs && docs[d].trashed && (owner.None? || docs[d].owner == owner.value);
      assert ids == Trashed(l, owner);
      deleted := 0;
      var rest := ids;
      DeleteNone(l, hash);
      assert ids - rest == {};
      while rest != {}
        invariant rest <= ids && deleted == |ids| - |rest|
        invariant View() == DeleteAll(l, ids - rest) && Valid()
        decreases rest
      {
        var d :| d in rest;
        StillThere(l, ids - rest, d);
        RemoveIsDeleteAll(View(), hash, d);
        DeleteAllTwice(l, ids - rest, {d});
        var r := PermanentlyDeleteDocument(d, owner, false);
        assert ids - rest + {d} == ids - (rest - {d});
        rest := rest - {d};
        deleted := deleted + 1;
      }
      assert ids - rest == ids;
    }

    /** Reading finds every document's original, with the content its checksum promises. */
    method ReadOriginalOf(d: DocId) returns (r: Result<Bytes>)
      requires Valid()
      ensures r.Ok? <==> d in docs
      ensures r.Ok? ==> ReadOriginal(View(), d) == Some(r.value) && hash(r.value) == docs[d].checksum
    {
      if d !in docs {
        return Err(NotFound);
      }
      assert Kept(View(), hash, d);
      if docs[d].storageKey !in blobs {
        return Err(NotFound);
      }
      return Ok(blobs[docs[d].storageKey]);
    }
  }

  lemma DeleteNone(l: Library, hash: Bytes -> string)
    requires Consistent(l, hash)
    ensures DeleteAll(l, {}) == l
  {
    assert l.docs - {} == l.docs;
  }

  lemma StillThere(l: Library, ids: set<DocId>, d: DocId)
    requires d in l.docs && d !in ids
    ensures d in DeleteAll(l, ids).docs && DeleteAll(l, ids).docs[d] == l.docs[d]
  {
  }
}
