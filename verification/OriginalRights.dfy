/** Which documents an operation may delete or change, and what it answers, from the rows alone. */
module OriginalRights {
  import opened Wrappers
  import opened Originals

  /** An upload that passes every check. */
  ghost predicate Storable(l: Library, hash: Bytes -> string, u: Upload)
    requires IsDigest(hash)
  {
    && u.data != [] && u.acceptable && u.withinQuota && u.placement.Some?
    && '\\' !in StorageKeyFor(hash(u.data), u.extension)
    && (forall e <- l.docs :: l.docs[e].owner == u.owner && l.docs[e].checksum == hash(u.data) ==> l.docs[e].trashed)
  }

  /** The step may delete the document for good: only its owner or a caller without an owner can, and
      only from the trash or from the inbox; an upload replaces the owner's trashed duplicate. */
  ghost predicate MayGo(l: Library, hash: Bytes -> string, step: Step, d: DocId)
    requires IsDigest(hash) && d in l.docs
  {
    var doc := l.docs[d];
    match step
    case DeleteStep(x, owner, allowInbox) =>
      x == d && (owner == None || owner == Some(doc.owner)) && (doc.trashed || (allowInbox && doc.inbox))
    case RemoveStep(x, actor) => x == d && doc.owner == actor && doc.inbox && !doc.trashed
    case EmptyTrashStep(owner) => doc.trashed && (owner == None || owner == Some(doc.owner))
    case IngestStep(u) => doc.trashed && doc.owner == u.owner && doc.checksum == hash(u.data) && Storable(l, hash, u)
    case _ => false
  }

  lemma GoesByHand(l: Library, hash: Bytes -> string, step: Step, d: DocId)
    requires IsDigest(hash) && d in l.docs && !step.IngestStep?
    ensures d !in Apply(l, hash, step).docs <==> MayGo(l, hash, step, d)
  {
    hide StorageKeyFor, Names;
  }

  /** What an upload clears away first. */
  lemma ClearedGoes(l: Library, owner: OwnerId, checksum: string, d: DocId)
    requires ChecksumsUnique(l.docs) && d in l.docs
    ensures d !in Cleared(l, owner, checksum).docs <==>
      l.docs[d].owner == owner && l.docs[d].checksum == checksum && l.docs[d].trashed
  {
    TwinIs(l, owner, checksum, d);
    hide Shared, Find;
  }

  lemma NoActiveTwin(l: Library, owner: OwnerId, checksum: string)
    ensures Find(l, owner, checksum, false).None? <==>
      forall e <- l.docs :: l.docs[e].owner == owner && l.docs[e].checksum == checksum ==> l.docs[e].trashed
  {
    assert forall e <- l.docs ::
      (Matches(l.docs[e], owner, checksum, false) <==> l.docs[e].owner == owner && l.docs[e].checksum == checksum && !l.docs[e].trashed);
  }

  /** An upload clears the trashed duplicate away and stores, or changes nothing. */
  lemma UploadIs(l: Library, hash: Bytes -> string, u: Upload)
    requires IsDigest(hash)
    ensures var c := Cleared(l, u.owner, hash(u.data));
      Apply(l, hash, IngestStep(u)) ==
        if u.data != [] && u.acceptable && Find(l, u.owner, hash(u.data), false).None? && Store(c, hash, u).Ok?
        then Store(c, hash, u).value.0 else l
  {
    hide Store, Cleared, Find;
  }

  lemma GoesByUpload(l: Library, hash: Bytes -> string, u: Upload, d: DocId)
    requires IsDigest(hash) && Consistent(l, hash) && d in l.docs
    ensures d !in Apply(l, hash, IngestStep(u)).docs <==> MayGo(l, hash, IngestStep(u), d)
  {
    UniqueRows(l, hash);
    hide StorageKeyFor, Consistent, Find, PersistOriginal, Cleared, Store, ReadOriginal, ChecksumsUnique, Matches, Apply;
    var c := Cleared(l, u.owner, hash(u.data));
    UploadIs(l, hash, u);
    NoActiveTwin(l, u.owner, hash(u.data));
    if Find(l, u.owner, hash(u.data), false).None? {
      ClearedKeeps(l, hash, u.owner, hash(u.data));
      ClearedGoes(l, u.owner, hash(u.data), d);
      NewIsNew(l, hash, d);
      StoreKeeps(c, hash, u);
      StoreOutcome(c, hash, u);
    }
  }

  lemma UniqueRows(l: Library, hash: Bytes -> string)
    requires Consistent(l, hash)
    ensures ChecksumsUnique(l.docs)
  {
  }

  lemma StoreOutcome(c: Library, hash: Bytes -> string, u: Upload)
    requires IsDigest(hash) && Consistent(c, hash)
    ensures Store(c, hash, u).Ok? <==>
      u.withinQuota && u.placement.Some? && '\\' !in StorageKeyFor(hash(u.data), u.extension)
  {
    hide StorageKeyFor, Consistent;
    NoCollision(c, hash, u.data, u.extension);
  }

  lemma NewIsNew(l: Library, hash: Bytes -> string, d: DocId)
    requires Consistent(l, hash) && d in l.docs
    ensures d != l.nextId
  {
    assert Kept(l, hash, d);
  }

  /** The trashed duplicate is the only one, if there is no active one. */
  lemma TwinIs(l: Library, owner: OwnerId, checksum: string, d: DocId)
    requires ChecksumsUnique(l.docs) && d in l.docs
    ensures Find(l, owner, checksum, true) == Some(d) <==> Matches(l.docs[d], owner, checksum, true)
  {
  }

  /** A document goes for good exactly by a step that may delete it. */
  lemma GoesExactly(l: Library, hash: Bytes -> string, step: Step, d: DocId)
    requires IsDigest(hash) && Consistent(l, hash) && d in l.docs
    ensures d !in Apply(l, hash, step).docs <==> MayGo(l, hash, step, d)
  {
    hide Apply, MayGo;
    if step.IngestStep? {
      GoesByUpload(l, hash, step.upload, d);
    } else {
      GoesByHand(l, hash, step, d);
    }
  }

  /** Over every run: a document that is gone was deleted by a step that might delete it then. */
  lemma {:induction false} RunGoes(l: Library, hash: Bytes -> string, steps: seq<Step>, d: DocId) returns (i: nat)
    requires IsDigest(hash) && Consistent(l, hash) && d in l.docs && d !in Run(l, hash, steps).docs
    ensures i < |steps| && d in Run(l, hash, steps[..i]).docs && MayGo(Run(l, hash, steps[..i]), hash, steps[i], d)
    decreases |steps|
  {
    hide Apply, MayGo, Consistent;
    if d !in Apply(l, hash, steps[0]).docs {
      GoesExactly(l, hash, steps[0], d);
      i := 0;
      assert steps[..0] == [];
    } else {
      StepKeeps(l, hash, steps[0]);
      i := RunGoes(Apply(l, hash, steps[0]), hash, steps[1..], d);
      i := i + 1;
      assert steps[..i][0] == steps[0] && steps[..i][1..] == steps[1..][..i - 1];
    }
  }

  /** The flags of a document after a step on it by its owner. */
  predicate Untouched(doc: Doc, d: DocId, step: Step) {
    !((step == TrashStep(d, doc.owner) && !doc.trashed)
      || (step.RestoreStep? && step.d == d && step.actor == doc.owner && doc.trashed)
      || (step.MoveStep? && step.d == d && step.actor == doc.owner && step.target != TrashFolder))
  }

  lemma StaysByUpload(l: Library, hash: Bytes -> string, u: Upload, d: DocId)
    requires IsDigest(hash) && Consistent(l, hash) && d in l.docs && d in Apply(l, hash, IngestStep(u)).docs
    ensures Apply(l, hash, IngestStep(u)).docs[d] == l.docs[d]
  {
    NewIsNew(l, hash, d);
    UploadIs(l, hash, u);
    hide Apply, PersistOriginal, Shared, Find, Consistent;
  }

  /** What a step makes of a document that stays: only its owner can trash, restore or move it, and only
      its flags change. */
  lemma StaysExactly(l: Library, hash: Bytes -> string, step: Step, d: DocId)
    requires IsDigest(hash) && Consistent(l, hash) && d in l.docs && d in Apply(l, hash, step).docs
    ensures var doc, after := l.docs[d], Apply(l, hash, step).docs[d];
      && after == doc.(trashed := after.trashed, inbox := after.inbox)
      && (Untouched(doc, d, step) ==> after == doc)
      && (!Untouched(doc, d, step) ==>
            && after.trashed == step.TrashStep?
            && (step.TrashStep? ==> !after.inbox)
            && (step.RestoreStep? ==> after.inbox == step.toInbox)
            && (step.MoveStep? ==>
                  (after.inbox <==> step.target == InboxFolder
                                    || (if step.preserveInbox.Some? then step.preserveInbox.value else doc.inbox))))
  {
    hide Consistent, Shared, Ingest, Trashed;
    if step.IngestStep? {
      StaysByUpload(l, hash, step.upload, d);
    }
  }

  // ------------------------------------------------------------ answers

  /** The document of a step is there for its caller. */
  predicate Reachable(l: Library, d: DocId, caller: Option<OwnerId>) {
    d in l.docs && (caller == None || caller == Some(l.docs[d].owner))
  }

  /** Every call on a document answers "not found" exactly for one that is not there for the caller, and
      refuses exactly what the trash and inbox rules forbid. */
  lemma AnswersExactly(l: Library, hash: Bytes -> string, step: Step)
    requires IsDigest(hash) && !step.IngestStep? && !step.EmptyTrashStep?
    ensures var r, caller := Attempt(l, hash, step), if step.DeleteStep? then step.owner else Some(step.actor);
      && (r == Err(NotFound) <==> !Reachable(l, step.d, caller))
      && (r == Err(Validation) <==> Reachable(l, step.d, caller) && (match step
            case DeleteStep(d, _, allowInbox) => !l.docs[d].trashed && !(l.docs[d].inbox && allowInbox)
            case RemoveStep(d, _) => l.docs[d].trashed || !l.docs[d].inbox
            case MoveStep(_, _, target, _) => target == TrashFolder
            case _ => false))
      && (r.Ok? || r == Err(NotFound) || r == Err(Validation))
  {
    hide Shared;
  }

  /** What ingest answers, check by check. */
  lemma IngestAnswers(l: Library, hash: Bytes -> string, u: Upload)
    requires IsDigest(hash) && Consistent(l, hash)
    ensures var r := Ingest(l, hash, u);
      var twin := exists e <- l.docs :: l.docs[e].owner == u.owner && l.docs[e].checksum == hash(u.data) && !l.docs[e].trashed;
      var sound := u.data != [] && u.acceptable;
      && (!sound ==> r == Err(Validation))
      && (sound && twin && u.onDuplicate == RaiseError ==>
            r.Err? && r.error.DuplicateDocument? && r.error.existing in l.docs
            && (var e := r.error.existing;
                l.docs[e].owner == u.owner && l.docs[e].checksum == hash(u.data) && !l.docs[e].trashed))
      && (sound && !twin && !u.withinQuota ==> r == Err(QuotaExceeded))
      && (sound && !twin && u.withinQuota && u.placement.None? ==> r == Err(NotFound))
      && (sound && !twin && u.withinQuota && u.placement.Some? && '\\' in StorageKeyFor(hash(u.data), u.extension) ==>
            r == Err(Validation))
  {
    hide StorageKeyFor, Consistent, Shared;
  }
}
