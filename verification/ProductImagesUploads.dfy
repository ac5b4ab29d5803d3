/**
 What one request of the server does when nothing comes in between: presigned records, uploads in both
 ways of publishing, uploads that fail, and product deletes. Interleavings are the subject of
 ProductImagesSafety.dfy.
 */
module ProductImagesUploads {
  import opened Wrappers
  import opened ProductImages
  import opened ProductImagesRecovery

  /** A presigned record is new, pending, and stands at a key that was issued for it. */
  lemma PresignedRecordsArePending(s: State, f: FileId, kind: Kind, ext: nat)
    ensures var db := Next(s, NewFile(f, kind, ext)).db;
      if f in s.db.issued then db == s.db
      else
        && f in db.files && db.files[f].kind == kind && db.files[f].key == Issued(f, ext) && !db.files[f].pass
        && db == s.db.(files := s.db.files[f := db.files[f]], issued := s.db.issued + {f})
  {
  }

  // The key the record lets an upload publish to. A product image keeps its key, which must be of the
  // detail profile; other files may replace the extension of the key they were issued.
  predicate MayPublishTo(rec: FileRecord, ext: nat, k: Key) {
    if rec.kind == ProductImage then !rec.key.Legacy? && k == rec.key
    else rec.key.Issued? && k == Issued(rec.key.file, ext)
  }

  // The record holds this content, accepted, under this key.
  predicate Accepted(a: Store, b: Store, f: FileId, k: Key, c: Blob) {
    && f in a.files
    && b == a.(disk := a.disk[k := c], original := a.original[f := c],
               files := a.files[f := a.files[f].(key := k, pass := true,
                                                 meta := Meta(Some(k), a.files[f].meta.jpeg, |c|))])
  }

  lemma RunThree(s: State, a: Step, b: Step, c: Step)
    ensures Run(s, [a, b, c]) == Next(Next(Next(s, a), b), c)
  {
    assert [a, b, c][1..] == [b, c] && [b, c][1..] == [c] && [c][1..] == [];
    assert Run(Next(Next(s, a), b), [c]) == Run(Next(Next(Next(s, a), b), c), []);
  }

  lemma RunFour(s: State, a: Step, b: Step, c: Step, d: Step)
    ensures Run(s, [a, b, c, d]) == Next(Next(Next(Next(s, a), b), c), d)
  {
    assert [a, b, c, d][1..] == [b, c, d];
    RunThree(Next(s, a), b, c, d);
  }

  /**
   An upload of some content succeeds exactly if the record exists and lets it publish to a key that is
   free; the object is then the content, whether it was linked or written, and the record is accepted.
   */
  lemma UploadsAreAcceptedIff(s: State, u: nat, f: FileId, ext: nat, c: Blob, k: Key, partial: Blob)
    requires u !in s.uploads && f in s.db.files && MayPublishTo(s.db.files[f], ext, k)
    ensures var linked := Run(s, [UploadBy(u, Load(f, ext, c), partial), UploadBy(u, PublishLink, partial),
                                  UploadBy(u, UpdateRecord, partial)]);
      linked.uploads == s.uploads
      && if c != "" && k !in s.db.disk then Accepted(s.db, linked.db, f, k, c) else linked.db == s.db
    ensures var written := Run(s, [UploadBy(u, Load(f, ext, c), partial), UploadBy(u, PublishCreate, partial),
                                   UploadBy(u, FinishWrite, partial), UploadBy(u, UpdateRecord, partial)]);
      written.uploads == s.uploads
      && if c != "" && k !in s.db.disk then Accepted(s.db, written.db, f, k, c) else written.db == s.db
  {
    var load := UploadBy(u, Load(f, ext, c), partial);
    RunThree(s, load, UploadBy(u, PublishLink, partial), UploadBy(u, UpdateRecord, partial));
    RunFour(s, load, UploadBy(u, PublishCreate, partial), UploadBy(u, FinishWrite, partial),
            UploadBy(u, UpdateRecord, partial));
    LinkedUpload(s, u, f, ext, c, k, partial);
    WrittenUpload(s, u, f, ext, c, k, partial);
  }

  lemma LoadStep(s: State, u: nat, f: FileId, ext: nat, c: Blob, k: Key, partial: Blob)
    requires u !in s.uploads && f in s.db.files && MayPublishTo(s.db.files[f], ext, k)
    ensures Next(s, UploadBy(u, Load(f, ext, c), partial))
         == if c == "" then s else s.(uploads := s.uploads[u := Loaded(f, k, c)])
  {
  }

  lemma LinkedUpload(s: State, u: nat, f: FileId, ext: nat, c: Blob, k: Key, partial: Blob)
    requires u !in s.uploads && f in s.db.files && MayPublishTo(s.db.files[f], ext, k)
    ensures var t := Next(Next(Next(s, UploadBy(u, Load(f, ext, c), partial)), UploadBy(u, PublishLink, partial)),
                          UploadBy(u, UpdateRecord, partial));
      t.uploads == s.uploads && if c != "" && k !in s.db.disk then Accepted(s.db, t.db, f, k, c) else t.db == s.db
  {
    LoadStep(s, u, f, ext, c, k, partial);
    assert s.uploads[u := Loaded(f, k, c)] - {u} == s.uploads;
    assert s.uploads[u := Loaded(f, k, c)][u := Published(f, k, c)] - {u} == s.uploads;
  }

  // The object is created and then fully written.
  lemma WriteSteps(s: State, u: nat, f: FileId, c: Blob, k: Key, partial: Blob)
    requires u in s.uploads && s.uploads[u] == Loaded(f, k, c)
    ensures Next(Next(s, UploadBy(u, PublishCreate, partial)), UploadBy(u, FinishWrite, partial)) ==
      if k in s.db.disk then s.(uploads := s.uploads - {u})
      else State(PutObject(s.db, k, c), s.uploads[u := Published(f, k, c)], s.deletes, s.command)
  {
    assert s.uploads[u := Writing(f, k, c)][u := Published(f, k, c)] == s.uploads[u := Published(f, k, c)];
    assert s.db.disk[k := partial][k := c] == s.db.disk[k := c];
  }

  lemma WrittenUpload(s: State, u: nat, f: FileId, ext: nat, c: Blob, k: Key, partial: Blob)
    requires u !in s.uploads && f in s.db.files && MayPublishTo(s.db.files[f], ext, k)
    ensures var created := Next(Next(s, UploadBy(u, Load(f, ext, c), partial)), UploadBy(u, PublishCreate, partial));
      var t := Next(Next(created, UploadBy(u, FinishWrite, partial)), UploadBy(u, UpdateRecord, partial));
      t.uploads == s.uploads && if c != "" && k !in s.db.disk then Accepted(s.db, t.db, f, k, c) else t.db == s.db
  {
    LoadStep(s, u, f, ext, c, k, partial);
    if c != "" {
      WriteSteps(s.(uploads := s.uploads[u := Loaded(f, k, c)]), u, f, c, k, partial);
      assert s.uploads[u := Loaded(f, k, c)] - {u} == s.uploads;
      assert s.uploads[u := Loaded(f, k, c)][u := Published(f, k, c)] - {u} == s.uploads;
    }
  }

  /** A record that lets no upload publish anywhere refuses it: a product image at a legacy key. */
  lemma RefusedUploadsChangeNothing(s: State, u: nat, f: FileId, ext: nat, c: Blob, partial: Blob)
    requires u !in s.uploads && (f !in s.db.files || forall k :: !MayPublishTo(s.db.files[f], ext, k))
    ensures Next(s, UploadBy(u, Load(f, ext, c), partial)) == s
    ensures f in s.db.files && s.db.files[f].kind == ProductImage ==> s.db.files[f].key.Legacy?
  {
    if f in s.db.files {
      var rec := s.db.files[f];
      assert !MayPublishTo(rec, ext, rec.key);
      assert rec.key.Issued? ==> !MayPublishTo(rec, ext, Issued(rec.key.file, ext));
    }
  }

  lemma UndoneUpload(s: State, u: nat, f: FileId, k: Key, c: Blob, partial: Blob)
    requires u in s.uploads && s.uploads[u] == Loaded(f, k, c) && k !in s.db.disk
    ensures Next(Next(Next(s, UploadBy(u, PublishLink, partial)), UploadBy(u, UpdateFails, partial)),
                 UploadBy(u, Undo, partial)) == s.(uploads := s.uploads - {u})
  {
    assert s.db.disk[k := c] - {k} == s.db.disk;
    assert s.uploads[u := Published(f, k, c)][u := Undoing(f, k, c)] - {u} == s.uploads - {u};
  }

  lemma UnwrittenUpload(s: State, u: nat, f: FileId, k: Key, c: Blob, partial: Blob)
    requires u in s.uploads && s.uploads[u] == Loaded(f, k, c) && k !in s.db.disk
    ensures Next(Next(s, UploadBy(u, PublishCreate, partial)), UploadBy(u, FailWrite, partial))
         == s.(uploads := s.uploads - {u})
  {
    assert s.db.disk[k := partial] - {k} == s.db.disk;
    assert s.uploads[u := Writing(f, k, c)] - {u} == s.uploads - {u};
  }

  /** An upload whose record update fails removes the object it published, one that fails to write likewise. */
  lemma FailedUploadsLeaveNothing(s: State, u: nat, f: FileId, k: Key, c: Blob, partial: Blob)
    requires u in s.uploads && s.uploads[u] == Loaded(f, k, c) && k !in s.db.disk
    ensures Run(s, [UploadBy(u, PublishLink, partial), UploadBy(u, UpdateFails, partial), UploadBy(u, Undo, partial)])
         == s.(uploads := s.uploads - {u})
    ensures Next(Next(s, UploadBy(u, PublishCreate, partial)), UploadBy(u, FailWrite, partial))
         == s.(uploads := s.uploads - {u})
  {
    hide Next;
    RunThree(s, UploadBy(u, PublishLink, partial), UploadBy(u, UpdateFails, partial), UploadBy(u, Undo, partial));
    UndoneUpload(s, u, f, k, c, partial);
    UnwrittenUpload(s, u, f, k, c, partial);
  }

  // ----- product deletes ---------------------------------------------------------------------------

  /**
   A product delete drops exactly the product images among the files it may collect, in one step, and is
   then about to remove exactly the objects these records stood at.
   */
  lemma DeletesDropTheirImages(s: State, d: nat, ids: set<FileId>)
    requires d !in s.deletes
    ensures var t := Next(Next(s, DeleteBy(d, Collect(ids))), DeleteBy(d, CommitDelete));
      && (forall f :: f in t.db.files <==> f in s.db.files && !(f in ids && s.db.files[f].kind == ProductImage))
      && (forall f | f in t.db.files :: t.db.files[f] == s.db.files[f])
      && t.db == s.db.(files := t.db.files)
      && d in t.deletes && t.deletes[d].Removing?
      && (forall k :: k in t.deletes[d].objects <==>
            exists f | f in ids && f in s.db.files && s.db.files[f].kind == ProductImage :: s.db.files[f].key == k)
  {
    var c := Next(s, DeleteBy(d, Collect(ids)));
    var keys := c.deletes[d].keys;
    assert forall f :: f in keys <==> f in ids && f in s.db.files && s.db.files[f].kind == ProductImage;
    forall k ensures k in keys.Values <==>
      exists f | f in ids && f in s.db.files && s.db.files[f].kind == ProductImage :: s.db.files[f].key == k
    {
      if k in keys.Values {
        var f :| f in keys && keys[f] == k;
        assert s.db.files[f].key == k;
      }
      if f :| f in ids && f in s.db.files && s.db.files[f].kind == ProductImage && s.db.files[f].key == k {
        assert f in keys && keys[f] == k;
      }
    }
  }

  /** One after the other these objects are removed, and no other object is. */
  lemma DeletesRemoveTheirObjects(s: State, d: nat, k: Key)
    requires d in s.deletes && s.deletes[d].Removing?
    ensures Next(s, DeleteBy(d, Remove(k)))
         == if k in s.deletes[d].objects then
              s.(db := s.db.(disk := s.db.disk - {k}), deletes := s.deletes[d := Removing(s.deletes[d].objects - {k})])
            else s
  {
  }
}
