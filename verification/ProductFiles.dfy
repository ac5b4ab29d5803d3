/**
 What deleting a product does to file records: those that only this product used go with it.

 Only the part of the delete after its status and reference checks is here. File references are the
 image rows of products and the cover of products that are not deleted.
 */
module ProductFiles {
  import opened Strings
  import opened Wrappers

  type ProductId = nat
  type FileId = nat
  type MerchantId = nat
  type AccountId = nat

  datatype ImageRow = ImageRow(product: ProductId, file: FileId)

  datatype ProductRow = ProductRow(cover: Option<FileId>, deleted: bool)

  datatype FileRow = FileRow(productImage: bool, byMerchant: bool, uploader: Option<AccountId>, key: string)

  datatype Tables = Tables(
    images: map<nat, ImageRow>, products: map<ProductId, ProductRow>, files: map<FileId, FileRow>,
    accounts: map<AccountId, MerchantId>)

  // ----- references ------------------------------------------------------------------------------------

  // 0 stands for no file.
  predicate Uses(t: Tables, p: ProductId, f: FileId) {
    f > 0 && ((exists i | i in t.images :: t.images[i] == ImageRow(p, f))
              || (p in t.products && t.products[p].cover == Some(f)))
  }

  predicate UsedElsewhere(t: Tables, p: ProductId, f: FileId) {
    || (exists i | i in t.images :: t.images[i].file == f && t.images[i].product != p)
    || (exists q | q in t.products :: q != p && !t.products[q].deleted && t.products[q].cover == Some(f))
  }

  // An account that is not found counts as merchant 0.
  function MerchantOf(t: Tables, a: AccountId): MerchantId { if a in t.accounts then t.accounts[a] else 0 }

  // The record is a product image uploaded by an account of the merchant.
  predicate Owned(t: Tables, f: FileId, merchant: MerchantId) {
    f in t.files && t.files[f].productImage && t.files[f].byMerchant && t.files[f].uploader.Some?
    && MerchantOf(t, t.files[f].uploader.value) == merchant
  }

  predicate Garbage(t: Tables, p: ProductId, merchant: MerchantId, f: FileId) {
    Uses(t, p, f) && !UsedElsewhere(t, p, f) && Owned(t, f, merchant)
  }

  // In full: a product image uploaded by an account of the merchant, which this product shows or has as its
  // cover, and no other product shows and none in use has as its cover.
  ghost predicate GoesWith(t: Tables, p: ProductId, merchant: MerchantId, f: FileId) {
    && f in t.files && t.files[f].productImage && t.files[f].byMerchant
    && t.files[f].uploader.Some?
    && (if t.files[f].uploader.value in t.accounts then t.accounts[t.files[f].uploader.value] == merchant
        else merchant == 0)
    && f > 0
    && ((exists i | i in t.images :: t.images[i].product == p && t.images[i].file == f)
        || (p in t.products && t.products[p].cover == Some(f)))
    && (forall i | i in t.images && t.images[i].file == f :: t.images[i].product == p)
    && (forall q | q in t.products && q != p && t.products[q].cover == Some(f) :: t.products[q].deleted)
  }

  lemma GarbageGoes(t: Tables, p: ProductId, merchant: MerchantId, f: FileId)
    ensures Garbage(t, p, merchant, f) <==> GoesWith(t, p, merchant, f)
  {
    assert forall i | i in t.images ::
      t.images[i] == ImageRow(p, f) <==> t.images[i].product == p && t.images[i].file == f;
  }

  function AfterDelete(t: Tables, p: ProductId, collected: set<FileId>): Tables {
    t.(files := t.files - collected,
       images := map i | i in t.images && t.images[i].product != p :: t.images[i],
       products := if p in t.products then t.products[p := t.products[p].(deleted := true)] else t.products)
  }

  // Every image row and every cover of a product in use has its file record.
  ghost predicate NothingDangles(t: Tables) {
    && (forall i | i in t.images && t.images[i].file > 0 :: t.images[i].file in t.files)
    && (forall q | q in t.products && !t.products[q].deleted
                   && t.products[q].cover.Some? && t.products[q].cover.value > 0 ::
          t.products[q].cover.value in t.files)
  }

  /** No reference that survives the delete loses its file. */
  lemma DeleteLeavesNothingDangling(t: Tables, p: ProductId, merchant: MerchantId, collected: set<FileId>)
    requires NothingDangles(t) && forall f | f in collected :: Garbage(t, p, merchant, f)
    ensures NothingDangles(AfterDelete(t, p, collected))
  {
    var after := AfterDelete(t, p, collected);
    forall i | i in after.images && after.images[i].file > 0 ensures after.images[i].file in after.files {
      if t.images[i].file in collected { assert UsedElsewhere(t, p, t.images[i].file); }
    }
    forall q | q in after.products && !after.products[q].deleted
               && after.products[q].cover.Some? && after.products[q].cover.value > 0
      ensures after.products[q].cover.value in after.files
    {
      if t.products[q].cover.value in collected { assert UsedElsewhere(t, p, t.products[q].cover.value); }
    }
  }

  /** A file in use by two products goes with the second one to be deleted. */
  lemma SharedFilesGoLast(
      t: Tables, p: ProductId, q: ProductId, merchant: MerchantId, f: FileId, collected: set<FileId>)
    requires p != q && p in t.products && q in t.products && !t.products[p].deleted && !t.products[q].deleted
    requires Uses(t, p, f) && Uses(t, q, f) && Owned(t, f, merchant)
    requires forall g | g in t.images && t.images[g].file == f :: t.images[g].product == p || t.images[g].product == q
    requires forall r | r in t.products && !t.products[r].deleted && t.products[r].cover == Some(f) :: r == p || r == q
    requires collected == set g | g in t.files && Garbage(t, p, merchant, g)
    ensures !Garbage(t, p, merchant, f) && Garbage(AfterDelete(t, p, collected), q, merchant, f)
  {
    assert UsedElsewhere(t, p, f);
    var after := AfterDelete(t, p, collected);
    if i :| i in t.images && t.images[i] == ImageRow(q, f) { assert after.images[i] == ImageRow(q, f); }
    assert Uses(after, q, f);
    assert !UsedElsewhere(after, q, f);
  }

  // ----- the handler -----------------------------------------------------------------------------------

  class Catalog {
    var t: Tables

    constructor (initial: Tables)
      ensures t == initial
    {
      t := initial;
    }

    /** The files of the product, as a set, then as a list. */
    method ListFiles(p: ProductId) returns (ids: seq<FileId>)
      requires p in t.products
      ensures forall f :: f in ids <==> Uses(t, p, f)
      ensures forall i, j | 0 <= i < j < |ids| :: ids[i] != ids[j]
    {
      var fileSet: set<FileId> := {};
      var rows := t.images.Keys;
      while rows != {}
        invariant rows <= t.images.Keys
        invariant forall f :: f in fileSet <==>
          f > 0 && exists i | i in t.images :: i !in rows && t.images[i] == ImageRow(p, f)
        decreases |rows|
      {
        var i :| i in rows;
        if t.images[i].product == p && t.images[i].file > 0 { fileSet := fileSet + {t.images[i].file}; }
        rows := rows - {i};
      }
      if t.products[p].cover.Some? && t.products[p].cover.value > 0 {
        fileSet := fileSet + {t.products[p].cover.value};
      }
      assert forall f :: f in fileSet <==> Uses(t, p, f);
      ids := [];
      var left := fileSet;
      while left != {}
        invariant left <= fileSet && forall f :: f in ids <==> f in fileSet && f !in left
        invariant forall i, j | 0 <= i < j < |ids| :: ids[i] != ids[j]
        decreases |left|
      {
        var f :| f in left;
        ids := ids + [f];
        left := left - {f};
      }
    }

    /** Those no image row of another product and no cover of another product in use refers to. */
    method Unreferenced(p: ProductId, ids: seq<FileId>) returns (free: seq<FileId>)
      ensures forall f :: f in free <==> f in ids && !UsedElsewhere(t, p, f)
      ensures (forall i, j | 0 <= i < j < |ids| :: ids[i] != ids[j]) ==>
                forall i, j | 0 <= i < j < |free| :: free[i] != free[j]
    {
      var imageRefs := set i | i in t.images && t.images[i].file in ids && t.images[i].product != p :: t.images[i].file;
      var coverRefs := set q | q in t.products && q != p && !t.products[q].deleted
                                && t.products[q].cover.Some? && t.products[q].cover.value in ids
                                      :: t.products[q].cover.value;
      var referenced := imageRefs + coverRefs;
      assert forall f | f in ids :: f in referenced <==> UsedElsewhere(t, p, f);
      free := [];
      var k := 0;
      while k < |ids|
        invariant 0 <= k <= |ids|
        invariant forall f :: f in free <==> f in ids[..k] && f !in referenced
        invariant (forall i, j | 0 <= i < j < |ids| :: ids[i] != ids[j]) ==>
                    forall i, j | 0 <= i < j < |free| :: free[i] != free[j]
      {
        assert ids[..k + 1] == ids[..k] + [ids[k]];
        if ids[k] !in referenced { free := free + [ids[k]]; }
        k := k + 1;
      }
      assert ids[..k] == ids;
    }

    /** The merchant's own product images among them, and the object keys they leave behind. */
    method SelectOwned(free: seq<FileId>, merchant: MerchantId) returns (ids: seq<FileId>, keys: seq<string>)
      ensures forall f :: f in ids <==> f in free && Owned(t, f, merchant)
      ensures forall key ::
        key in keys <==> key != "" && exists f | f in ids :: f in t.files && TrimSpace(t.files[f].key) == key
    {
      ids, keys := [], [];
      var k := 0;
      while k < |free|
        invariant 0 <= k <= |free|
        invariant forall f :: f in ids <==> f in free[..k] && Owned(t, f, merchant)
        invariant forall key ::
          key in keys <==> key != "" && exists f | f in ids :: f in t.files && TrimSpace(t.files[f].key) == key
      {
        assert free[..k + 1] == free[..k] + [free[k]];
        var f := free[k];
        k := k + 1;
        if f !in t.files || !t.files[f].productImage || !t.files[f].byMerchant { continue; }
        var file := t.files[f];
        if file.uploader.None? || MerchantOf(t, file.uploader.value) != merchant { continue; }
        ids := ids + [f];
        var key := TrimSpace(file.key);
        if key != "" { keys := keys + [key]; }
      }
      assert free[..k] == free;
    }

    /** Deletes exactly the garbage; every other file record stays. */
    method DeleteProduct(p: ProductId, merchant: MerchantId) returns (deleted: seq<FileId>, keys: seq<string>)
      requires p in t.products
      modifies this
      ensures forall f :: f in deleted <==> Garbage(old(t), p, merchant, f)
      ensures forall key ::
        key in keys <==>
        key != "" && exists f | f in deleted :: f in old(t).files && TrimSpace(old(t).files[f].key) == key
      ensures t == AfterDelete(old(t), p, set f | f in deleted)
      ensures forall f | f in old(t).files ::
        if f in t.files then t.files[f] == old(t).files[f] else GoesWith(old(t), p, merchant, f)
      ensures forall f :: GoesWith(old(t), p, merchant, f) ==> f !in t.files
      ensures forall q | q in old(t).products ::
        q in t.products && t.products[q] == old(t).products[q].(deleted := q == p || old(t).products[q].deleted)
      ensures forall i | i in old(t).images ::
        if old(t).images[i].product == p then i !in t.images else i in t.images && t.images[i] == old(t).images[i]
      ensures NothingDangles(old(t)) ==> NothingDangles(t)
    {
      var ids := ListFiles(p);
      var free := Unreferenced(p, ids);
      deleted, keys := SelectOwned(free, merchant);
      var collected := set f | f in deleted;
      if NothingDangles(t) { DeleteLeavesNothingDangling(t, p, merchant, collected); }
      forall f ensures f in collected <==> GoesWith(t, p, merchant, f) { GarbageGoes(t, p, merchant, f); }
      t := t.(files := t.files - collected);
      t := t.(images := map i | i in t.images && t.images[i].product != p :: t.images[i]);
      t := t.(products := t.products[p := t.products[p].(deleted := true)]);
    }
  }
}
