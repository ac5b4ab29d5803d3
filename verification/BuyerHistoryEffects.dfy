/**
 What one request leaves in the tables, row by row: the view, the delete and the merge, over the rows
 before and after alone; and what a view or merge writes whose reads are out of date.
 */
module BuyerHistoryEffects {
  import opened Wrappers
  import opened MapSums
  import opened BuyerHistory
  import opened BuyerHistoryProofs
  import opened BuyerHistoryInterleaved

  // Every row but that of k is as it was.
  predicate OnlyRow(was: Rows, now: Rows, k: Key) {
    now.Keys == was.Keys + {k} && forall j | j in was && j != k :: now[j] == was[j]
  }

  /**
   A view within 30 seconds of the last one of an active row changes nothing. A later one counts it: the
   first view stays, the last is this one, and the merchant is that of the product now. A view of a row
   that is absent or inactive starts it anew. A row that was merged away belongs to its owner again.
   */
  lemma ViewEffect(rows: Rows, k: Key, merchant: MerchantId, at: int)
    ensures var after := View(rows, k, merchant, at);
      && OnlyRow(rows, after, k)
      && (k in rows && rows[k].active && at - rows[k].last < 30_000_000_000 ==> after == rows)
      && (k in rows && rows[k].active && at - rows[k].last >= 30_000_000_000 ==>
            after[k] == Row(merchant, rows[k].first, at, rows[k].count + 1, true, None))
      && (k !in rows || !rows[k].active ==> after[k] == Row(merchant, at, at, 1, true, None))
  {
  }

  /** The views of a product that are shown or were shown change by exactly this much. */
  lemma ViewCountsOne(rows: Rows, k: Key, merchant: MerchantId, at: int, p: ProductId)
    requires Inv(rows)
    ensures Held(View(rows, k, merchant, at), p) - Held(rows, p) ==
      if k.1 != p || (k in rows && rows[k].active && at - rows[k].last < 30_000_000_000) then 0
      else if k !in rows || rows[k].target.Some? || rows[k].active then 1
      else 1 - rows[k].count
  {
    ViewEffect(rows, k, merchant, at);
    var after := View(rows, k, merchant, at);
    if after != rows {
      assert after == rows[k := after[k]];
      HeldUpdate(rows, k, after[k], p);
    }
  }

  /** A delete hides the owner's rows of the shop, of one product or of all, and nothing else. */
  lemma DeleteEffect(rows: Rows, owner: Owner, shop: MerchantId, product: Option<ProductId>, k: Key)
    requires k in rows
    ensures var after := Delete(rows, owner, shop, product);
      && after.Keys == rows.Keys
      && after[k] == if k.0 == owner && rows[k].merchant == shop && (product.None? || product.value == k.1)
                     then rows[k].(active := false) else rows[k]
  {
  }

  // ----- merges ------------------------------------------------------------------------------------

  // The device has something to hand over for this product.
  predicate HandsOver(rows: Rows, d: DeviceId, p: ProductId) {
    (Device(d), p) in rows && rows[(Device(d), p)].active && rows[(Device(d), p)].target == None
  }

  // The buyer's row of a product after the device's row was merged into it.
  predicate TakesOver(was: Rows, now: Rows, from: Key, to: Key)
    requires from in was
  {
    to in now &&
    var src := was[from];
    if to !in was then now[to] == Row(src.merchant, src.first, src.last, src.count, true, None)
    else
      && now[to].active && now[to].merchant == src.merchant && now[to].target == was[to].target
      && now[to].count == was[to].count + src.count
      && (now[to].first == src.first || now[to].first == was[to].first)
      && now[to].first <= src.first && now[to].first <= was[to].first
      && (now[to].last == src.last || now[to].last == was[to].last)
      && now[to].last >= src.last && now[to].last >= was[to].last
  }

  lemma SourceIff(rows: Rows, d: DeviceId, p: ProductId)
    ensures p in Sources(rows, d) <==> HandsOver(rows, d, p)
  {
    assert (Device(d), p) in rows ==> (Device(d), p).1 == p;
  }

  /**
   A merge retires every active row of the device that was not merged before, and the buyer's row of the
   same product takes it over: the counts add up, the earlier first and the later last view are kept, the
   merchant is the device's. Every other row is as it was.
   */
  lemma MergeEffect(rows: Rows, d: DeviceId, b: BuyerId, p: ProductId)
    ensures var after, from, to := Merge(rows, d, b), (Device(d), p), (Buyer(b), p);
      if HandsOver(rows, d, p) then
        && from in after && after[from] == rows[from].(active := false, target := Some(b))
        && TakesOver(rows, after, from, to)
      else Find(after, from) == Find(rows, from) && Find(after, to) == Find(rows, to)
  {
    SourceIff(rows, d, p);
  }

  lemma MergeLeavesOthersAlone(rows: Rows, d: DeviceId, b: BuyerId, k: Key)
    requires k.0 != Device(d) && k.0 != Buyer(b)
    ensures Find(Merge(rows, d, b), k) == Find(rows, k)
  {
  }

  // ----- favourites --------------------------------------------------------------------------------

  predicate HandsOverFavorite(favs: Favorites, d: DeviceId, p: ProductId) {
    (Device(d), p) in favs && favs[(Device(d), p)].active && favs[(Device(d), p)].target == None
  }

  /**
   A merge retires every active favourite of the device that was not merged before. The buyer gets it
   unless the product is an active favourite already, which stays as it is.
   */
  lemma MergeFavoritesEffect(favs: Favorites, d: DeviceId, b: BuyerId, p: ProductId)
    ensures var after, from, to := MergeFavorites(favs, d, b), (Device(d), p), (Buyer(b), p);
      if HandsOverFavorite(favs, d, p) then
        && from in after && after[from] == favs[from].(active := false, target := Some(b))
        && to in after && after[to].active
        && (to !in favs ==> after[to] == Favorite(favs[from].shop, true, None))
        && (to in favs && favs[to].active ==> after[to] == favs[to])
        && (to in favs && !favs[to].active ==> after[to] == Favorite(favs[from].shop, true, favs[to].target))
      else Find(after, from) == Find(favs, from) && Find(after, to) == Find(favs, to)
  {
    assert (Device(d), p) in favs ==> (Device(d), p).1 == p;
    assert p in FavoriteSources(favs, d) <==> HandsOverFavorite(favs, d, p);
  }

  lemma FavoriteMergeLeavesOthersAlone(favs: Favorites, d: DeviceId, b: BuyerId, k: Key)
    requires k.0 != Device(d) && k.0 != Buyer(b)
    ensures Find(MergeFavorites(favs, d, b), k) == Find(favs, k)
  {
  }

  // ----- writes that come late ---------------------------------------------------------------------

  /**
   A view writes what it computed from the row it read; the first view of an active row is not among the
   columns it writes. A row that is there by now is not created again, and one that is gone is not updated.
   */
  lemma LateViewEffect(rows: Rows, k: Key, merchant: MerchantId, at: int, seen: Option<Row>)
    ensures var after := WriteView(rows, k, merchant, at, seen);
      && (seen == None && k in rows ==> after == rows)
      && (seen == None && k !in rows ==> after == rows[k := Row(merchant, at, at, 1, true, None)])
      && (seen.Some? && k !in rows ==> after == rows)
      && (seen.Some? && seen.value.active && at - seen.value.last < 30_000_000_000 ==> after == rows)
      && (seen.Some? && k in rows && seen.value.active && at - seen.value.last >= 30_000_000_000 ==>
            after == rows[k := Row(merchant, rows[k].first, at, seen.value.count + 1, true, None)])
      && (seen.Some? && k in rows && !seen.value.active ==>
            after == rows[k := Row(merchant, at, at, 1, true, None)])
  {
  }

  // The transaction of a merge goes through: rows to be updated are there, rows to be created are not.
  ghost predicate GoesThrough(rows: Rows, d: DeviceId, b: BuyerId, plan: Plan) {
    && (forall p | p in plan :: (Device(d), p) in rows)
    && (forall p | p in plan && plan[p].dst.Some? :: (Buyer(b), p) in rows)
    && (forall p | p in plan && plan[p].dst.None? :: (Buyer(b), p) !in rows)
  }

  /** A merge writes what it computed from the two rows it read, for every product it read, or nothing. */
  lemma LateMergeEffect(rows: Rows, d: DeviceId, b: BuyerId, plan: Plan, p: ProductId)
    ensures !GoesThrough(rows, d, b, plan) ==> WriteMerge(rows, d, b, plan) == rows
    ensures GoesThrough(rows, d, b, plan) ==>
      var after, from, to := WriteMerge(rows, d, b, plan), (Device(d), p), (Buyer(b), p);
      if p in plan then
        && from in after && after[from] == rows[from].(active := false, target := Some(b))
        && to in after && after[to].active && after[to].merchant == plan[p].src.merchant
        && (plan[p].dst.None? ==> after[to] == plan[p].src.(active := true, target := None))
        && (plan[p].dst.Some? ==>
              var src, dst := plan[p].src, plan[p].dst.value;
              && after[to].count == src.count + dst.count && after[to].target == rows[to].target
              && (after[to].first == src.first || after[to].first == dst.first)
              && after[to].first <= src.first && after[to].first <= dst.first
              && (after[to].last == src.last || after[to].last == dst.last)
              && after[to].last >= src.last && after[to].last >= dst.last)
      else Find(after, from) == Find(rows, from) && Find(after, to) == Find(rows, to)
  {
    assert Fits(rows, d, b, plan) <==> GoesThrough(rows, d, b, plan);
  }
}
