/**
 Browsing histories and favourites of buyers and guest devices: views, deletes and the merge of a
 device into a buyer. A row is found by its owner and product (both tables have a unique index on
 the two). Requests run one after the other; times are nanoseconds and come from the client.
 */
module BuyerHistory {
  import opened Wrappers

  type BuyerId = nat
  type DeviceId = string
  type ProductId = nat
  type MerchantId = nat

  datatype Owner = Buyer(id: BuyerId) | Device(device: DeviceId)

  type Key = (Owner, ProductId)

  datatype Row = Row(merchant: MerchantId, first: int, last: int, count: int, active: bool, target: Option<BuyerId>)

  datatype Favorite = Favorite(shop: MerchantId, active: bool, target: Option<BuyerId>)

  type Rows = map<Key, Row>
  type Favorites = map<Key, Favorite>

  const DEDUP := 30 * 1_000_000_000

  function Min(a: int, b: int): int { if a < b then a else b }

  function Max(a: int, b: int): int { if a > b then a else b }

  // ----- owner keys --------------------------------------------------------------------------------

  function Decimal(n: nat): (s: string)
    ensures s != ""
  {
    var digit := "0123456789"[n % 10];
    if n < 10 then [digit] else Decimal(n / 10) + [digit]
  }

  function OwnerKey(o: Owner): string {
    match o
    case Buyer(id) => "B:" + Decimal(id)
    case Device(d) => "D:" + d
  }

  lemma {:induction false} DecimalUnique(m: nat, n: nat)
    requires Decimal(m) == Decimal(n)
    ensures m == n
  {
    var a, b := Decimal(m), Decimal(n);
    assert a[|a| - 1] == "0123456789"[m % 10] && b[|b| - 1] == "0123456789"[n % 10];
    if m >= 10 && n >= 10 {
      assert a[..|a| - 1] == Decimal(m / 10) && b[..|b| - 1] == Decimal(n / 10);
      DecimalUnique(m / 10, n / 10);
    }
  }

  /** The text stored as owner key tells owners apart, so rows may be indexed by owner. */
  lemma OwnerKeysDiffer(a: Owner, b: Owner)
    ensures OwnerKey(a) == OwnerKey(b) <==> a == b
  {
    if OwnerKey(a) == OwnerKey(b) {
      assert OwnerKey(a)[0] == OwnerKey(b)[0];
      assert OwnerKey(a)[2..] == OwnerKey(b)[2..];
      if a.Buyer? { DecimalUnique(a.id, b.id); }
    }
  }

  // ----- views -------------------------------------------------------------------------------------

  predicate Deduplicated(rows: Rows, k: Key, at: int) {
    k in rows && rows[k].active && at - rows[k].last < DEDUP
  }

  function ViewedRow(rows: Rows, k: Key, merchant: MerchantId, at: int): Row {
    if k !in rows then Row(merchant, at, at, 1, true, None)
    else if !rows[k].active then Row(merchant, at, at, 1, true, None)
    else rows[k].(merchant := merchant, last := at, count := rows[k].count + 1, target := None)
  }

  function View(rows: Rows, k: Key, merchant: MerchantId, at: int): Rows {
    if Deduplicated(rows, k, at) then rows else rows[k := ViewedRow(rows, k, merchant, at)]
  }

  // ----- deletes -----------------------------------------------------------------------------------

  predicate Selected(k: Key, merchant: MerchantId, owner: Owner, shop: MerchantId, product: Option<ProductId>) {
    k.0 == owner && merchant == shop && (product.Some? ==> k.1 == product.value)
  }

  function Delete(rows: Rows, owner: Owner, shop: MerchantId, product: Option<ProductId>): Rows {
    map k | k in rows ::
      if Selected(k, rows[k].merchant, owner, shop, product) then rows[k].(active := false) else rows[k]
  }

  // ----- favourites --------------------------------------------------------------------------------

  function AddFavorite(favs: Favorites, k: Key, shop: MerchantId): Favorites {
    favs[k := if k in favs then favs[k].(shop := shop, active := true) else Favorite(shop, true, None)]
  }

  function DeleteFavorite(favs: Favorites, k: Key, shop: MerchantId): Favorites {
    if k in favs && favs[k].shop == shop then favs[k := favs[k].(active := false)] else favs
  }

  // ----- merging a device into a buyer -------------------------------------------------------------

  predicate IsSource(rows: Rows, d: DeviceId, p: ProductId) {
    (Device(d), p) in rows && rows[(Device(d), p)].active && rows[(Device(d), p)].target.None?
  }

  function Sources(rows: Rows, d: DeviceId): set<ProductId> {
    set k | k in rows && k.0 == Device(d) && IsSource(rows, d, k.1) :: k.1
  }

  predicate IsFavoriteSource(favs: Favorites, d: DeviceId, p: ProductId) {
    (Device(d), p) in favs && favs[(Device(d), p)].active && favs[(Device(d), p)].target.None?
  }

  function FavoriteSources(favs: Favorites, d: DeviceId): set<ProductId> {
    set k | k in favs && k.0 == Device(d) && IsFavoriteSource(favs, d, k.1) :: k.1
  }

  // What the buyer's row becomes; an absent row takes over the device's.
  function Combined(dst: Option<Row>, src: Row): Row {
    match dst
    case None => Row(src.merchant, src.first, src.last, src.count, true, None)
    case Some(row) =>
      row.(active := true, merchant := src.merchant, first := Min(src.first, row.first),
           last := Max(src.last, row.last), count := row.count + src.count)
  }

  function CombinedFavorite(dst: Option<Favorite>, src: Favorite): Favorite {
    match dst
    case None => Favorite(src.shop, true, None)
    case Some(fav) => if fav.active then fav else fav.(active := true, shop := src.shop)
  }

  function Find<V>(m: map<Key, V>, k: Key): Option<V> { if k in m then Some(m[k]) else None }

  // The table after the products in `done` were merged, as one table: the device's rows are
  // retired, the buyer's rows combined, every other row is as before.
  function MergeSome(rows: Rows, d: DeviceId, b: BuyerId, done: set<ProductId>): Rows
    requires forall p | p in done :: (Device(d), p) in rows
  {
    map k | k in rows.Keys + (set p | p in done :: (Buyer(b), p)) ::
      if k.0 == Buyer(b) && k.1 in done then Combined(Find(rows, k), rows[(Device(d), k.1)])
      else if k.0 == Device(d) && k.1 in done then rows[k].(active := false, target := Some(b))
      else rows[k]
  }

  function MergeSomeFavorites(favs: Favorites, d: DeviceId, b: BuyerId, done: set<ProductId>): Favorites
    requires forall p | p in done :: (Device(d), p) in favs
  {
    map k | k in favs.Keys + (set p | p in done :: (Buyer(b), p)) ::
      if k.0 == Buyer(b) && k.1 in done then CombinedFavorite(Find(favs, k), favs[(Device(d), k.1)])
      else if k.0 == Device(d) && k.1 in done then favs[k].(active := false, target := Some(b))
      else favs[k]
  }

  function Merge(rows: Rows, d: DeviceId, b: BuyerId): Rows { MergeSome(rows, d, b, Sources(rows, d)) }

  function MergeFavorites(favs: Favorites, d: DeviceId, b: BuyerId): Favorites {
    MergeSomeFavorites(favs, d, b, FavoriteSources(favs, d))
  }

  // One more product merged: two writes.
  lemma MergeOne(rows: Rows, d: DeviceId, b: BuyerId, done: set<ProductId>, p: ProductId)
    requires p !in done && forall q | q in done + {p} :: (Device(d), q) in rows
    ensures var now, from, to := MergeSome(rows, d, b, done), (Device(d), p), (Buyer(b), p);
      && from in now && now[from] == rows[from] && Find(now, to) == Find(rows, to)
      && MergeSome(rows, d, b, done + {p})
         == now[to := Combined(Find(now, to), now[from])][from := now[from].(active := false, target := Some(b))]
  {
    var now, from, to := MergeSome(rows, d, b, done), (Device(d), p), (Buyer(b), p);
    assert from in now && now[from] == rows[from] && Find(now, to) == Find(rows, to);
    var left, right := MergeSome(rows, d, b, done + {p}),
                       now[to := Combined(Find(now, to), now[from])][
                         from := now[from].(active := false, target := Some(b))];
    assert left.Keys == right.Keys;
    forall k | k in left ensures left[k] == right[k] { }
  }

  lemma MergeOneFavorite(favs: Favorites, d: DeviceId, b: BuyerId, done: set<ProductId>, p: ProductId)
    requires p !in done && forall q | q in done + {p} :: (Device(d), q) in favs
    ensures var now, from, to := MergeSomeFavorites(favs, d, b, done), (Device(d), p), (Buyer(b), p);
      && from in now && now[from] == favs[from] && Find(now, to) == Find(favs, to)
      && MergeSomeFavorites(favs, d, b, done + {p})
         == now[to := CombinedFavorite(Find(now, to), now[from])][
              from := now[from].(active := false, target := Some(b))]
  {
    var now, from, to := MergeSomeFavorites(favs, d, b, done), (Device(d), p), (Buyer(b), p);
    assert from in now && now[from] == favs[from] && Find(now, to) == Find(favs, to);
    var left, right := MergeSomeFavorites(favs, d, b, done + {p}),
                       now[to := CombinedFavorite(Find(now, to), now[from])][
                         from := now[from].(active := false, target := Some(b))];
    assert left.Keys == right.Keys;
    forall k | k in left ensures left[k] == right[k] { }
  }

  // ----- the handlers ------------------------------------------------------------------------------

  class Tables {
    var favorites: Favorites
    var histories: Rows

    constructor ()
      ensures favorites == map[] && histories == map[]
    {
      favorites, histories := map[], map[];
    }

    /** handleBuyerHistoryView: answers the stored count and time after the request. */
    method HandleHistoryView(k: Key, merchant: MerchantId, at: int) returns (count: int, last: int)
      modifies this`histories
      ensures histories == View(old(histories), k, merchant, at)
      ensures k in histories && histories[k].active && histories[k].count == count && histories[k].last == last
      ensures k in old(histories) && old(histories)[k].active ==>
        var was := old(histories)[k];
        if at - was.last < 30_000_000_000 then count == was.count && last == was.last
        else count == was.count + 1 && last == at
      ensures k !in old(histories) || !old(histories)[k].active ==> count == 1 && last == at
    {
      if k !in histories {
        histories := histories[k := Row(merchant, at, at, 1, true, None)];
        return 1, at;
      }
      var history := histories[k];
      if history.active && at - history.last < DEDUP { return history.count, history.last; }
      var updated := history.(
        active := true, merchant := merchant, last := at, count := history.count + 1, target := None);
      if !history.active { updated := updated.(first := at, count := 1); }
      histories := histories[k := updated];
      return if !history.active then 1 else history.count + 1, at;
    }

    /** handleBuyerHistoryDelete: one update over the selected rows. */
    method HandleHistoryDelete(owner: Owner, shop: MerchantId, product: Option<ProductId>)
      modifies this`histories
      ensures histories == Delete(old(histories), owner, shop, product)
    {
      var left := histories.Keys;
      while left != {}
        invariant left <= histories.Keys == old(histories).Keys
        invariant forall k | k in histories ::
          histories[k] == if k in left then old(histories)[k] else Delete(old(histories), owner, shop, product)[k]
        decreases |left|
      {
        var k :| k in left;
        if Selected(k, histories[k].merchant, owner, shop, product) {
          histories := histories[k := histories[k].(active := false)];
        }
        left := left - {k};
      }
    }

    method HandleFavoriteAdd(k: Key, shop: MerchantId)
      modifies this`favorites
      ensures k in favorites && favorites[k].active && favorites[k].shop == shop
      ensures favorites[k].target == if k in old(favorites) then old(favorites)[k].target else None
      ensures favorites.Keys == old(favorites).Keys + {k}
      ensures forall j | j in old(favorites) && j != k :: favorites[j] == old(favorites)[j]
      ensures favorites == AddFavorite(old(favorites), k, shop)
    {
      if k !in favorites {
        favorites := favorites[k := Favorite(shop, true, None)];
      } else {
        favorites := favorites[k := favorites[k].(shop := shop, active := true)];
      }
    }

    method HandleFavoriteDelete(k: Key, shop: MerchantId)
      modifies this`favorites
      ensures favorites.Keys == old(favorites).Keys
      ensures forall j | j in old(favorites) && (j != k || old(favorites)[j].shop != shop) ::
        favorites[j] == old(favorites)[j]
      ensures k in old(favorites) ==>
        var was := old(favorites)[k];
        && favorites[k].shop == was.shop && favorites[k].target == was.target
        && (favorites[k].active <==> was.active && was.shop != shop)
      ensures favorites == DeleteFavorite(old(favorites), k, shop)
    {
      if k in favorites && favorites[k].shop == shop {
        favorites := favorites[k := favorites[k].(active := false)];
      }
    }

    /** handleBuyerGuestMerge: two loops over the device's rows; answers how many were merged. */
    method HandleGuestMerge(d: DeviceId, b: BuyerId) returns (favoritesMerged: nat, historiesMerged: nat)
      modifies this
      ensures favorites == MergeFavorites(old(favorites), d, b)
      ensures histories == Merge(old(histories), d, b)
      ensures favoritesMerged == |FavoriteSources(old(favorites), d)|
      ensures historiesMerged == |Sources(old(histories), d)|
    {
      favoritesMerged := MergeFavoriteRows(d, b);
      historiesMerged := MergeHistoryRows(d, b);
    }

    method MergeFavoriteRow(from: Key, to: Key, b: BuyerId)
      requires from in favorites && from != to
      modifies this`favorites
      ensures favorites == var was := old(favorites);
        was[to := CombinedFavorite(Find(was, to), was[from])][from := was[from].(active := false, target := Some(b))]
    {
      var src := favorites[from];
      if to !in favorites {
        favorites := favorites[to := Favorite(src.shop, true, None)];
      } else if !favorites[to].active {
        favorites := favorites[to := favorites[to].(active := true, shop := src.shop)];
      }
      favorites := favorites[from := favorites[from].(active := false, target := Some(b))];
    }

    method MergeFavoriteRows(d: DeviceId, b: BuyerId) returns (merged: nat)
      modifies this`favorites
      ensures favorites == MergeFavorites(old(favorites), d, b) && merged == |FavoriteSources(old(favorites), d)|
    {
      ghost var before := favorites;
      var sources := FavoriteSources(favorites, d);
      var left := sources;
      merged := 0;
      while left != {}
        invariant left <= sources && merged == |sources| - |left|
        invariant favorites == MergeSomeFavorites(before, d, b, sources - left)
        decreases |left|
      {
        var p :| p in left;
        MergeOneFavorite(before, d, b, sources - left, p);
        MergeFavoriteRow((Device(d), p), (Buyer(b), p), b);
        merged := merged + 1;
        assert sources - (left - {p}) == sources - left + {p};
        left := left - {p};
      }
      assert sources - left == sources;
    }

    method MergeHistoryRow(from: Key, to: Key, b: BuyerId)
      requires from in histories && from != to
      modifies this`histories
      ensures histories == var was := old(histories);
        was[to := Combined(Find(was, to), was[from])][from := was[from].(active := false, target := Some(b))]
    {
      var src := histories[from];
      if to !in histories {
        histories := histories[to := Row(src.merchant, src.first, src.last, src.count, true, None)];
      } else {
        var dst := histories[to];
        var first, last := dst.first, dst.last;
        if src.first < first { first := src.first; }
        if src.last > last { last := src.last; }
        histories := histories[to := dst.(active := true, merchant := src.merchant, first := first, last := last,
                                          count := dst.count + src.count)];
      }
      histories := histories[from := histories[from].(active := false, target := Some(b))];
    }

    method MergeHistoryRows(d: DeviceId, b: BuyerId) returns (merged: nat)
      modifies this`histories
      ensures histories == Merge(old(histories), d, b) && merged == |Sources(old(histories), d)|
    {
      ghost var before := histories;
      var sources := Sources(histories, d);
      var left := sources;
      merged := 0;
      while left != {}
        invariant left <= sources && merged == |sources| - |left|
        invariant histories == MergeSome(before, d, b, sources - left)
        decreases |left|
      {
        var p :| p in left;
        MergeOne(before, d, b, sources - left, p);
        MergeHistoryRow((Device(d), p), (Buyer(b), p), b);
        merged := merged + 1;
        assert sources - (left - {p}) == sources - left + {p};
        left := left - {p};
      }
      assert sources - left == sources;
    }
  }
}
