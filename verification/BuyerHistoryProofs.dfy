/**
 What histories promise over any run of views, deletes and merges: no view is counted twice, counts
 are bounded by the time that passed, and merging is idempotent and commutes.
 */
module BuyerHistoryProofs {
  import opened Wrappers
  import opened MapSums
  import opened BuyerHistory

  datatype Event =
    | ViewEvent(key: Key, merchant: MerchantId, at: int)
    | DeleteEvent(owner: Owner, shop: MerchantId, product: Option<ProductId>)
    | MergeEvent(device: DeviceId, buyer: BuyerId)

  function Step(rows: Rows, e: Event): Rows {
    match e
    case ViewEvent(k, m, at) => View(rows, k, m, at)
    case DeleteEvent(o, m, p) => Delete(rows, o, m, p)
    case MergeEvent(d, b) => Merge(rows, d, b)
  }

  function Run(rows: Rows, events: seq<Event>): Rows
    decreases |events|
  {
    if events == [] then rows else Run(Step(rows, events[0]), events[1..])
  }

  // Rows of a buyer are never merged away, and a row is active only until it is.
  ghost predicate Inv(rows: Rows) {
    forall k | k in rows ::
      rows[k].count >= 1 && (k.0.Buyer? ==> rows[k].target.None?) && (rows[k].active ==> rows[k].target.None?)
  }

  lemma StepKeepsInv(rows: Rows, e: Event)
    requires Inv(rows)
    ensures Inv(Step(rows, e))
  {
  }

  // ----- no view is counted twice ------------------------------------------------------------------

  function ProductRows(rows: Rows, p: ProductId): Rows { map k | k in rows && k.1 == p :: rows[k] }

  // What a row contributes: its views, until they were handed over.
  function Weight(row: Row): int { if row.target.Some? then 0 else row.count }

  function Shown(row: Row): int { if row.active then row.count else 0 }

  ghost function Held(rows: Rows, p: ProductId): int { Sum(ProductRows(rows, p), Weight) }

  /** The view counts of a product that buyers and guests see. */
  ghost function ActiveViews(rows: Rows, p: ProductId): int { Sum(ProductRows(rows, p), Shown) }

  function Counts(rows: Rows, e: Event, p: ProductId): nat {
    if e.ViewEvent? && e.key.1 == p && !Deduplicated(rows, e.key, e.at) then 1 else 0
  }

  /** The views of a product in a run that were not dropped as duplicates. */
  function CountedViews(rows: Rows, events: seq<Event>, p: ProductId): nat
    decreases |events|
  {
    if events == [] then 0 else Counts(rows, events[0], p) + CountedViews(Step(rows, events[0]), events[1..], p)
  }

  lemma HeldUpdate(rows: Rows, k: Key, row: Row, p: ProductId)
    ensures Held(rows[k := row], p)
         == Held(rows, p) + if k.1 == p then Weight(row) - (if k in rows then Weight(rows[k]) else 0) else 0
  {
    if k.1 == p {
      assert ProductRows(rows[k := row], p) == ProductRows(rows, p)[k := row];
      SumUpdate(ProductRows(rows, p), Weight, k, row);
    } else {
      assert ProductRows(rows[k := row], p) == ProductRows(rows, p);
    }
  }

  // A merge moves weight, product by product.
  lemma {:induction false} MergeHolds(rows: Rows, d: DeviceId, b: BuyerId, done: set<ProductId>, p: ProductId)
    requires Inv(rows) && done <= Sources(rows, d)
    ensures Held(MergeSome(rows, d, b, done), p) == Held(rows, p)
    decreases |done|
  {
    if done == {} {
      assert MergeSome(rows, d, b, done) == rows;
    } else {
      var q :| q in done;
      var rest := done - {q};
      var now, from, to := MergeSome(rows, d, b, rest), (Device(d), q), (Buyer(b), q);
      MergeHolds(rows, d, b, rest, p);
      MergeOne(rows, d, b, rest, q);
      assert rest + {q} == done;
      var combined := Combined(Find(now, to), now[from]);
      HeldUpdate(now, to, combined, p);
      HeldUpdate(now[to := combined], from, now[from].(active := false, target := Some(b)), p);
    }
  }

  lemma StepHolds(rows: Rows, e: Event, p: ProductId)
    requires Inv(rows)
    ensures Held(Step(rows, e), p) <= Held(rows, p) + Counts(rows, e, p)
  {
    match e
    case ViewEvent(k, m, at) =>
      if !Deduplicated(rows, k, at) { HeldUpdate(rows, k, ViewedRow(rows, k, m, at), p); }
    case DeleteEvent(_, _, _) =>
      SumAtMost(ProductRows(Step(rows, e), p), ProductRows(rows, p), Weight, Weight);
    case MergeEvent(d, b) =>
      MergeHolds(rows, d, b, Sources(rows, d), p);
  }

  lemma {:induction false} RunHolds(rows: Rows, events: seq<Event>, p: ProductId)
    requires Inv(rows)
    ensures Inv(Run(rows, events))
    ensures Held(Run(rows, events), p) <= Held(rows, p) + CountedViews(rows, events, p)
    decreases |events|
  {
    if events != [] {
      StepKeepsInv(rows, events[0]);
      StepHolds(rows, events[0], p);
      RunHolds(Step(rows, events[0]), events[1..], p);
    }
  }

  /** Over any run the counts shown for a product add up to at most its counted views. */
  lemma NoViewIsCountedTwice(events: seq<Event>, p: ProductId)
    ensures ActiveViews(Run(map[], events), p) <= CountedViews(map[], events, p)
  {
    RunHolds(map[], events, p);
    assert ProductRows(map[], p) == map[];
    var rows := ProductRows(Run(map[], events), p);
    SumAtMost(rows, rows, Shown, Weight);
  }

  // ----- counts and time ---------------------------------------------------------------------------

  // From how many rows each row was put together since it was last started anew.
  function PartsAfter(rows: Rows, parts: map<Key, nat>, e: Event): map<Key, nat>
    requires parts.Keys == rows.Keys
  {
    match e
    case ViewEvent(k, _, at) => if k in rows && rows[k].active then parts else parts[k := 1]
    case DeleteEvent(_, _, _) => parts
    case MergeEvent(d, b) =>
      map k | k in Merge(rows, d, b) ::
        if k.0 == Buyer(b) && k.1 in Sources(rows, d) then
          (if k in rows then parts[k] else 0) + parts[(Device(d), k.1)]
        else parts[k]
  }

  function Parts(rows: Rows, parts: map<Key, nat>, events: seq<Event>): (r: map<Key, nat>)
    requires parts.Keys == rows.Keys
    ensures r.Keys == Run(rows, events).Keys
    decreases |events|
  {
    if events == [] then parts
    else
      assert PartsAfter(rows, parts, events[0]).Keys == Step(rows, events[0]).Keys;
      Parts(Step(rows, events[0]), PartsAfter(rows, parts, events[0]), events[1..])
  }

  predicate Paced(row: Row, n: nat) {
    n >= 1 && row.first <= row.last && DEDUP * (row.count - n) <= n * (row.last - row.first)
  }

  ghost predicate AllPaced(rows: Rows, parts: map<Key, nat>) {
    parts.Keys == rows.Keys && forall k | k in rows :: Paced(rows[k], parts[k])
  }

  lemma Widen(n: nat, narrow: int, wide: int)
    requires narrow <= wide
    ensures n * narrow <= n * wide
  {
  }

  lemma CombinedPaced(dst: Option<Row>, m: nat, src: Row, n: nat)
    requires Paced(src, n) && (if dst.Some? then Paced(dst.value, m) else m == 0)
    ensures Paced(Combined(dst, src), m + n)
  {
    if dst.Some? {
      var row := Combined(dst, src);
      Widen(n, src.last - src.first, row.last - row.first);
      Widen(m, dst.value.last - dst.value.first, row.last - row.first);
      assert (m + n) * (row.last - row.first) == m * (row.last - row.first) + n * (row.last - row.first);
    }
  }

  lemma ViewedPaced(rows: Rows, k: Key, m: MerchantId, at: int, n: nat)
    requires k in rows && rows[k].active && !Deduplicated(rows, k, at) && Paced(rows[k], n)
    ensures Paced(ViewedRow(rows, k, m, at), n)
  {
    var row := rows[k];
    assert n * (at - row.first) == n * (row.last - row.first) + n * (at - row.last);
    Widen(n, DEDUP, at - row.last);
    Widen(DEDUP, 1, n);
  }

  lemma StepPaced(rows: Rows, parts: map<Key, nat>, e: Event)
    requires AllPaced(rows, parts)
    ensures AllPaced(Step(rows, e), PartsAfter(rows, parts, e))
  {
    var after, nums := Step(rows, e), PartsAfter(rows, parts, e);
    match e
    case ViewEvent(k, m, at) =>
      if k in rows && rows[k].active && !Deduplicated(rows, k, at) { ViewedPaced(rows, k, m, at, parts[k]); }
    case DeleteEvent(_, _, _) =>
    case MergeEvent(d, b) =>
      forall k | k in after ensures Paced(after[k], nums[k]) {
        if k.0 == Buyer(b) && k.1 in Sources(rows, d) {
          var from := (Device(d), k.1);
          CombinedPaced(Find(rows, k), if k in rows then parts[k] else 0, rows[from], parts[from]);
        }
      }
  }

  /**
   A row put together from n rows holds at most n views more than its time span has windows for
   each of them, whatever times the clients send.
   */
  lemma {:induction false} CountsAreBoundedByTime(rows: Rows, parts: map<Key, nat>, events: seq<Event>)
    requires AllPaced(rows, parts)
    ensures AllPaced(Run(rows, events), Parts(rows, parts, events))
    decreases |events|
  {
    if events != [] {
      StepPaced(rows, parts, events[0]);
      CountsAreBoundedByTime(Step(rows, events[0]), PartsAfter(rows, parts, events[0]), events[1..]);
    }
  }

  predicate IsActive(rows: Rows, k: Key) { k in rows && rows[k].active }

  // The row is active before and after every event.
  ghost predicate ActiveThroughout(rows: Rows, events: seq<Event>, k: Key)
    decreases |events|
  {
    IsActive(rows, k) && (events != [] ==> ActiveThroughout(Step(rows, events[0]), events[1..], k))
  }

  /** While a row stays active its last view is never moved back, nor its first view forward. */
  lemma {:induction false} ActiveSpansOnlyGrow(rows: Rows, events: seq<Event>, k: Key)
    requires ActiveThroughout(rows, events, k)
    ensures IsActive(Run(rows, events), k)
    ensures rows[k].last <= Run(rows, events)[k].last && Run(rows, events)[k].first <= rows[k].first
    decreases |events|
  {
    if events != [] { ActiveSpansOnlyGrow(Step(rows, events[0]), events[1..], k); }
  }

  // ----- merging twice, merging two devices --------------------------------------------------------

  /** After a merge nothing of the device is left to merge, into this buyer or another. */
  lemma SecondMergeChangesNothing(rows: Rows, favs: Favorites, d: DeviceId, b: BuyerId, c: BuyerId)
    ensures Merge(Merge(rows, d, b), d, c) == Merge(rows, d, b)
    ensures MergeFavorites(MergeFavorites(favs, d, b), d, c) == MergeFavorites(favs, d, b)
  {
    assert Sources(Merge(rows, d, b), d) == {};
    assert FavoriteSources(MergeFavorites(favs, d, b), d) == {};
  }

  datatype FavoriteEvent =
    | AddEvent(key: Key, shop: MerchantId)
    | DropEvent(key: Key, shop: MerchantId)
    | MoveEvent(device: DeviceId, buyer: BuyerId)

  function FavoriteStep(favs: Favorites, e: FavoriteEvent): Favorites {
    match e
    case AddEvent(k, shop) => AddFavorite(favs, k, shop)
    case DropEvent(k, shop) => DeleteFavorite(favs, k, shop)
    case MoveEvent(d, b) => MergeFavorites(favs, d, b)
  }

  function FavoriteRun(favs: Favorites, events: seq<FavoriteEvent>): Favorites
    decreases |events|
  {
    if events == [] then favs else FavoriteRun(FavoriteStep(favs, events[0]), events[1..])
  }

  /**
   A favourite is merged once: whatever is added, dropped and merged later, a row that was merged
   keeps its target, so it is never merged again, and no row disappears.
   */
  lemma {:induction false} MergedFavoritesStayMerged(favs: Favorites, events: seq<FavoriteEvent>, k: Key)
    requires k in favs && favs[k].target.Some?
    ensures k in FavoriteRun(favs, events) && FavoriteRun(favs, events)[k].target == favs[k].target
    decreases |events|
  {
    if events != [] { MergedFavoritesStayMerged(FavoriteStep(favs, events[0]), events[1..], k); }
  }

  /** A history, in contrast, may be merged once more, but only after it was viewed again. */
  lemma {:induction false} MergedHistoriesWaitForAView(rows: Rows, events: seq<Event>, k: Key)
    requires k in rows && !rows[k].active && rows[k].target.Some? && k.0.Device?
    requires forall i | 0 <= i < |events| :: !(events[i].ViewEvent? && events[i].key == k)
    ensures k in Run(rows, events) && Run(rows, events)[k] == rows[k]
    decreases |events|
  {
    if events != [] {
      assert !(events[0].ViewEvent? && events[0].key == k);
      assert k in Step(rows, events[0]) && Step(rows, events[0])[k] == rows[k];
      MergedHistoriesWaitForAView(Step(rows, events[0]), events[1..], k);
    }
  }

  /** After a delete the owner sees nothing of the shop until it is viewed again. */
  lemma {:induction false} DeletedHistoriesStayHidden(
      rows: Rows, owner: Owner, shop: MerchantId, events: seq<Event>, k: Key)
    requires k in rows && k.0 == owner && rows[k].merchant == shop
    requires forall i | 0 <= i < |events| ::
      !(events[i].ViewEvent? && events[i].key == k) && !(events[i].MergeEvent? && Buyer(events[i].buyer) == owner)
    ensures var end := Run(Delete(rows, owner, shop, None), events); k in end && !end[k].active
    decreases |events|
  {
    HiddenRuns(Delete(rows, owner, shop, None), events, k);
  }

  lemma {:induction false} HiddenRuns(rows: Rows, events: seq<Event>, k: Key)
    requires k in rows && !rows[k].active
    requires forall i | 0 <= i < |events| ::
      !(events[i].ViewEvent? && events[i].key == k) && !(events[i].MergeEvent? && Buyer(events[i].buyer) == k.0)
    ensures k in Run(rows, events) && !Run(rows, events)[k].active
    decreases |events|
  {
    if events != [] {
      assert !(events[0].ViewEvent? && events[0].key == k) && !(events[0].MergeEvent? && Buyer(events[0].buyer) == k.0);
      HiddenRuns(Step(rows, events[0]), events[1..], k);
    }
  }

  lemma OtherSourcesStay(rows: Rows, favs: Favorites, d: DeviceId, b: BuyerId, other: DeviceId)
    requires d != other
    ensures Sources(Merge(rows, d, b), other) == Sources(rows, other)
    ensures FavoriteSources(MergeFavorites(favs, d, b), other) == FavoriteSources(favs, other)
  {
    assert forall p :: IsSource(Merge(rows, d, b), other, p) == IsSource(rows, other, p);
    assert forall p :: IsFavoriteSource(MergeFavorites(favs, d, b), other, p) == IsFavoriteSource(favs, other, p);
  }

  // The shop the two devices name for a product, if both of them bring it.
  predicate ShopsAgree(rows: Rows, d: DeviceId, e: DeviceId, p: ProductId) {
    IsSource(rows, d, p) && IsSource(rows, e, p) ==> rows[(Device(d), p)].merchant == rows[(Device(e), p)].merchant
  }

  ghost predicate SameShops(rows: Rows, d: DeviceId, e: DeviceId) { forall p :: ShopsAgree(rows, d, e, p) }

  lemma SameTables<V>(x: map<Key, V>, y: map<Key, V>)
    ensures x == y <==> forall k: Key :: Find(x, k) == Find(y, k)
  {
    if forall k: Key :: Find(x, k) == Find(y, k) {
      assert forall k | k in x :: Find(y, k) == Find(x, k) == Some(x[k]);
      assert forall k | k in y :: Find(x, k) == Find(y, k) == Some(y[k]);
    }
  }

  lemma MergedAt(rows: Rows, d: DeviceId, b: BuyerId, k: Key)
    ensures Find(Merge(rows, d, b), k) ==
      if k.0 == Buyer(b) && k.1 in Sources(rows, d) then Some(Combined(Find(rows, k), rows[(Device(d), k.1)]))
      else if k.0 == Device(d) && k.1 in Sources(rows, d) then Some(rows[k].(active := false, target := Some(b)))
      else Find(rows, k)
  {
  }

  lemma CombinedCommutes(dst: Option<Row>, x: Row, y: Row)
    ensures Combined(Some(Combined(dst, x)), y) == Combined(Some(Combined(dst, y)), x) <==> x.merchant == y.merchant
  {
  }

  lemma MergeTwoAt(rows: Rows, d: DeviceId, e: DeviceId, b: BuyerId, k: Key)
    requires d != e
    ensures
      Find(Merge(Merge(rows, d, b), e, b), k) == Find(Merge(Merge(rows, e, b), d, b), k)
      <==>
      (k.0 == Buyer(b) ==> ShopsAgree(rows, d, e, k.1))
  {
    OtherSourcesStay(rows, map[], d, b, e);
    OtherSourcesStay(rows, map[], e, b, d);
    MergedAt(rows, d, b, k);
    MergedAt(rows, e, b, k);
    MergedAt(Merge(rows, d, b), e, b, k);
    MergedAt(Merge(rows, e, b), d, b, k);
    if k.0 == Buyer(b) && k.1 in Sources(rows, d) && k.1 in Sources(rows, e) {
      MergedAt(rows, d, b, (Device(e), k.1));
      MergedAt(rows, e, b, (Device(d), k.1));
      CombinedCommutes(Find(rows, k), rows[(Device(d), k.1)], rows[(Device(e), k.1)]);
    }
  }

  function MergeBoth(rows: Rows, d: DeviceId, e: DeviceId, b: BuyerId): Rows { Merge(Merge(rows, d, b), e, b) }

  function MergeBothFavorites(favs: Favorites, d: DeviceId, e: DeviceId, b: BuyerId): Favorites {
    MergeFavorites(MergeFavorites(favs, d, b), e, b)
  }

  lemma MergeBothEverywhere(rows: Rows, d: DeviceId, e: DeviceId, b: BuyerId, x: Rows, y: Rows)
    requires d != e && x == MergeBoth(rows, d, e, b) && y == MergeBoth(rows, e, d, b)
    ensures forall k: Key :: Find(x, k) == Find(y, k) <==> (k.0 == Buyer(b) ==> ShopsAgree(rows, d, e, k.1))
  {
    forall k: Key ensures Find(x, k) == Find(y, k) <==> (k.0 == Buyer(b) ==> ShopsAgree(rows, d, e, k.1)) {
      MergeTwoAt(rows, d, e, b, k);
    }
  }

  lemma SameShopsFrom(rows: Rows, d: DeviceId, e: DeviceId, b: BuyerId, x: Rows, y: Rows)
    requires forall k: Key :: Find(x, k) == Find(y, k) <==> (k.0 == Buyer(b) ==> ShopsAgree(rows, d, e, k.1))
    ensures x == y <==> SameShops(rows, d, e)
  {
    SameTables(x, y);
    if x == y {
      forall p: ProductId ensures ShopsAgree(rows, d, e, p) {
        var k: Key := (Buyer(b), p);
        assert Find(x, k) == Find(y, k);
      }
    }
  }

  /** Two devices may be merged in either order exactly when they agree on the shop of each product. */
  lemma MergesCommuteIffShopsAgree(rows: Rows, d: DeviceId, e: DeviceId, b: BuyerId)
    requires d != e
    ensures MergeBoth(rows, d, e, b) == MergeBoth(rows, e, d, b) <==> SameShops(rows, d, e)
  {
    var x, y := MergeBoth(rows, d, e, b), MergeBoth(rows, e, d, b);
    MergeBothEverywhere(rows, d, e, b, x, y);
    SameShopsFrom(rows, d, e, b, x, y);
  }

  // A favourite the buyer already has keeps its shop, so only the others depend on the order.
  predicate FavoriteShopsAgree(favs: Favorites, d: DeviceId, e: DeviceId, b: BuyerId, p: ProductId) {
    IsFavoriteSource(favs, d, p) && IsFavoriteSource(favs, e, p) ==>
      || ((Buyer(b), p) in favs && favs[(Buyer(b), p)].active)
      || favs[(Device(d), p)].shop == favs[(Device(e), p)].shop
  }

  ghost predicate SameFavoriteShops(favs: Favorites, d: DeviceId, e: DeviceId, b: BuyerId) {
    forall p :: FavoriteShopsAgree(favs, d, e, b, p)
  }

  lemma FavoriteMergedAt(favs: Favorites, d: DeviceId, b: BuyerId, k: Key)
    ensures Find(MergeFavorites(favs, d, b), k) ==
      if k.0 == Buyer(b) && k.1 in FavoriteSources(favs, d) then
        Some(CombinedFavorite(Find(favs, k), favs[(Device(d), k.1)]))
      else if k.0 == Device(d) && k.1 in FavoriteSources(favs, d) then
        Some(favs[k].(active := false, target := Some(b)))
      else Find(favs, k)
  {
  }

  lemma MergeTwoFavoritesAt(favs: Favorites, d: DeviceId, e: DeviceId, b: BuyerId, k: Key)
    requires d != e
    ensures
      Find(MergeFavorites(MergeFavorites(favs, d, b), e, b), k)
      == Find(MergeFavorites(MergeFavorites(favs, e, b), d, b), k)
      <==>
      (k.0 == Buyer(b) ==> FavoriteShopsAgree(favs, d, e, b, k.1))
  {
    OtherSourcesStay(map[], favs, d, b, e);
    OtherSourcesStay(map[], favs, e, b, d);
    FavoriteMergedAt(favs, d, b, k);
    FavoriteMergedAt(favs, e, b, k);
    FavoriteMergedAt(MergeFavorites(favs, d, b), e, b, k);
    FavoriteMergedAt(MergeFavorites(favs, e, b), d, b, k);
    if k.0 == Buyer(b) && k.1 in FavoriteSources(favs, d) && k.1 in FavoriteSources(favs, e) {
      FavoriteMergedAt(favs, d, b, (Device(e), k.1));
      FavoriteMergedAt(favs, e, b, (Device(d), k.1));
    }
  }

  lemma MergeBothFavoritesEverywhere(favs: Favorites, d: DeviceId, e: DeviceId, b: BuyerId, x: Favorites, y: Favorites)
    requires d != e && x == MergeBothFavorites(favs, d, e, b) && y == MergeBothFavorites(favs, e, d, b)
    ensures forall k: Key :: Find(x, k) == Find(y, k) <==> (k.0 == Buyer(b) ==> FavoriteShopsAgree(favs, d, e, b, k.1))
  {
    forall k: Key ensures Find(x, k) == Find(y, k) <==> (k.0 == Buyer(b) ==> FavoriteShopsAgree(favs, d, e, b, k.1)) {
      MergeTwoFavoritesAt(favs, d, e, b, k);
    }
  }

  lemma SameFavoriteShopsFrom(favs: Favorites, d: DeviceId, e: DeviceId, b: BuyerId, x: Favorites, y: Favorites)
    requires forall k: Key :: Find(x, k) == Find(y, k) <==> (k.0 == Buyer(b) ==> FavoriteShopsAgree(favs, d, e, b, k.1))
    ensures x == y <==> SameFavoriteShops(favs, d, e, b)
  {
    SameTables(x, y);
    if x == y {
      forall p: ProductId ensures FavoriteShopsAgree(favs, d, e, b, p) {
        var k: Key := (Buyer(b), p);
        assert Find(x, k) == Find(y, k);
      }
    }
  }

  /** For favourites the order matters only where the buyer has no active row yet. */
  lemma FavoriteMergesCommuteIffShopsAgree(favs: Favorites, d: DeviceId, e: DeviceId, b: BuyerId)
    requires d != e
    ensures MergeBothFavorites(favs, d, e, b) == MergeBothFavorites(favs, e, d, b) <==> SameFavoriteShops(favs, d, e, b)
  {
    var x, y := MergeBothFavorites(favs, d, e, b), MergeBothFavorites(favs, e, d, b);
    MergeBothFavoritesEverywhere(favs, d, e, b, x, y);
    SameFavoriteShopsFrom(favs, d, e, b, x, y);
  }
}
