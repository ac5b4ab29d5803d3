/**
 The times of histories when views and merges run side by side. What requests one at a time promise
 about spans and pace can be broken by a write that comes late; this file says by exactly which. Runs
 whose writes find what they read are runs of whole requests, so for them every sequential result holds.
 */
module BuyerHistoryTimes {
  import opened Wrappers
  import opened BuyerHistory
  import opened BuyerHistoryProofs
  import opened BuyerHistoryInterleaved

  // ----- writes that find what they read -----------------------------------------------------------

  predicate Current(s: State, a: BuyerHistoryInterleaved.Step) {
    a.Write? && a.t in s.open ==>
      match s.open[a.t]
      case PendingView(k, _, _, seen) => seen == Find(s.rows, k)
      case PendingMerge(d, b, plan) => plan == ReadMerge(s.rows, d, b)
  }

  predicate AllCurrent(s: State, steps: seq<BuyerHistoryInterleaved.Step>)
    decreases |steps|
  {
    steps == [] || (Current(s, steps[0]) && AllCurrent(NextState(s, steps[0]), steps[1..]))
  }

  // The whole request a step completes.
  function Completed(s: State, a: BuyerHistoryInterleaved.Step): seq<Event> {
    match a
    case Write(t) =>
      if t !in s.open then []
      else
        (match s.open[t]
         case PendingView(k, m, at, _) => [ViewEvent(k, m, at)]
         case PendingMerge(d, b, _) => [MergeEvent(d, b)])
    case DeleteNow(owner, shop, product) => [DeleteEvent(owner, shop, product)]
    case _ => []
  }

  function AllCompleted(s: State, steps: seq<BuyerHistoryInterleaved.Step>): seq<Event>
    decreases |steps|
  {
    if steps == [] then [] else Completed(s, steps[0]) + AllCompleted(NextState(s, steps[0]), steps[1..])
  }

  lemma RunFirst(rows: Rows, first: seq<Event>, rest: seq<Event>)
    requires |first| <= 1
    ensures Run(rows, first + rest)
         == if first == [] then Run(rows, rest) else Run(BuyerHistoryProofs.Step(rows, first[0]), rest)
  {
    if first == [] {
      assert first + rest == rest;
    } else {
      assert (first + rest)[0] == first[0] && (first + rest)[1..] == rest;
    }
  }

  lemma CurrentStepIsWhole(s: State, a: BuyerHistoryInterleaved.Step)
    requires Current(s, a)
    ensures var e := Completed(s, a);
      NextState(s, a).rows == if e == [] then s.rows else BuyerHistoryProofs.Step(s.rows, e[0])
  {
    if a.Write? && a.t in s.open {
      match s.open[a.t]
      case PendingView(k, m, at, _) => WholeViewIsView(s.rows, k, m, at);
      case PendingMerge(d, b, _) => WholeMergeIsMerge(s.rows, d, b);
    }
  }

  lemma CurrentIsHonest(s: State, a: BuyerHistoryInterleaved.Step)
    requires StateOk(s) && Current(s, a)
    ensures Honest(s, a)
  {
    if a.Write? && a.t in s.open {
      match s.open[a.t]
      case PendingView(k, _, _, _) => UnchangedRowsAreHonest(s.rows, k, "", 0);
      case PendingMerge(d, b, _) => UnchangedRowsAreHonest(s.rows, (Buyer(b), 0), d, b);
    }
  }

  /**
   When every write finds the rows as they were read, the interleaved run is the run of its requests in
   the order of their writes, and all its writes are honest.
   */
  lemma {:induction false} CurrentRunsAreSequential(s: State, steps: seq<BuyerHistoryInterleaved.Step>)
    requires StateOk(s) && AllCurrent(s, steps)
    ensures RunSteps(s, steps).rows == Run(s.rows, AllCompleted(s, steps))
    ensures AllHonest(s, steps)
    decreases |steps|
  {
    if steps != [] {
      NextOk(s, steps[0]);
      CurrentStepIsWhole(s, steps[0]);
      CurrentIsHonest(s, steps[0]);
      CurrentRunsAreSequential(NextState(s, steps[0]), steps[1..]);
      RunFirst(s.rows, Completed(s, steps[0]), AllCompleted(NextState(s, steps[0]), steps[1..]));
    }
  }

  // ----- spans -------------------------------------------------------------------------------------

  // While active, the last view of the row is not moved back, nor its first view forward.
  predicate SpanKept(before: Rows, after: Rows, k: Key) {
    IsActive(before, k) && IsActive(after, k) ==> before[k].last <= after[k].last && after[k].first <= before[k].first
  }

  // A counting view is not earlier than the last one stored, and one that saw the row inactive not later
  // than the first one stored; a merge has read times that enclose those stored.
  predicate SpanHonest(s: State, a: BuyerHistoryInterleaved.Step, k: Key) {
    a.Write? && a.t in s.open && IsActive(s.rows, k) ==>
      match s.open[a.t]
      case PendingView(j, _, at, seen) =>
        j == k && ViewCounts(s.rows, k, at, seen) ==>
          s.rows[k].last <= at && (!seen.value.active ==> at <= s.rows[k].first)
      case PendingMerge(d, b, plan) =>
        k.0 == Buyer(b) && k.1 in plan && Fits(s.rows, d, b, plan) ==>
          var src, dst := plan[k.1].src, plan[k.1].dst.value;
          s.rows[k].last <= Max(src.last, dst.last) && Min(src.first, dst.first) <= s.rows[k].first
  }

  lemma SpanKeptIffHonest(s: State, a: BuyerHistoryInterleaved.Step, k: Key)
    ensures SpanKept(s.rows, NextState(s, a).rows, k) <==> SpanHonest(s, a, k)
  {
  }

  predicate AllSpanHonest(s: State, steps: seq<BuyerHistoryInterleaved.Step>, k: Key)
    decreases |steps|
  {
    steps == [] || (SpanHonest(s, steps[0], k) && AllSpanHonest(NextState(s, steps[0]), steps[1..], k))
  }

  predicate AllSpansKept(s: State, steps: seq<BuyerHistoryInterleaved.Step>, k: Key)
    decreases |steps|
  {
    steps == []
    || (SpanKept(s.rows, NextState(s, steps[0]).rows, k) && AllSpansKept(NextState(s, steps[0]), steps[1..], k))
  }

  /** In an interleaved run every step keeps the span of a row if and only if every write does so honestly. */
  lemma {:induction false} SpansKeptIffHonest(s: State, steps: seq<BuyerHistoryInterleaved.Step>, k: Key)
    ensures AllSpansKept(s, steps, k) <==> AllSpanHonest(s, steps, k)
    decreases |steps|
  {
    if steps != [] {
      SpanKeptIffHonest(s, steps[0], k);
      SpansKeptIffHonest(NextState(s, steps[0]), steps[1..], k);
    }
  }

  ghost predicate ActiveInEveryState(s: State, steps: seq<BuyerHistoryInterleaved.Step>, k: Key)
    decreases |steps|
  {
    IsActive(s.rows, k) && (steps != [] ==> ActiveInEveryState(NextState(s, steps[0]), steps[1..], k))
  }

  /** Then a row that stays active ends with a span that encloses the one it began with. */
  lemma {:induction false} HonestSpansOnlyGrow(s: State, steps: seq<BuyerHistoryInterleaved.Step>, k: Key)
    requires ActiveInEveryState(s, steps, k) && AllSpanHonest(s, steps, k)
    ensures IsActive(RunSteps(s, steps).rows, k) && SpanKept(s.rows, RunSteps(s, steps).rows, k)
    decreases |steps|
  {
    if steps != [] {
      SpanKeptIffHonest(s, steps[0], k);
      HonestSpansOnlyGrow(NextState(s, steps[0]), steps[1..], k);
    }
  }

  /**
   Two views that both read before either writes, the later one writing first: honest with the counts,
   and yet the last view is moved back.
   */
  lemma OverlappingViewsMoveBack(rows: Rows, k: Key, m: MerchantId, early: int, late: int)
    requires Inv(rows) && IsActive(rows, k) && rows[k].last + DEDUP <= early < late
    ensures var seen := Some(rows[k]);
      var one := WriteView(rows, k, m, late, seen);
      var two := WriteView(one, k, m, early, seen);
      && ViewCounts(rows, k, late, seen) && ViewHonest(rows, k, seen)
      && ViewCounts(one, k, early, seen) && ViewHonest(one, k, seen)
      && !SpanKept(one, two, k) && one[k].last == late && two[k].last == early
  {
  }

  // ----- pace --------------------------------------------------------------------------------------

  // From how many rows each row was put together, now and when each open request read.
  datatype Tally = Tally(parts: map<Key, nat>, read: map<nat, map<Key, nat>>)

  function PartsWritten(rows: Rows, parts: map<Key, nat>, r: Pending, read: map<Key, nat>): map<Key, nat> {
    match r
    case PendingView(k, _, at, seen) =>
      if !ViewCounts(rows, k, at, seen) then parts
      else parts[k := if seen.Some? && seen.value.active && k in read then read[k] else 1]
    case PendingMerge(d, b, plan) =>
      if !Fits(rows, d, b, plan) then parts
      else
        map k | k in parts.Keys + (set p | p in plan :: (Buyer(b), p)) ::
          if k.0 == Buyer(b) && k.1 in plan then PairParts(d, b, k.1, plan[k.1], read)
          else if k in parts then parts[k] else 0
  }

  function PartOf(parts: map<Key, nat>, k: Key): nat { if k in parts then parts[k] else 0 }

  function PairParts(d: DeviceId, b: BuyerId, p: ProductId, pair: Pair, read: map<Key, nat>): nat {
    PartOf(read, (Device(d), p)) + if pair.dst.Some? then PartOf(read, (Buyer(b), p)) else 0
  }

  function NextTally(s: State, n: Tally, a: BuyerHistoryInterleaved.Step): Tally {
    match a
    case StartView(t, _, _, _) => if t in s.open then n else n.(read := n.read[t := n.parts])
    case StartMerge(t, _, _) => if t in s.open then n else n.(read := n.read[t := n.parts])
    case Write(t) =>
      if t in s.open && t in n.read then Tally(PartsWritten(s.rows, n.parts, s.open[t], n.read[t]), n.read - {t}) else n
    case GiveUp(t) => n.(read := n.read - {t})
    case DeleteNow(_, _, _) => n
  }

  // What an open request read was paced.
  predicate ReadPaced(r: Pending, read: map<Key, nat>) {
    match r
    case PendingView(k, _, _, seen) => seen.Some? ==> k in read && Paced(seen.value, read[k])
    case PendingMerge(d, b, plan) => forall p | p in plan :: PairPaced(d, b, p, plan[p], read)
  }

  predicate PairPaced(d: DeviceId, b: BuyerId, p: ProductId, pair: Pair, read: map<Key, nat>) {
    && (Device(d), p) in read && Paced(pair.src, read[(Device(d), p)])
    && (pair.dst.Some? ==> (Buyer(b), p) in read && Paced(pair.dst.value, read[(Buyer(b), p)]))
  }

  ghost predicate ReadsPaced(s: State, n: Tally) {
    n.read.Keys == s.open.Keys && forall t | t in s.open :: ReadPaced(s.open[t], n.read[t])
  }

  // A view that goes on counting from the active row it read leaves the stored first view in place: the
  // time from there to the view must be long enough for the new count.
  predicate PaceHonest(s: State, n: Tally, a: BuyerHistoryInterleaved.Step) {
    a.Write? && a.t in s.open && a.t in n.read && s.open[a.t].PendingView? ==>
      var r := s.open[a.t];
      ViewCounts(s.rows, r.key, r.at, r.seen) && r.seen.Some? && r.seen.value.active && r.key in n.read[a.t] ==>
        var m, first := n.read[a.t][r.key], s.rows[r.key].first;
        first <= r.at && DEDUP * (r.seen.value.count + 1 - m) <= m * (r.at - first)
  }

  lemma OneRowPaced(rows: Rows, parts: map<Key, nat>, k: Key, row: Row, n: nat)
    requires AllPaced(rows, parts)
    ensures AllPaced(rows[k := row], parts[k := n]) <==> Paced(row, n)
  {
    assert rows[k := row][k] == row && parts[k := n][k] == n;
  }

  // The row after a view that goes on counting, and after one that starts it anew.
  lemma ViewedRowPaced(rows: Rows, k: Key, m: MerchantId, at: int, seen: Option<Row>, n: nat)
    requires ViewCounts(rows, k, at, seen)
    ensures var row := WriteView(rows, k, m, at, seen)[k];
      if seen.Some? && seen.value.active then
        Paced(row, n) <==>
          n >= 1 && rows[k].first <= at && DEDUP * (seen.value.count + 1 - n) <= n * (at - rows[k].first)
      else Paced(row, 1)
  {
  }

  lemma ViewPacedIffHonest(s: State, n: Tally, t: nat)
    requires AllPaced(s.rows, n.parts) && ReadsPaced(s, n) && t in s.open && s.open[t].PendingView?
    ensures AllPaced(NextState(s, Write(t)).rows, NextTally(s, n, Write(t)).parts) <==> PaceHonest(s, n, Write(t))
  {
    var r := s.open[t];
    assert ReadPaced(r, n.read[t]);
    if ViewCounts(s.rows, r.key, r.at, r.seen) {
      var row := WriteView(s.rows, r.key, r.merchant, r.at, r.seen)[r.key];
      var m := PartsWritten(s.rows, n.parts, r, n.read[t])[r.key];
      ViewedRowPaced(s.rows, r.key, r.merchant, r.at, r.seen, m);
      OneRowPaced(s.rows, n.parts, r.key, row, m);
    }
  }

  lemma SameTimes(rows: Rows, to: Key, pair: Pair)
    requires pair.dst.Some? ==> to in rows
    ensures var row, whole := BuyerRow(rows, to, pair), Combined(pair.dst, pair.src);
      row.first == whole.first && row.last == whole.last && row.count == whole.count
  {
  }

  lemma PairRowPaced(rows: Rows, d: DeviceId, b: BuyerId, p: ProductId, pair: Pair, read: map<Key, nat>)
    requires PairPaced(d, b, p, pair, read) && (pair.dst.Some? ==> (Buyer(b), p) in rows)
    ensures Paced(BuyerRow(rows, (Buyer(b), p), pair), PairParts(d, b, p, pair, read))
  {
    var to: Key := (Buyer(b), p);
    CombinedPaced(pair.dst, if pair.dst.Some? then read[to] else 0, pair.src, read[(Device(d), p)]);
    SameTimes(rows, to, pair);
  }

  // A merge puts together what it read, whatever is stored by now.
  lemma MergeKeepsPace(rows: Rows, parts: map<Key, nat>, d: DeviceId, b: BuyerId, plan: Plan, read: map<Key, nat>)
    requires AllPaced(rows, parts) && ReadPaced(PendingMerge(d, b, plan), read)
    ensures AllPaced(WriteMerge(rows, d, b, plan), PartsWritten(rows, parts, PendingMerge(d, b, plan), read))
  {
    if Fits(rows, d, b, plan) {
      var after, nums := WriteMerge(rows, d, b, plan), PartsWritten(rows, parts, PendingMerge(d, b, plan), read);
      assert after.Keys == nums.Keys;
      forall k | k in after ensures Paced(after[k], nums[k]) {
        if k.0 == Buyer(b) && k.1 in plan { PairRowPaced(rows, d, b, k.1, plan[k.1], read); }
      }
    }
  }

  lemma PaceKeptIffHonest(s: State, n: Tally, a: BuyerHistoryInterleaved.Step)
    requires AllPaced(s.rows, n.parts) && ReadsPaced(s, n)
    ensures AllPaced(NextState(s, a).rows, NextTally(s, n, a).parts) <==> PaceHonest(s, n, a)
  {
    if a.Write? && a.t in s.open {
      match s.open[a.t]
      case PendingView(_, _, _, _) => ViewPacedIffHonest(s, n, a.t);
      case PendingMerge(d, b, plan) =>
        assert ReadPaced(s.open[a.t], n.read[a.t]);
        MergeKeepsPace(s.rows, n.parts, d, b, plan, n.read[a.t]);
    }
  }

  lemma ReadsStayPaced(s: State, n: Tally, a: BuyerHistoryInterleaved.Step)
    requires AllPaced(s.rows, n.parts) && ReadsPaced(s, n)
    ensures ReadsPaced(NextState(s, a), NextTally(s, n, a))
  {
    match a
    case StartView(t, k, m, at) =>
      if t !in s.open { assert ReadPaced(PendingView(k, m, at, Find(s.rows, k)), n.parts); }
    case StartMerge(t, d, b) => if t !in s.open { ReadMergePaced(s.rows, n.parts, d, b); }
    case _ =>
  }

  lemma ReadMergePaced(rows: Rows, parts: map<Key, nat>, d: DeviceId, b: BuyerId)
    requires AllPaced(rows, parts)
    ensures ReadPaced(PendingMerge(d, b, ReadMerge(rows, d, b)), parts)
  {
  }

  predicate AllPaceHonest(s: State, n: Tally, steps: seq<BuyerHistoryInterleaved.Step>)
    decreases |steps|
  {
    steps == []
    || (PaceHonest(s, n, steps[0]) && AllPaceHonest(NextState(s, steps[0]), NextTally(s, n, steps[0]), steps[1..]))
  }

  // In every state of the run.
  ghost predicate PacedThroughout(s: State, n: Tally, steps: seq<BuyerHistoryInterleaved.Step>)
    decreases |steps|
  {
    && AllPaced(s.rows, n.parts)
    && (steps != [] ==> PacedThroughout(NextState(s, steps[0]), NextTally(s, n, steps[0]), steps[1..]))
  }

  /**
   In an interleaved run counts stay bounded by time, in every state of it, if and only if every view
   that goes on counting leaves enough time since the stored first view. Merges, views that start a row
   anew and deletes always do.
   */
  lemma {:induction false} CountsAreBoundedIffHonest(s: State, n: Tally, steps: seq<BuyerHistoryInterleaved.Step>)
    requires AllPaced(s.rows, n.parts) && ReadsPaced(s, n)
    ensures PacedThroughout(s, n, steps) <==> AllPaceHonest(s, n, steps)
    decreases |steps|
  {
    if steps != [] {
      var t, m := NextState(s, steps[0]), NextTally(s, n, steps[0]);
      PaceKeptIffHonest(s, n, steps[0]);
      ReadsStayPaced(s, n, steps[0]);
      if AllPaced(t.rows, m.parts) { CountsAreBoundedIffHonest(t, m, steps[1..]); }
    }
  }

  /** It does when the row was not started anew since it was read: its first view is no later than it was. */
  lemma UnmovedFirstKeepsPace(s: State, n: Tally, t: nat)
    requires ReadsPaced(s, n) && t in s.open && s.open[t].PendingView? && s.open[t].seen.Some?
    requires s.open[t].key in s.rows && s.rows[s.open[t].key].first <= s.open[t].seen.value.first
    ensures PaceHonest(s, n, Write(t))
  {
    var r := s.open[t];
    assert ReadPaced(r, n.read[t]);
    var m, seen := n.read[t][r.key], r.seen.value;
    if ViewCounts(s.rows, r.key, r.at, r.seen) && seen.active {
      assert m * (r.at - seen.first) == m * (seen.last - seen.first) + m * (r.at - seen.last);
      Widen(m, DEDUP, r.at - seen.last);
      Widen(DEDUP, 1, m);
      Widen(m, r.at - seen.first, r.at - s.rows[r.key].first);
    }
  }

  // A view that comes before the first one stored, and goes on counting, breaks every bound.
  lemma EarlierThanTheFirst(rows: Rows, k: Key, m: MerchantId, at: int, seen: Row)
    requires ViewCounts(rows, k, at, Some(seen)) && seen.active && at < rows[k].first
    ensures forall n: nat :: !Paced(WriteView(rows, k, m, at, Some(seen))[k], n)
  {
  }

  /** A stale view of a row that was deleted and viewed anew: honest with the counts, and not paced. */
  lemma StaleViewLosesPace(rows: Rows, k: Key, m: MerchantId, at: int, again: int)
    requires Inv(rows) && IsActive(rows, k) && rows[k].count == 1 && rows[k].last + DEDUP <= at < again
    ensures var anew := View(Delete(rows, k.0, rows[k].merchant, None), k, m, again);
      && ViewCounts(anew, k, at, Some(rows[k])) && ViewHonest(anew, k, Some(rows[k]))
      && forall n: nat :: !Paced(WriteView(anew, k, m, at, Some(rows[k]))[k], n)
  {
    var anew := View(Delete(rows, k.0, rows[k].merchant, None), k, m, again);
    EarlierThanTheFirst(anew, k, m, at, rows[k]);
  }
}
