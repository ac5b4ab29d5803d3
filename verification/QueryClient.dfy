/**
 The query client: mounted queries, grouped by the text of their key, and invalidation by prefix.
 */
module QueryClients {
  import opened Wrappers
  import opened QueryKeys
  import opened QueryKeysProofs

  // Every registration is an object of its own, hence the id.
  datatype Registration = Registration(id: nat, key: seq<Json>)

  predicate ValidKey(key: seq<Json>) { forall k | 0 <= k < |key| :: Valid(key[k]) }

  function Hash(key: seq<Json>): string { Print(Arr(key)) }

  // The target is a prefix of the key, up to the order of object keys; no target matches every key.
  predicate HasPrefix(key: seq<Json>, target: Option<seq<Json>>) {
    target.Some? ==>
      |target.value| <= |key| && forall k | 0 <= k < |target.value| :: Same(target.value[k], key[k])
  }

  /** Compares texts, one item after the other. */
  method MatchesQueryKey(current: seq<Json>, target: Option<seq<Json>>) returns (r: bool)
    requires ValidKey(current) && (target.Some? ==> ValidKey(target.value))
    ensures r <==> HasPrefix(current, target)
    ensures target.None? || target.value == [] ==> r
    ensures target.Some? && |target.value| > |current| ==> !r
    ensures target.Some? && |target.value| <= |current| ==>
      (r <==> forall k | 0 <= k < |target.value| :: Same(target.value[k], current[k]))
  {
    if target.None? || |target.value| == 0 { return true; }
    if |target.value| > |current| { return false; }
    var k := 0;
    while k < |target.value|
      invariant 0 <= k <= |target.value|
      invariant forall i | 0 <= i < k :: Same(target.value[i], current[i])
    {
      PrintsAlikeIffSame(target.value[k], current[k]);
      if StableSerialize(target.value[k]) != StableSerialize(current[k]) { return false; }
      k := k + 1;
    }
    return true;
  }

  // Keys that share a group: same length up to the vanishing undefined, and same items.
  lemma SameGroupIffSameKey(a: seq<Json>, b: seq<Json>)
    requires ValidKey(a) && ValidKey(b)
    ensures Hash(a) == Hash(b) <==> Same(Arr(a), Arr(b))
  {
    PrintsAlikeIffSame(Arr(a), Arr(b));
  }

  class QueryClient {
    var registrations: map<string, set<Registration>>
    var issued: nat                        // identities handed out so far
    ghost var live: set<Registration>      // registered and not yet unregistered

    // Groups are not empty, and a live registration is in the group of its own key and nowhere else.
    ghost predicate Grouped()
      reads this
    {
      && (forall h | h in registrations :: registrations[h] != {})
      && (forall h, r | h in registrations && r in registrations[h] :: r in live && Hash(r.key) == h)
      && (forall r | r in live :: Hash(r.key) in registrations && r in registrations[Hash(r.key)])
    }

    ghost predicate Valid()
      reads this
    {
      && Grouped()
      && (forall r | r in live :: r.id < issued && ValidKey(r.key))
      && (forall r, q | r in live && q in live && r.id == q.id :: r == q)
    }

    constructor ()
      ensures Valid() && live == {}
    {
      registrations, issued, live := map[], 0, {};
    }

    method RegisterQuery(key: seq<Json>) returns (registration: Registration)
      requires Valid() && ValidKey(key)
      modifies this
      ensures Valid() && registration.key == key
      ensures registration !in old(live) && live == old(live) + {registration}
    {
      var hash := Hash(key);
      var existing := if hash in registrations then registrations[hash] else {};
      registration := Registration(issued, key);
      issued := issued + 1;
      AddToGroup(registration, hash, existing);
    }

    method AddToGroup(registration: Registration, hash: string, existing: set<Registration>)
      requires Grouped() && hash == Hash(registration.key)
      requires existing == if hash in registrations then registrations[hash] else {}
      modifies this`registrations, this`live
      ensures Grouped() && live == old(live) + {registration}
    {
      registrations := registrations[hash := existing + {registration}];
      live := live + {registration};
      forall h, r | h in registrations && r in registrations[h] ensures r in live && Hash(r.key) == h {
        assert r != registration ==> h in old(registrations) && r in old(registrations)[h];
      }
    }

    /** The function registerQuery returns; calling it again does nothing. */
    method Unregister(registration: Registration)
      requires Valid()
      modifies this
      ensures Valid() && live == old(live) - {registration}
    {
      var hash := Hash(registration.key);
      if hash in registrations {
        var group := registrations[hash] - {registration};
        registrations := registrations[hash := group];
        if |group| == 0 { registrations := registrations - {hash}; }
      }
      live := live - {registration};
    }

    /**
     Refetches every live registration whose key has the target as a prefix, each once. The order
     of the groups and within a group is left open.
     */
    method InvalidateQueries(target: Option<seq<Json>>) returns (tasks: seq<Registration>)
      requires Valid() && (target.Some? ==> ValidKey(target.value))
      ensures Distinct(tasks)
      ensures forall r :: r in tasks <==> r in live && HasPrefix(r.key, target)
    {
      tasks := [];
      var groups := registrations.Keys;
      while groups != {}
        invariant groups <= registrations.Keys && Distinct(tasks)
        invariant forall r :: r in tasks <==> r in live && Hash(r.key) !in groups && HasPrefix(r.key, target)
        decreases |groups|
      {
        var hash :| hash in groups;
        var more := Refetched(registrations[hash], target);
        assert forall r | r in more :: Hash(r.key) == hash;
        tasks := tasks + more;
        groups := groups - {hash};
      }
    }
  }

  predicate Distinct(tasks: seq<Registration>) { forall i, j | 0 <= i < j < |tasks| :: tasks[i] != tasks[j] }

  // The inner loop: the registrations of one group that match.
  method Refetched(group: set<Registration>, target: Option<seq<Json>>) returns (tasks: seq<Registration>)
    requires (forall r | r in group :: ValidKey(r.key)) && (target.Some? ==> ValidKey(target.value))
    ensures Distinct(tasks)
    ensures forall r :: r in tasks <==> r in group && HasPrefix(r.key, target)
  {
    tasks := [];
    var left := group;
    while left != {}
      invariant left <= group && Distinct(tasks)
      invariant forall r :: r in tasks <==> r in group && r !in left && HasPrefix(r.key, target)
      decreases |left|
    {
      var registration :| registration in left;
      var matches := MatchesQueryKey(registration.key, target);
      if matches { tasks := tasks + [registration]; }
      left := left - {registration};
    }
  }
}
