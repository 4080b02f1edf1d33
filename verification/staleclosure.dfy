// What a relaunched step invalidates (contracts/domain/flow.go): the items that depend on the seeds, however far.
module StaleClosures {
  import opened Prelude
  import opened Flows

  // An item depends on what it derives from and on what it decides on.
  predicate DependsOn(it: Item, d: string) { d in it.derivedFrom || (it.decision.Some? && it.decision.value.item == d) }

  predicate Reached(it: Item, stale: set<string>) {
    it.kind != FlowItem && ((exists d :: d in it.derivedFrom && d in stale) || (it.decision.Some? && it.decision.value.item in stale))
  }

  ghost predicate Closed(items: seq<Item>, stale: set<string>) {
    forall it :: it in items && Reached(it, stale) ==> it.id in stale
  }

  // The least set that holds the seeds and every item that depends on one of its own.
  ghost predicate IsClosure(items: seq<Item>, seeds: set<string>, stale: set<string>) {
    seeds <= stale && Closed(items, stale) && forall t: set<string> :: seeds <= t && Closed(items, t) ==> stale <= t
  }

  function IdsIn(items: seq<Item>, stale: set<string>): seq<string> {
    if items == [] then []
    else
      var n := |items| - 1;
      if items[n].id in stale then IdsIn(items[..n], stale) + [items[n].id] else IdsIn(items[..n], stale)
  }

  // ---- reachability

  // A walk from a seed, each next one an item that depends on the one before.
  ghost predicate Walk(items: seq<Item>, seeds: set<string>, walk: seq<string>)
  {
    walk != [] && walk[0] in seeds && forall k :: 0 < k < |walk| ==> Edge(items, walk[k - 1], walk[k])
  }

  ghost predicate Edge(items: seq<Item>, d: string, id: string) {
    exists it :: it in items && it.kind != FlowItem && it.id == id && DependsOn(it, d)
  }

  ghost predicate Reachable(items: seq<Item>, seeds: set<string>, id: string) {
    exists walk :: Walk(items, seeds, walk) && walk[|walk| - 1] == id
  }

  lemma {:induction false} WalkStaysIn(items: seq<Item>, seeds: set<string>, stale: set<string>, walk: seq<string>)
    requires seeds <= stale && Closed(items, stale) && Walk(items, seeds, walk)
    ensures walk[|walk| - 1] in stale
  {
    var n := |walk| - 1;
    if n > 0 {
      var before := walk[..n];
      assert Edge(items, walk[n - 1], walk[n]);
      assert forall k :: 0 < k < n ==> Edge(items, walk[k - 1], walk[k]);
      WalkStaysIn(items, seeds, stale, before);
      var it :| it in items && it.kind != FlowItem && it.id == walk[n] && DependsOn(it, walk[n - 1]);
      assert Reached(it, stale);
    }
  }

  lemma WalkOn(items: seq<Item>, seeds: set<string>, d: string, id: string)
    requires Reachable(items, seeds, d) && Edge(items, d, id)
    ensures Reachable(items, seeds, id)
  {
    var walk :| Walk(items, seeds, walk) && walk[|walk| - 1] == d;
    var longer := walk + [id];
    forall k | 0 < k < |longer| ensures Edge(items, longer[k - 1], longer[k]) {
      if k < |walk| { assert Edge(items, walk[k - 1], walk[k]); }
    }
    assert Walk(items, seeds, longer);
  }

  lemma ReachedIsReachable(items: seq<Item>, seeds: set<string>, stale: set<string>, it: Item)
    requires it in items && Reached(it, stale) && forall d :: d in stale ==> Reachable(items, seeds, d)
    ensures Reachable(items, seeds, it.id)
  {
    var d :| d in stale && DependsOn(it, d);
    assert Edge(items, d, it.id);
    WalkOn(items, seeds, d, it.id);
  }

  /** The closure is what the seeds reach: each seed, and each item at the end of a walk of dependencies from one. */
  lemma ClosureIsReachability(items: seq<Item>, seeds: set<string>, stale: set<string>)
    ensures IsClosure(items, seeds, stale) <==> forall id :: id in stale <==> Reachable(items, seeds, id)
  {
    if IsClosure(items, seeds, stale) {
      var t := set id | id in stale && Reachable(items, seeds, id);
      forall s | s in seeds ensures s in t { assert Walk(items, seeds, [s]) && [s][|[s]| - 1] == s; }
      forall it | it in items && Reached(it, t) ensures it.id in t {
        ReachedIsReachable(items, seeds, t, it);
        assert Reached(it, stale);
      }
      assert stale <= t;
      forall id | Reachable(items, seeds, id) ensures id in stale {
        var walk :| Walk(items, seeds, walk) && walk[|walk| - 1] == id;
        WalkStaysIn(items, seeds, stale, walk);
      }
    } else if forall id :: id in stale <==> Reachable(items, seeds, id) {
      ReachableIsClosure(items, seeds, stale);
    }
  }

  lemma ReachableIsClosure(items: seq<Item>, seeds: set<string>, stale: set<string>)
    requires forall id :: id in stale <==> Reachable(items, seeds, id)
    ensures IsClosure(items, seeds, stale)
  {
    forall s | s in seeds ensures s in stale { assert Walk(items, seeds, [s]) && [s][|[s]| - 1] == s; }
    forall it | it in items && Reached(it, stale) ensures it.id in stale { ReachedIsReachable(items, seeds, stale, it); }
    forall t: set<string> | seeds <= t && Closed(items, t) ensures stale <= t {
      forall id | id in stale ensures id in t {
        var walk :| Walk(items, seeds, walk) && walk[|walk| - 1] == id;
        WalkStaysIn(items, seeds, t, walk);
      }
    }
  }

  /** The order of the items does not matter, nor how often each is met. */
  lemma OrderDoesNotMatter(a: seq<Item>, b: seq<Item>, seeds: set<string>, s: set<string>, t: set<string>)
    requires forall it :: it in a <==> it in b
    requires IsClosure(a, seeds, s) && IsClosure(b, seeds, t)
    ensures s == t
  {
    assert Closed(a, t) && Closed(b, s);
  }

  /** No flow event is reached: one is in the closure only as a seed, or under the id of another item. */
  lemma FlowEventsAreNotReached(items: seq<Item>, seeds: set<string>, stale: set<string>, id: string)
    requires IsClosure(items, seeds, stale) && id in stale && id !in seeds
    ensures exists it :: it in items && it.kind != FlowItem && it.id == id
  {
    ClosureIsReachability(items, seeds, stale);
    var walk :| Walk(items, seeds, walk) && walk[|walk| - 1] == id;
    assert Edge(items, walk[|walk| - 2], id);
  }

  // ---- the loop

  function Ids(items: seq<Item>): set<string> { set it | it in items :: it.id }

  // Everything marked so far is in every closed set that holds the seeds.
  ghost predicate Due(items: seq<Item>, seeds: set<string>, stale: set<string>) {
    seeds <= stale && forall t: set<string> :: seeds <= t && Closed(items, t) ==> stale <= t
  }

  lemma OneMore(items: seq<Item>, seeds: set<string>, stale: set<string>, it: Item)
    requires Due(items, seeds, stale) && it in items && Reached(it, stale)
    ensures Due(items, seeds, stale + {it.id})
  {
    forall t: set<string> | seeds <= t && Closed(items, t) ensures it.id in t {
      assert stale <= t && Reached(it, t);
    }
  }

  lemma OneLess(items: seq<Item>, stale: set<string>, it: Item)
    requires it in items && it.id !in stale
    ensures |Ids(items) - (stale + {it.id})| < |Ids(items) - stale|
  {
    assert it.id in Ids(items) - stale;
    assert Ids(items) - (stale + {it.id}) == (Ids(items) - stale) - {it.id};
  }

  // One pass over the items, marking as it goes.
  method Pass(items: seq<Item>, ghost seeds: set<string>, before: set<string>) returns (stale: set<string>, changed: bool)
    requires Due(items, seeds, before)
    ensures Due(items, seeds, stale)
    ensures changed ==> |Ids(items) - stale| < |Ids(items) - before|
    ensures !changed ==> stale == before && Closed(items, stale)
  {
    stale, changed := before, false;
    for i := 0 to |items|
      invariant Due(items, seeds, stale)
      invariant changed ==> |Ids(items) - stale| < |Ids(items) - before|
      invariant !changed ==> stale == before && forall k :: 0 <= k < i && Reached(items[k], stale) ==> items[k].id in stale
    {
      var it := items[i];
      if it.id in stale || it.kind == FlowItem { continue; }
      var dep := exists d :: d in it.derivedFrom && d in stale;
      if !dep && it.decision.Some? { dep := it.decision.value.item in stale; }
      if dep {
        OneMore(items, seeds, stale, it);
        OneLess(items, stale, it);
        stale, changed := stale + {it.id}, true;
      }
    }
  }

  /** The ids of the items that depend on the seeds, in the order of the items. */
  method StaleClosure(items: seq<Item>, seeds: seq<string>) returns (out: seq<string>)
    ensures exists stale :: IsClosure(items, SetOf(seeds), stale) && out == IdsIn(items, stale)
  {
    var stale := SetOf(seeds);
    var changed := true;
    while changed
      invariant Due(items, SetOf(seeds), stale)
      invariant !changed ==> Closed(items, stale)
      decreases |Ids(items) - stale|, changed
    {
      stale, changed := Pass(items, SetOf(seeds), stale);
    }
    out := [];
    for i := 0 to |items|
      invariant out == IdsIn(items[..i], stale)
    {
      assert items[..i + 1][..i] == items[..i];
      if items[i].id in stale { out := out + [items[i].id]; }
    }
    assert items[..|items|] == items;
    assert IsClosure(items, SetOf(seeds), stale);
  }
}
