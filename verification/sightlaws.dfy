// What a flow sees of the change impacts, by the positions of the events and reviews that say it
// (contracts/domain/impactevent.go, seenBy and flowPost).
module SightLaws {
  import opened Prelude
  import opened Domain
  import opened Adoption

  // The run of something was replaced.
  predicate Replaced(execution: string, stale: set<string>) { execution != "" && execution in stale }

  // Something of a flow is of the chain of flows, or of main.
  predicate InChain(flow: string, chain: seq<string>) { flow == "" || exists i :: 0 <= i < |chain| && chain[i] == flow }

  /** A flow sees the impacts that were not replaced, of its chain, whose run stands; main sees those of its own whatever the run. */
  predicate SeesImpact(cn: ChangeImpact, chain: seq<string>, stale: set<string>) {
    !cn.superseded && InChain(cn.flow, chain) && (chain == [] || !Replaced(cn.execution, stale))
  }

  predicate SeesReview(r: Review, chain: seq<string>, stale: set<string>) {
    !r.superseded && InChain(r.flow, chain) && !Replaced(r.execution, stale)
  }

  // The last review that the flow sees, proposed when there is none.
  ghost predicate ReviewSeen(reviews: seq<Review>, chain: seq<string>, stale: set<string>, status: NodeReview) {
    if exists j: nat :: LastReview(reviews, chain, stale, j)
    then exists j: nat :: LastReview(reviews, chain, stale, j) && status == reviews[j].status
    else status == ReviewProposed
  }

  predicate LastReview(reviews: seq<Review>, chain: seq<string>, stale: set<string>, j: nat) {
    j < |reviews| && SeesReview(reviews[j], chain, stale) && forall k :: j < k < |reviews| ==> !SeesReview(reviews[k], chain, stale)
  }

  // An event that says the post of an impact on a flow: one that creates, checks out or moves it, in a run that stands, or
  // one that cancels it, whatever the run when it leaves no post.
  predicate SaysPost(e: ImpactEvent, id: string, flow: string, stale: set<string>) {
    e.impact == id && e.flow == flow &&
    (((e.op == ImpactCreated || e.op == ImpactCheckedOut || e.op == ImpactTransitioned || e.op == ImpactCancelled) &&
      !Replaced(e.execution, stale)) || (e.op == ImpactCancelled && e.post.None?))
  }

  predicate LastPost(events: seq<ImpactEvent>, id: string, flow: string, stale: set<string>, j: nat) {
    j < |events| && SaysPost(events[j], id, flow, stale) && forall k :: j < k < |events| ==> !SaysPost(events[k], id, flow, stale)
  }

  // The post of an impact on a flow: that of the last event that says it.
  ghost predicate PostOnSays(events: seq<ImpactEvent>, id: string, flow: string, stale: set<string>, post: Option<NodeRef>) {
    if exists j: nat :: LastPost(events, id, flow, stale, j)
    then exists j: nat :: LastPost(events, id, flow, stale, j) && post == events[j].post
    else post == None
  }

  // The innermost flow with a post, of a chain from the innermost out.
  ghost predicate PostAlongSays(events: seq<ImpactEvent>, id: string, order: seq<string>, stale: set<string>, post: Option<NodeRef>) {
    (post == None && forall i :: 0 <= i < |order| ==> PostOnSays(events, id, order[i], stale, None)) ||
    exists i :: 0 <= i < |order| && post.Some? && PostOnSays(events, id, order[i], stale, post) &&
                forall k :: 0 <= k < i ==> PostOnSays(events, id, order[k], stale, None)
  }

  // An impact as a flow sees it: as it is on main, with the post and review of the chain on a branch.
  ghost predicate SightSays(cn: ChangeImpact, events: seq<ImpactEvent>, chain: seq<string>, stale: set<string>, seen: ChangeImpact) {
    if chain == [] then seen == cn
    else seen == cn.(post := seen.post, review := seen.review) && ReviewSeen(cn.reviews, chain, stale, seen.review) &&
         PostAlongSays(events, cn.id, chain + [""], stale, seen.post)
  }

  /** What a flow sees of a list of impacts, in its order. */
  ghost predicate ViewSays(impacts: seq<ChangeImpact>, events: seq<ImpactEvent>, chain: seq<string>, stale: set<string>, at: seq<nat>,
                           view: seq<ChangeImpact>) {
    |view| == |at| && (forall j, k :: 0 <= j < k < |at| ==> at[j] < at[k]) &&
    (forall k :: 0 <= k < |at| ==> at[k] < |impacts| && SightSays(impacts[at[k]], events, chain, stale, view[k])) &&
    forall i: nat :: i < |impacts| ==> (i in at <==> SeesImpact(impacts[i], chain, stale))
  }

  lemma {:induction false} LastSeenIs(reviews: seq<Review>, chain: seq<string>, stale: set<string>)
    ensures ReviewSeen(reviews, chain, stale, LastSeen(reviews, chain, stale))
  {
    if reviews != [] {
      var n := |reviews| - 1;
      LastSeenIs(reviews[..n], chain, stale);
      InChainIs(reviews[n].flow, chain);
      if SeesReview(reviews[n], chain, stale) {
        assert LastReview(reviews, chain, stale, n);
      } else {
        forall j: nat ensures LastReview(reviews, chain, stale, j) <==> LastReview(reviews[..n], chain, stale, j) { }
      }
    }
  }

  lemma InChainIs(flow: string, chain: seq<string>)
    ensures InChain(flow, chain) <==> flow == "" || flow in chain
  {
  }

  lemma {:induction false} PostOnIs(events: seq<ImpactEvent>, id: string, flow: string, stale: set<string>)
    ensures PostOnSays(events, id, flow, stale, PostOn(events, id, flow, stale))
  {
    if events != [] {
      var n := |events| - 1;
      PostOnIs(events[..n], id, flow, stale);
      SaysPostIs(events[n], id, flow, stale);
      PostOnMore(events, n, id, flow, stale, PostOn(events[..n], id, flow, stale));
    }
  }

  // One event more: it says the post, or the post is as it was.
  lemma SaysPostIs(e: ImpactEvent, id: string, flow: string, stale: set<string>)
    ensures SaysPost(e, id, flow, stale) <==>
            MovesPost(e, id) && e.flow == flow && ((e.op == ImpactCancelled && e.post.None?) || !Stale(e.execution, stale))
  {
  }

  lemma PostOnMore(events: seq<ImpactEvent>, n: nat, id: string, flow: string, stale: set<string>, before: Option<NodeRef>)
    requires |events| == n + 1 && PostOnSays(events[..n], id, flow, stale, before)
    ensures PostOnSays(events, id, flow, stale, if SaysPost(events[n], id, flow, stale) then events[n].post else before)
  {
    if SaysPost(events[n], id, flow, stale) {
      assert LastPost(events, id, flow, stale, n);
    } else {
      forall j: nat ensures LastPost(events, id, flow, stale, j) <==> LastPost(events[..n], id, flow, stale, j) { }
    }
  }

  lemma {:induction false} PostAlongIs(events: seq<ImpactEvent>, id: string, order: seq<string>, stale: set<string>)
    ensures PostAlongSays(events, id, order, stale, PostAlong(events, id, order, stale))
  {
    if order != [] {
      PostOnIs(events, id, order[0], stale);
      PostAlongIs(events, id, order[1..], stale);
      PostAlongMore(events, id, order, stale, PostOn(events, id, order[0], stale), PostAlong(events, id, order[1..], stale));
    }
  }

  lemma PostAlongMore(events: seq<ImpactEvent>, id: string, order: seq<string>, stale: set<string>, first: Option<NodeRef>,
                      rest: Option<NodeRef>)
    requires order != [] && PostOnSays(events, id, order[0], stale, first) && PostAlongSays(events, id, order[1..], stale, rest)
    ensures PostAlongSays(events, id, order, stale, if first.Some? then first else rest)
  {
    if first.None? {
      if rest.Some? {
        var i :| 0 <= i < |order[1..]| && PostOnSays(events, id, order[1..][i], stale, rest) &&
                 forall k :: 0 <= k < i ==> PostOnSays(events, id, order[1..][k], stale, None);
        var j := i + 1;
        forall k | 0 <= k < j ensures PostOnSays(events, id, order[k], stale, None) {
          if k > 0 { assert order[k] == order[1..][k - 1]; }
        }
        assert order[j] == order[1..][i];
      } else {
        forall k | 0 <= k < |order| ensures PostOnSays(events, id, order[k], stale, None) {
          if k > 0 { assert order[k] == order[1..][k - 1]; }
        }
      }
    }
  }

  lemma SightIs(cn: ChangeImpact, events: seq<ImpactEvent>, chain: seq<string>, stale: set<string>)
    ensures SightSays(cn, events, chain, stale, SeenAs(cn, events, chain, stale))
  {
    if chain != [] {
      LastSeenIs(cn.reviews, chain, stale);
      PostAlongIs(events, cn.id, chain + [""], stale);
    }
  }

  lemma SeesIs(cn: ChangeImpact, chain: seq<string>, stale: set<string>)
    ensures SeesImpact(cn, chain, stale) <==> !Hidden(cn, chain, stale)
  {
    InChainIs(cn.flow, chain);
  }

  lemma ViewMore(impacts: seq<ChangeImpact>, n: nat, events: seq<ImpactEvent>, chain: seq<string>, stale: set<string>, at: seq<nat>,
                 view: seq<ChangeImpact>, seen: ChangeImpact)
    requires |impacts| == n + 1 && ViewSays(impacts[..n], events, chain, stale, at, view)
    requires SightSays(impacts[n], events, chain, stale, seen)
    ensures SeesImpact(impacts[n], chain, stale) ==> ViewSays(impacts, events, chain, stale, at + [n], view + [seen])
    ensures !SeesImpact(impacts[n], chain, stale) ==> ViewSays(impacts, events, chain, stale, at, view)
  {
    if SeesImpact(impacts[n], chain, stale) {
      forall i: nat | i < |impacts| ensures i in at + [n] <==> SeesImpact(impacts[i], chain, stale) {
        if i < n { assert impacts[i] == impacts[..n][i]; }
      }
      forall k: nat | k <= |at| ensures SightSays(impacts[(at + [n])[k]], events, chain, stale, (view + [seen])[k]) {
        if k < |at| { assert impacts[at[k]] == impacts[..n][at[k]]; }
      }
    } else {
      forall i: nat | i < |impacts| ensures i in at <==> SeesImpact(impacts[i], chain, stale) {
        if i < n { assert impacts[i] == impacts[..n][i]; }
      }
    }
  }

  /** What a flow sees of the impacts of a change is what its chain says of each. */
  lemma {:induction false} SeenIsWhatTheChainSays(impacts: seq<ChangeImpact>, events: seq<ImpactEvent>, chain: seq<string>, stale: set<string>)
    returns (at: seq<nat>)
    ensures ViewSays(impacts, events, chain, stale, at, Seen(impacts, events, chain, stale))
  {
    if impacts == [] {
      at := [];
    } else {
      var n := |impacts| - 1;
      at := SeenIsWhatTheChainSays(impacts[..n], events, chain, stale);
      SightIs(impacts[n], events, chain, stale);
      SeesIs(impacts[n], chain, stale);
      ViewMore(impacts, n, events, chain, stale, at, Seen(impacts[..n], events, chain, stale), SeenAs(impacts[n], events, chain, stale));
      if SeesImpact(impacts[n], chain, stale) { at := at + [n]; }
    }
  }
}
