// The moves of a change along its lifecycle (contracts/domain/transition.go): which transitions stand, and what the moves
// that stand froze.
module Transitions {
  import opened Prelude

  datatype Freezes = Freezes(fields: seq<string>, types: seq<string>, transitions: bool, keepPhase: bool)

  datatype Move = Move(item: string, transition: string, from: string, to: string, decision: string, writer: string,
                       freezes: Option<Freezes>)

  // The last of some moves that took a transition, -1 when none did.
  function LastTaking(moves: seq<Move>, t: string): (k: int)
    ensures -1 <= k < |moves|
    ensures k >= 0 ==> moves[k].transition == t
    ensures forall j :: k < j < |moves| ==> moves[j].transition != t
  {
    if moves == [] then -1
    else if moves[|moves| - 1].transition == t then |moves| - 1
    else LastTaking(moves[..|moves| - 1], t)
  }

  // The state the last taking of a transition left.
  function LastFrom(moves: seq<Move>, t: string): string {
    var k := LastTaking(moves, t);
    if k < 0 then "" else moves[k].from
  }

  // What a move leaves of the transitions that stood: not itself, nor one that left the state it enters.
  predicate Keeps(moves: seq<Move>, m: Move, t: string) { LastFrom(moves, t) != m.to && t != m.transition }

  function Kept(moves: seq<Move>, m: Move, out: seq<string>): seq<string> {
    if out == [] then []
    else
      var n := |out| - 1;
      if Keeps(moves, m, out[n]) then Kept(moves, m, out[..n]) + [out[n]] else Kept(moves, m, out[..n])
  }

  // The transitions that stand after the first moves.
  function PassedAfter(moves: seq<Move>, k: nat): seq<string>
    requires k <= |moves|
  {
    if k == 0 then [] else Kept(moves, moves[k - 1], PassedAfter(moves, k - 1)) + [moves[k - 1].transition]
  }

  method MoveFrom(moves: seq<Move>, t: string) returns (from: string)
    ensures from == LastFrom(moves, t)
  {
    from := "";
    for i := 0 to |moves|
      invariant from == LastFrom(moves[..i], t)
    {
      assert moves[..i + 1][..i] == moves[..i];
      if moves[i].transition == t { from := moves[i].from; }
    }
    assert moves[..|moves|] == moves;
  }

  // Filters the first elements of a list in place, in order.
  method FilterInPlace(out: array<string>, n: nat, moves: seq<Move>, m: Move) returns (kept: nat)
    requires n <= out.Length
    modifies out
    ensures kept <= n && out[..kept] == Kept(moves, m, old(out[..n]))
  {
    kept := 0;
    ghost var was := out[..n];
    for i := 0 to n
      invariant kept <= i
      invariant out[..kept] == Kept(moves, m, was[..i])
      invariant forall k :: i <= k < n ==> out[k] == was[k]
    {
      assert was[..i + 1][..i] == was[..i];
      var from := MoveFrom(moves, out[i]);
      if from != m.to && out[i] != m.transition {
        var t := out[i];
        out[kept] := t;
        kept := kept + 1;
        assert out[..kept] == out[..kept - 1] + [t];
      }
    }
    assert was[..n] == was;
  }

  // A move drops what it takes back, and what it takes goes last.
  method TakeMove(list: array<string>, n: nat, moves: seq<Move>, m: Move) returns (after: nat)
    requires n < list.Length
    modifies list
    ensures after <= n + 1 && list[..after] == Kept(moves, m, old(list[..n])) + [m.transition]
  {
    after := FilterInPlace(list, n, moves, m);
    list[after] := m.transition;
    after := after + 1;
  }

  /** The transitions that stand, oldest taking first. */
  method Passed(moves: seq<Move>) returns (out: seq<string>)
    ensures out == PassedAfter(moves, |moves|)
  {
    var list := new string[|moves|](_ => "");
    var n := 0;
    for k := 0 to |moves|
      invariant 0 <= n <= k && list[..n] == PassedAfter(moves, k)
    {
      n := TakeMove(list, n, moves, moves[k]);
    }
    out := list[..n];
  }

  // ---- the closed form

  // A transition stands after the first moves: taken among them, and none of them since entered the state it left.
  predicate StandsAfter(moves: seq<Move>, k: nat, t: string)
    requires k <= |moves|
  {
    var last := LastTaking(moves[..k], t);
    last >= 0 && forall j :: last < j < k ==> moves[j].to != LastFrom(moves, t)
  }

  predicate Stands(moves: seq<Move>, t: string) {
    var last := LastTaking(moves, t);
    last >= 0 && forall j :: last < j < |moves| ==> moves[j].to != moves[last].from
  }

  lemma TakingSnoc(moves: seq<Move>, k: nat, t: string)
    requires k < |moves|
    ensures LastTaking(moves[..k + 1], t) == if moves[k].transition == t then k else LastTaking(moves[..k], t)
  {
    assert moves[..k + 1][..k] == moves[..k];
  }

  lemma StandsStep(moves: seq<Move>, k: nat, t: string)
    requires k < |moves|
    ensures StandsAfter(moves, k + 1, t)
       <==> t == moves[k].transition || (StandsAfter(moves, k, t) && Keeps(moves, moves[k], t))
  {
    TakingSnoc(moves, k, t);
  }

  lemma {:induction false} KeptHas(moves: seq<Move>, m: Move, out: seq<string>, t: string)
    ensures t in Kept(moves, m, out) <==> t in out && Keeps(moves, m, t)
  {
    if out != [] {
      var n := |out| - 1;
      KeptHas(moves, m, out[..n], t);
      assert out == out[..n] + [out[n]];
    }
  }

  lemma PassedSnoc(moves: seq<Move>, k: nat, t: string)
    requires k < |moves|
    ensures t in PassedAfter(moves, k + 1) <==> t == moves[k].transition || (t in PassedAfter(moves, k) && Keeps(moves, moves[k], t))
  {
    KeptHas(moves, moves[k], PassedAfter(moves, k), t);
  }

  ghost predicate PassedIsThat(moves: seq<Move>, k: nat, t: string)
    requires k <= |moves|
  {
    t in PassedAfter(moves, k) <==> StandsAfter(moves, k, t)
  }

  lemma PassedIsThatStill(moves: seq<Move>, k: nat, t: string)
    requires k < |moves| && PassedIsThat(moves, k, t)
    ensures PassedIsThat(moves, k + 1, t)
  {
    PassedSnoc(moves, k, t);
    StandsStep(moves, k, t);
  }

  lemma {:induction false} PassedHas(moves: seq<Move>, k: nat, t: string)
    requires k <= |moves|
    ensures PassedIsThat(moves, k, t)
  {
    if k > 0 {
      PassedHas(moves, k - 1, t);
      PassedIsThatStill(moves, k - 1, t);
    }
  }

  /** A transition is passed if and only if it was taken and no later move entered the state its last taking left. */
  lemma PassedIsStanding(moves: seq<Move>, t: string)
    ensures t in PassedAfter(moves, |moves|) <==> Stands(moves, t)
  {
    PassedHas(moves, |moves|, t);
    assert moves[..|moves|] == moves;
  }

  // ---- the order

  // In the order of their last takings among the first moves.
  ghost predicate Ordered(moves: seq<Move>, k: nat, out: seq<string>)
    requires k <= |moves|
  {
    forall i: nat, j: nat :: i < j < |out| ==> LastTaking(moves[..k], out[i]) < LastTaking(moves[..k], out[j])
  }

  lemma {:induction false} KeptOrdered(moves: seq<Move>, k: nat, m: Move, out: seq<string>)
    requires k <= |moves| && Ordered(moves, k, out)
    ensures Ordered(moves, k, Kept(moves, m, out))
  {
    if out != [] {
      var n := |out| - 1;
      KeptOrdered(moves, k, m, out[..n]);
      var kept := Kept(moves, m, out[..n]);
      forall i: nat | i < |kept| ensures LastTaking(moves[..k], kept[i]) < LastTaking(moves[..k], out[n]) {
        KeptHas(moves, m, out[..n], kept[i]);
        var j :| 0 <= j < n && out[..n][j] == kept[i];
      }
    }
  }

  lemma KeptStillOrdered(moves: seq<Move>, k: nat, out: seq<string>)
    requires k < |moves| && Ordered(moves, k, out)
    requires forall i :: 0 <= i < |out| ==> out[i] != moves[k].transition
    ensures Ordered(moves, k + 1, out + [moves[k].transition])
  {
    var t := moves[k].transition;
    forall i: nat | i < |out| ensures LastTaking(moves[..k + 1], out[i]) == LastTaking(moves[..k], out[i]) < k {
      TakingSnoc(moves, k, out[i]);
    }
    TakingSnoc(moves, k, t);
  }

  lemma {:induction false} PassedOrdered(moves: seq<Move>, k: nat)
    requires k <= |moves|
    ensures Ordered(moves, k, PassedAfter(moves, k))
  {
    if k > 0 {
      var before := PassedAfter(moves, k - 1);
      PassedOrdered(moves, k - 1);
      KeptOrdered(moves, k - 1, moves[k - 1], before);
      var kept := Kept(moves, moves[k - 1], before);
      forall i | 0 <= i < |kept| ensures kept[i] != moves[k - 1].transition { KeptHas(moves, moves[k - 1], before, kept[i]); }
      KeptStillOrdered(moves, k - 1, kept);
    }
  }

  /** The transitions passed are ordered by their last takings, so none is there twice. */
  lemma PassedByLastTaking(moves: seq<Move>, i: nat, j: nat)
    requires i < j < |PassedAfter(moves, |moves|)|
    ensures var out := PassedAfter(moves, |moves|); LastTaking(moves, out[i]) < LastTaking(moves, out[j]) && out[i] != out[j]
  {
    PassedOrdered(moves, |moves|);
    assert moves[..|moves|] == moves;
  }

  // ---- what the moves froze

  // The last move of a passed transition that froze something.
  predicate Chosen(moves: seq<Move>, passed: set<string>, q: nat)
    requires q < |moves|
  {
    moves[q].transition in passed && moves[q].freezes.Some? &&
    forall j :: q < j < |moves| ==> !(moves[j].transition == moves[q].transition && moves[j].freezes.Some?)
  }

  function InForceFrom(moves: seq<Move>, passed: set<string>, i: nat): seq<Freezes>
    requires i <= |moves|
    decreases |moves| - i
  {
    if i == |moves| then []
    else if Chosen(moves, passed, i) then [moves[i].freezes.value] + InForceFrom(moves, passed, i + 1)
    else InForceFrom(moves, passed, i + 1)
  }

  /** The freezes in force, in the order of the moves. */
  method InForceFreezes(moves: seq<Move>) returns (out: seq<Freezes>)
    ensures out == InForceFrom(moves, SetOf(PassedAfter(moves, |moves|)), 0)
  {
    var transitions := Passed(moves);
    var passed := SetOf(transitions);
    out := [];
    var seen: set<string> := {};
    var i := |moves|;
    while i > 0
      invariant 0 <= i <= |moves| && out == InForceFrom(moves, passed, i)
      invariant forall t :: t in seen <==> t in passed && exists j :: i <= j < |moves| && moves[j].transition == t && moves[j].freezes.Some?
    {
      i := i - 1;
      var m := moves[i];
      if m.transition !in passed || m.transition in seen || m.freezes.None? { continue; }
      seen := seen + {m.transition};
      out := [m.freezes.value] + out;
    }
  }

  // A move that stands: the last taking of a transition passed.
  predicate StandingMove(moves: seq<Move>, passed: set<string>, q: nat)
    requires q < |moves|
  {
    moves[q].transition in passed && LastTaking(moves, moves[q].transition) == q
  }

  // The freezes of the moves that stand, as the documentation of InForceFreezes reads.
  function StandingFreezes(moves: seq<Move>, passed: set<string>, i: nat): seq<Freezes>
    requires i <= |moves|
    decreases |moves| - i
  {
    if i == |moves| then []
    else if StandingMove(moves, passed, i) && moves[i].freezes.Some?
    then [moves[i].freezes.value] + StandingFreezes(moves, passed, i + 1)
    else StandingFreezes(moves, passed, i + 1)
  }

  /** The freezes of a move are in force and the move stands, or the last taking of its transition froze nothing. */
  lemma ChosenOrStanding(moves: seq<Move>, passed: set<string>, q: nat)
    requires q < |moves|
    ensures StandingMove(moves, passed, q) && moves[q].freezes.Some? ==> Chosen(moves, passed, q)
    ensures Chosen(moves, passed, q) ==>
              (StandingMove(moves, passed, q) <==> moves[LastTaking(moves, moves[q].transition)].freezes.Some?)
  {
  }

  // Every transition that stands froze something at its last taking, if it ever did.
  predicate FrozeLast(moves: seq<Move>, passed: set<string>) {
    forall q: nat :: q < |moves| && moves[q].transition in passed && moves[q].freezes.Some? ==>
      moves[LastTaking(moves, moves[q].transition)].freezes.Some?
  }

  /** The freezes in force are those of the moves that stand, as long as no such transition last froze nothing. */
  lemma {:induction false} InForceIsStanding(moves: seq<Move>, passed: set<string>, i: nat)
    requires i <= |moves| && FrozeLast(moves, passed)
    ensures InForceFrom(moves, passed, i) == StandingFreezes(moves, passed, i)
    decreases |moves| - i
  {
    if i < |moves| {
      InForceIsStanding(moves, passed, i + 1);
      ChosenOrStanding(moves, passed, i);
    }
  }

  /** Otherwise a freeze is in force that no standing move recorded: the transition froze at a taking, not at its last. */
  lemma {:induction false} StaleFreezeStays(moves: seq<Move>, passed: set<string>, i: nat)
    requires i <= |moves|
    ensures |InForceFrom(moves, passed, i)| >= |StandingFreezes(moves, passed, i)|
    ensures (exists q: nat :: i <= q < |moves| && Chosen(moves, passed, q) && !StandingMove(moves, passed, q)) ==>
              |InForceFrom(moves, passed, i)| > |StandingFreezes(moves, passed, i)|
    decreases |moves| - i
  {
    if i < |moves| {
      StaleFreezeStays(moves, passed, i + 1);
      ChosenOrStanding(moves, passed, i);
    }
  }

  lemma LastFreeze(moves: seq<Move>, passed: set<string>, q: nat) returns (r: nat)
    requires q < |moves| && moves[q].transition in passed && moves[q].freezes.Some?
    ensures q <= r < |moves| && Chosen(moves, passed, r) && moves[r].transition == moves[q].transition
    decreases |moves| - q
  {
    if j :| q < j < |moves| && moves[j].transition == moves[q].transition && moves[j].freezes.Some? {
      r := LastFreeze(moves, passed, j);
    } else {
      r := q;
    }
  }

  /** The freezes in force are those of the standing moves exactly when no standing transition last froze nothing. */
  lemma InForceExactly(moves: seq<Move>, passed: set<string>)
    ensures InForceFrom(moves, passed, 0) == StandingFreezes(moves, passed, 0) <==> FrozeLast(moves, passed)
  {
    if FrozeLast(moves, passed) {
      InForceIsStanding(moves, passed, 0);
    } else {
      var q: nat :| q < |moves| && moves[q].transition in passed && moves[q].freezes.Some? &&
                    moves[LastTaking(moves, moves[q].transition)].freezes.None?;
      var r := LastFreeze(moves, passed, q);
      ChosenOrStanding(moves, passed, r);
      StaleFreezeStays(moves, passed, 0);
    }
  }

  // A lifecycle with two transitions "t", the first of which freezes something: taken one after the other.
  function TakenTwice(f: Freezes): seq<Move> {
    [Move("i", "t", "a", "b", "", "", Some(f)), Move("j", "u", "b", "c", "", "", None), Move("k", "t", "c", "d", "", "", None)]
  }

  lemma TwiceFrom(f: Freezes)
    ensures LastTaking(TakenTwice(f), "t") == 2 && LastTaking(TakenTwice(f), "u") == 1
  {
    var moves := TakenTwice(f);
    assert moves[..2][1].transition == "u";
  }

  lemma TwicePassed(f: Freezes)
    ensures PassedAfter(TakenTwice(f), 3) == ["u", "t"]
  {
    var moves := TakenTwice(f);
    TwiceFrom(f);
    var once, twice := PassedAfter(moves, 1), PassedAfter(moves, 2);
    assert PassedAfter(moves, 0) == [] && once == Kept(moves, moves[0], []) + ["t"];
    assert once[..0] == [] && !Keeps(moves, moves[1], once[0]);
    assert twice == Kept(moves, moves[1], once) + ["u"] == ["u"];
    assert twice[..0] == [] && Keeps(moves, moves[2], twice[0]);
    assert Kept(moves, moves[2], twice) == [] + ["u"];
  }

  /** The freeze of the first taking stays in force though the move that stands froze nothing. */
  lemma FreezeOutlivesItsMove(f: Freezes)
    ensures PassedAfter(TakenTwice(f), 3) == ["u", "t"]
    ensures InForceFrom(TakenTwice(f), {"u", "t"}, 0) == [f] && StandingFreezes(TakenTwice(f), {"u", "t"}, 0) == []
  {
    TwicePassed(f);
    TwiceFrom(f);
    var moves, passed := TakenTwice(f), {"u", "t"};
    assert InForceFrom(moves, passed, 3) == [] && InForceFrom(moves, passed, 2) == [] && InForceFrom(moves, passed, 1) == [];
    assert StandingFreezes(moves, passed, 3) == [] && StandingFreezes(moves, passed, 2) == [];
    assert StandingFreezes(moves, passed, 1) == [];
    assert Chosen(moves, passed, 0) && !StandingMove(moves, passed, 0);
  }
}
