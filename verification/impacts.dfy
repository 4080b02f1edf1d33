// The list of the impacts of a change (contracts/domain/impacts.go): cut in blocks, of which a write replaces
// one and leaves the rest to every list that holds them.
module ImpactLists {
  import opened Prelude
  import opened Domain

  const BLOCK: nat := 16

  /** What finds the impacts of the first positions of a list without a walk. */
  datatype Lookup = Lookup(position: string -> Option<nat>, ofNode: string -> seq<nat>, ofKey: string -> seq<nat>, odd: nat)

  /** A list: one slice, or blocks cut alike whose impacts stay as they are, so that lists can hold a block in common. */
  datatype Impacts =
    | Flat(flat: array<ChangeImpact>)
    | Blocks(blocks: array<array<ChangeImpact>>, n: nat, look: Option<Lookup>, looked: nat)
  {
    function Len(): nat { if Flat? then flat.Length else n }
  }

  // The arrays a list reads.
  function BlocksFrame(blocks: array<array<ChangeImpact>>): set<object>
    reads blocks
  {
    var inner: set<object> := set k | 0 <= k < blocks.Length :: blocks[k];
    inner + {blocks}
  }

  function Frame(l: Impacts): set<object>
    reads if l.Blocks? then {l.blocks} else {}
  {
    if l.Flat? then {l.flat} else BlocksFrame(l.blocks)
  }

  function BlockCount(n: nat): nat { (n + BLOCK - 1) / BLOCK }

  function BlockSize(n: nat, k: nat): nat { if n >= BLOCK * (k + 1) then BLOCK else if n >= BLOCK * k then n - BLOCK * k else 0 }

  // Blocks of so many impacts: each full but the last.
  ghost predicate Shaped(blocks: array<array<ChangeImpact>>, n: nat)
    reads BlocksFrame(blocks)
  {
    blocks.Length == BlockCount(n) && forall k: nat :: k < blocks.Length ==> blocks[k].Length == BlockSize(n, k)
  }

  ghost predicate Valid(l: Impacts)
    reads Frame(l)
  {
    l.Blocks? ==> Shaped(l.blocks, l.n) && l.looked <= l.n
  }

  lemma InBlock(n: nat, i: nat)
    requires i < n
    ensures i / BLOCK < BlockCount(n) && i % BLOCK < BlockSize(n, i / BLOCK)
    ensures i == i / BLOCK * BLOCK + i % BLOCK
  {
  }

  function At(l: Impacts, i: nat): ChangeImpact
    requires Valid(l) && i < l.Len()
    reads Frame(l)
  {
    if l.Flat? then l.flat[i]
    else
      InBlock(l.n, i);
      l.blocks[i / BLOCK][i % BLOCK]
  }

  /** The sequence a list stands for. */
  ghost function Contents(l: Impacts): (s: seq<ChangeImpact>)
    requires Valid(l)
    reads Frame(l)
    ensures |s| == l.Len() && forall i: nat :: i < |s| ==> s[i] == At(l, i)
  {
    seq(l.Len(), i requires 0 <= i < l.Len() && Valid(l) reads Frame(l) => At(l, i))
  }

  // ---- writing

  /** The list in blocks: a slice is cut, blocks are given as they are. */
  method Pointed(l: Impacts) returns (blocks: array<array<ChangeImpact>>)
    requires Valid(l)
    ensures Shaped(blocks, l.Len())
    ensures Contents(Blocks(blocks, l.Len(), None, 0)) == Contents(l)
    ensures l.Blocks? ==> blocks == l.blocks
  {
    if l.Blocks? { return l.blocks; }
    var n := l.flat.Length;
    var own: seq<array<ChangeImpact>> := [];
    var i := 0;
    while i < n
      invariant 0 <= i < n + BLOCK && |own| * BLOCK == i
      invariant forall k :: 0 <= k < |own| ==> own[k].Length == BlockSize(n, k)
      invariant forall k, j :: 0 <= k < |own| && 0 <= j < BlockSize(n, k) ==> own[k][j] == l.flat[k * BLOCK + j]
    {
      var size := if n - i < BLOCK then n - i else BLOCK;
      var b := new ChangeImpact[size](j requires 0 <= j < size reads l.flat => l.flat[i + j]);
      own := own + [b];
      i := i + BLOCK;
    }
    blocks := new array<ChangeImpact>[|own|](k requires 0 <= k < |own| => own[k]);
  }

  lemma OneMoreImpact(n: nat)
    ensures BlockCount(n) > 0 && BlockSize(n, BlockCount(n) - 1) < BLOCK ==>
              BlockCount(n + 1) == BlockCount(n) && BlockSize(n + 1, BlockCount(n) - 1) == BlockSize(n, BlockCount(n) - 1) + 1
    ensures BlockCount(n) == 0 || BlockSize(n, BlockCount(n) - 1) >= BLOCK ==>
              BlockCount(n + 1) == BlockCount(n) + 1 && BlockSize(n + 1, BlockCount(n)) == 1
    ensures forall k: nat :: k < BlockCount(n) - 1 ==> BlockSize(n, k) == BLOCK
  {
  }

  method Copied(b: array<ChangeImpact>, cn: ChangeImpact) returns (c: array<ChangeImpact>)
    ensures fresh(c) && c[..] == b[..] + [cn]
  {
    c := new ChangeImpact[b.Length + 1](j requires 0 <= j <= b.Length reads b => if j < b.Length then b[j] else cn);
  }

  // The blocks with an impact more: the last one copied when it has room, the others shared.
  method AppendBlocks(own: array<array<ChangeImpact>>, n: nat, cn: ChangeImpact) returns (blocks: array<array<ChangeImpact>>)
    requires Shaped(own, n)
    ensures fresh(blocks) && Shaped(blocks, n + 1) && Extends(own, blocks, cn)
  {
    OneMoreImpact(n);
    var k := own.Length - 1;
    if k >= 0 && own[k].Length < BLOCK {
      blocks := GrowLast(own, cn);
    } else {
      blocks := AddBlock(own, cn);
    }
  }

  method GrowLast(own: array<array<ChangeImpact>>, cn: ChangeImpact) returns (blocks: array<array<ChangeImpact>>)
    requires own.Length > 0
    ensures fresh(blocks) && blocks.Length == own.Length && fresh(blocks[own.Length - 1])
    ensures forall j :: 0 <= j < own.Length - 1 ==> blocks[j] == own[j]
    ensures blocks[own.Length - 1][..] == own[own.Length - 1][..] + [cn]
  {
    var k := own.Length - 1;
    var b := Copied(own[k], cn);
    blocks := new array<ChangeImpact>[own.Length](j requires 0 <= j < own.Length reads own => own[j]);
    blocks[k] := b;
  }

  method AddBlock(own: array<array<ChangeImpact>>, cn: ChangeImpact) returns (blocks: array<array<ChangeImpact>>)
    ensures fresh(blocks) && blocks.Length == own.Length + 1 && fresh(blocks[own.Length])
    ensures forall j :: 0 <= j < own.Length ==> blocks[j] == own[j]
    ensures blocks[own.Length][..] == [cn]
  {
    var b := new ChangeImpact[1](_ => cn);
    blocks := new array<ChangeImpact>[own.Length + 1](j requires 0 <= j <= own.Length reads own => if j < own.Length then own[j] else b);
  }

  // Blocks and a list of them read the same.
  lemma BlocksRead(blocks: array<array<ChangeImpact>>, n: nat, look: Option<Lookup>, looked: nat, i: nat)
    requires Shaped(blocks, n) && looked <= n && i < n
    ensures i / BLOCK < blocks.Length && i % BLOCK < blocks[i / BLOCK].Length
    ensures Contents(Blocks(blocks, n, look, looked))[i] == blocks[i / BLOCK][i % BLOCK]
  {
    InBlock(n, i);
  }

  // Blocks with an impact more.
  ghost predicate Extends(own: array<array<ChangeImpact>>, blocks: array<array<ChangeImpact>>, cn: ChangeImpact)
    reads BlocksFrame(own), BlocksFrame(blocks)
  {
    blocks.Length > 0 && (forall k: nat :: k < blocks.Length - 1 ==> k < own.Length && blocks[k] == own[k]) &&
    var last := blocks.Length - 1;
    blocks[last][..] == (if last < own.Length then own[last][..] else []) + [cn]
  }

  lemma AppendedRead(own: array<array<ChangeImpact>>, blocks: array<array<ChangeImpact>>, n: nat, cn: ChangeImpact, i: nat)
    requires Shaped(own, n) && Shaped(blocks, n + 1) && Extends(own, blocks, cn) && i <= n
    ensures i / BLOCK < blocks.Length && i % BLOCK < blocks[i / BLOCK].Length
    ensures i == n ==> blocks[i / BLOCK][i % BLOCK] == cn
    ensures i < n ==> i / BLOCK < own.Length && i % BLOCK < own[i / BLOCK].Length &&
                      blocks[i / BLOCK][i % BLOCK] == own[i / BLOCK][i % BLOCK]
  {
    InBlock(n + 1, i);
    var last := blocks.Length - 1;
    assert i / BLOCK == last ==> blocks[last][i % BLOCK] == blocks[last][..][i % BLOCK];
    if i < n { InBlock(n, i); }
  }

  lemma AppendedContents(own: array<array<ChangeImpact>>, blocks: array<array<ChangeImpact>>, n: nat, cn: ChangeImpact,
                         look: Option<Lookup>, looked: nat)
    requires Shaped(own, n) && Shaped(blocks, n + 1) && Extends(own, blocks, cn) && looked <= n
    ensures Contents(Blocks(blocks, n + 1, look, looked)) == Contents(Blocks(own, n, None, 0)) + [cn]
  {
    var was, now := Contents(Blocks(own, n, None, 0)), Contents(Blocks(blocks, n + 1, look, looked));
    forall i: nat | i <= n ensures now[i] == (was + [cn])[i] {
      AppendedRead(own, blocks, n, cn, i);
      BlocksRead(blocks, n + 1, look, looked, i);
      if i < n { BlocksRead(own, n, None, 0, i); }
    }
  }

  method AppendTo(own: array<array<ChangeImpact>>, n: nat, look: Option<Lookup>, looked: nat, cn: ChangeImpact,
                  ghost s: seq<ChangeImpact>)
    returns (m: Impacts)
    requires Shaped(own, n) && looked <= n && Contents(Blocks(own, n, None, 0)) == s
    ensures Valid(m) && m.Blocks? && fresh(m.blocks) && m.look == look && m.looked == looked
    ensures Contents(m) == s + [cn]
    ensures forall k: nat :: k < m.blocks.Length - 1 ==> k < own.Length && m.blocks[k] == own[k]
  {
    var blocks := AppendBlocks(own, n, cn);
    m := Blocks(blocks, n + 1, look, looked);
    AppendedContents(own, blocks, n, cn, look, looked);
  }

  /** The list with an impact more: no array that was there changes, so every other list keeps what it holds. */
  method Append(l: Impacts, cn: ChangeImpact) returns (m: Impacts)
    requires Valid(l)
    ensures Valid(m) && m.Blocks? && fresh(m.blocks)
    ensures Contents(m) == Contents(l) + [cn]
    ensures m.look == (if l.Flat? then None else l.look) && m.looked == (if l.Flat? then 0 else l.looked)
    ensures l.Blocks? ==> forall k: nat :: k < m.blocks.Length - 1 ==> k < l.blocks.Length && m.blocks[k] == l.blocks[k]
  {
    ghost var s := Contents(l);
    var own := Pointed(l);
    if l.Flat? {
      m := AppendTo(own, l.Len(), None, 0, cn, s);
    } else {
      m := AppendTo(own, l.Len(), l.look, l.looked, cn, s);
    }
    assert Contents(l) == s;
  }

  // Blocks with an impact replaced.
  ghost predicate Replaces(own: array<array<ChangeImpact>>, blocks: array<array<ChangeImpact>>, i: nat, cn: ChangeImpact)
    reads BlocksFrame(own), BlocksFrame(blocks)
  {
    var k := i / BLOCK;
    blocks.Length == own.Length && k < own.Length && i % BLOCK < own[k].Length &&
    (forall j: nat :: j < own.Length && j != k ==> blocks[j] == own[j]) &&
    blocks[k][..] == own[k][..][i % BLOCK := cn]
  }

  method SetBlocks(own: array<array<ChangeImpact>>, n: nat, i: nat, cn: ChangeImpact) returns (blocks: array<array<ChangeImpact>>)
    requires Shaped(own, n) && i < n
    ensures fresh(blocks) && Shaped(blocks, n) && Replaces(own, blocks, i, cn)
  {
    InBlock(n, i);
    var k, at := i / BLOCK, i % BLOCK;
    var was := own[k];
    var b := new ChangeImpact[was.Length](j requires 0 <= j < was.Length reads was => was[j]);
    b[at] := cn;
    blocks := new array<ChangeImpact>[own.Length](j requires 0 <= j < own.Length reads own => own[j]);
    blocks[k] := b;
  }

  lemma ReplacedRead(own: array<array<ChangeImpact>>, blocks: array<array<ChangeImpact>>, n: nat, i: nat, cn: ChangeImpact, j: nat)
    requires Shaped(own, n) && Shaped(blocks, n) && Replaces(own, blocks, i, cn) && i < n && j < n
    ensures j / BLOCK < own.Length && j % BLOCK < own[j / BLOCK].Length && j % BLOCK < blocks[j / BLOCK].Length
    ensures blocks[j / BLOCK][j % BLOCK] == if j == i then cn else own[j / BLOCK][j % BLOCK]
  {
    InBlock(n, j);
    InBlock(n, i);
    var k := i / BLOCK;
    if j / BLOCK == k {
      assert blocks[k][j % BLOCK] == blocks[k][..][j % BLOCK];
    }
  }

  /** The list with an impact replaced: the block that holds it copied, the others shared, nothing else changed. */
  method Set(l: Impacts, i: nat, cn: ChangeImpact) returns (m: Impacts)
    requires Valid(l) && i < l.Len()
    ensures Valid(m) && m.Blocks? && fresh(m.blocks) && m.look == None && m.looked == 0
    ensures Contents(m) == Contents(l)[i := cn]
    ensures l.Blocks? ==> m.blocks.Length == l.blocks.Length && forall k: nat :: k < m.blocks.Length && k != i / BLOCK ==> m.blocks[k] == l.blocks[k]
  {
    var n := l.Len();
    var own := Pointed(l);
    var blocks := SetBlocks(own, n, i, cn);
    m := Blocks(blocks, n, None, 0);
    forall j: nat | j < n ensures Contents(m)[j] == Contents(l)[i := cn][j] {
      ReplacedRead(own, blocks, n, i, cn, j);
      BlocksRead(blocks, n, None, 0, j);
      BlocksRead(own, n, None, 0, j);
    }
  }

  // ---- reading

  type Test = ChangeImpact -> bool

  function WithId(id: string): Test { (cn: ChangeImpact) => cn.id == id }

  function WithKey(key: string): Test { (cn: ChangeImpact) => cn.key == key }

  // An impact names a node by its Pre or its Post.
  function Naming(node: string): Test {
    (cn: ChangeImpact) => (cn.pre.Some? && cn.pre.value.id == node) || (cn.post.Some? && cn.post.value.id == node)
  }

  // An impact superseded or of a flow.
  function Odd(): Test { (cn: ChangeImpact) => cn.superseded || cn.flow != "" }

  type Walk = seq<(nat, ChangeImpact)>

  // The first impact that satisfies a test, -1 when none does: a walk of the whole list.
  function FirstIn(s: seq<ChangeImpact>, test: Test): (i: int)
    ensures -1 <= i < |s|
    ensures i >= 0 ==> test(s[i]) && forall k :: 0 <= k < i ==> !test(s[k])
    ensures i < 0 ==> forall k :: 0 <= k < |s| ==> !test(s[k])
  {
    if s == [] then -1
    else
      var i := FirstIn(s[..|s| - 1], test);
      if i >= 0 then i else if test(s[|s| - 1]) then |s| - 1 else -1
  }

  lemma FirstIs(s: seq<ChangeImpact>, test: Test, i: nat)
    requires i < |s| && test(s[i]) && forall k :: 0 <= k < i ==> !test(s[k])
    ensures FirstIn(s, test) == i
  {
  }

  // The positions and impacts of a walk of a list.
  function WalkOf(s: seq<ChangeImpact>): (w: Walk)
    ensures |w| == |s| && forall k :: 0 <= k < |w| ==> w[k] == (k, s[k])
  {
    seq(|s|, k requires 0 <= k < |s| => (k, s[k]))
  }

  // What a caller that checks each impact finds on a walk.
  function Found(w: Walk, test: Test): Walk {
    if w == [] then []
    else if test(w[|w| - 1].1) then Found(w[..|w| - 1], test) + [w[|w| - 1]]
    else Found(w[..|w| - 1], test)
  }

  // Positions in order, with every one of a list whose impact satisfies a test.
  ghost predicate Covers(at: seq<nat>, s: seq<ChangeImpact>, test: Test) {
    (forall j, k :: 0 <= j < k < |at| ==> at[j] < at[k]) && forall i: nat :: i < |s| && test(s[i]) ==> i in at
  }

  // A lookup that answers for the first positions of a list as a walk of them would.
  ghost predicate Answers(look: Lookup, s: seq<ChangeImpact>) {
    (forall i: nat :: i < |s| ==> look.position(s[i].id) == Some(FirstIn(s, WithId(s[i].id)) as nat)) &&
    (forall node: string :: Covers(look.ofNode(node), s, Naming(node))) &&
    (forall key: string :: Covers(look.ofKey(key), s, WithKey(key))) &&
    (look.odd > 0 <==> exists i :: 0 <= i < |s| && Odd()(s[i]))
  }

  // The lookup of a list, if it has one, answers for its first positions.
  ghost predicate LookedUp(l: Impacts)
    requires Valid(l)
    reads Frame(l)
  {
    l.Blocks? && l.look.Some? ==> Answers(l.look.value, Contents(l)[..l.looked])
  }

  // A walk in order, of impacts of a list at their positions.
  ghost predicate InOrder(w: Walk, s: seq<ChangeImpact>) {
    (forall k :: 0 <= k < |w| ==> w[k].0 < |s| && w[k].1 == s[w[k].0]) &&
    forall j, k :: 0 <= j < k < |w| ==> w[j].0 < w[k].0
  }

  // A walk that meets every impact a test holds of.
  ghost predicate Meets(w: Walk, s: seq<ChangeImpact>, test: Test) {
    forall i: nat :: i < |s| && test(s[i]) ==> (i, s[i]) in w
  }

  lemma {:induction false} FoundInOrder(w: Walk, s: seq<ChangeImpact>, test: Test)
    requires InOrder(w, s)
    ensures InOrder(Found(w, test), s)
    ensures forall x :: x in Found(w, test) <==> x in w && test(x.1)
  {
    if w != [] {
      var n := |w| - 1;
      FoundInOrder(w[..n], s, test);
      LastSplits(w);
      if test(w[n].1) { OneMoreFound(Found(w[..n], test), w, s); }
    }
  }

  lemma OneMoreFound(found: Walk, w: Walk, s: seq<ChangeImpact>)
    requires w != [] && InOrder(w, s) && InOrder(found, s) && forall x :: x in found ==> x in w[..|w| - 1]
    ensures InOrder(found + [w[|w| - 1]], s)
  {
    var n := |w| - 1;
    forall j | 0 <= j < |found| ensures found[j].0 < w[n].0 {
      assert found[j] in found;
      var k :| 0 <= k < n && w[..n][k] == found[j];
    }
  }

  lemma WalkInit(w: Walk, s: seq<ChangeImpact>)
    requires w != [] && InOrder(w, s)
    ensures forall x :: x in w[..|w| - 1] <==> x in w && x != w[|w| - 1]
  {
    var n := |w| - 1;
    assert w == w[..n] + [w[n]];
    forall x | x in w[..n] ensures x != w[n] {
      var k :| 0 <= k < n && w[..n][k] == x;
      assert w[k].0 < w[n].0;
    }
  }

  lemma HoldsOne(w: Walk)
    requires w != []
    ensures exists x :: x in w
  {
    assert w[0] in w;
  }

  lemma LastIsLast(v: Walk, w: Walk, s: seq<ChangeImpact>)
    requires v != [] && w != [] && InOrder(v, s) && InOrder(w, s) && v[|v| - 1] in w && w[|w| - 1] in v
    ensures v[|v| - 1] == w[|w| - 1]
  {
    var j :| 0 <= j < |w| && w[j] == v[|v| - 1];
    var k :| 0 <= k < |v| && v[k] == w[|w| - 1];
  }

  lemma {:induction false} SameWalk(v: Walk, w: Walk, s: seq<ChangeImpact>)
    requires InOrder(v, s) && InOrder(w, s) && forall x :: x in v <==> x in w
    ensures v == w
  {
    if v == [] {
      if w != [] { HoldsOne(w); }
    } else {
      var m, n := |v| - 1, |w| - 1;
      assert v[m] in v;
      assert w[n] in w;
      LastIsLast(v, w, s);
      WalkInit(v, s);
      WalkInit(w, s);
      forall x ensures x in v[..m] <==> x in w[..n] { assert x in v <==> x in w; }
      SameWalk(v[..m], w[..n], s);
      assert v == v[..m] + [v[m]] && w == w[..n] + [w[n]];
    }
  }

  /** Two walks in order that meet every impact of interest find the same, whatever else they meet. */
  lemma SameFound(v: Walk, w: Walk, s: seq<ChangeImpact>, test: Test)
    requires InOrder(v, s) && InOrder(w, s) && Meets(v, s, test) && Meets(w, s, test)
    ensures Found(v, test) == Found(w, test)
  {
    FoundInOrder(v, s, test);
    FoundInOrder(w, s, test);
    SameWalk(Found(v, test), Found(w, test), s);
  }

  method Find(l: Impacts, test: Test) returns (i: int)
    requires Valid(l)
    ensures i == FirstIn(Contents(l), test)
  {
    var k := 0;
    while k < l.Len()
      invariant k <= l.Len() && forall j: nat :: j < k ==> !test(At(l, j))
    {
      if test(At(l, k)) {
        FirstIs(Contents(l), test, k);
        return k;
      }
      k := k + 1;
    }
    return -1;
  }

  // The first position after the ones looked up.
  method FindAfter(l: Impacts, test: Test) returns (i: int)
    requires Valid(l) && l.Blocks? && forall j: nat :: j < l.looked ==> !test(At(l, j))
    ensures i == FirstIn(Contents(l), test)
  {
    for k := l.looked to l.n
      invariant forall j: nat :: j < k ==> !test(At(l, j))
    {
      if test(At(l, k)) {
        FirstIs(Contents(l), test, k);
        return k;
      }
    }
    return -1;
  }

  // What a lookup says of the first positions: the first one of the id, or an answer that is not of them.
  lemma PositionAnswers(look: Lookup, s: seq<ChangeImpact>, id: string)
    requires Answers(look, s)
    ensures var at := look.position(id);
            if at.Some? && at.value < |s| && s[at.value].id == id then forall j :: 0 <= j < at.value ==> s[j].id != id
            else forall j :: 0 <= j < |s| ==> s[j].id != id
  {
    if i :| 0 <= i < |s| && s[i].id == id {
      assert look.position(s[i].id) == Some(FirstIn(s, WithId(id)) as nat);
    }
  }

  lemma LookupAnswers(l: Impacts, id: string)
    requires Valid(l) && l.Blocks? && l.look.Some? && Answers(l.look.value, Contents(l)[..l.looked])
    ensures var at := l.look.value.position(id);
            if at.Some? && at.value < l.looked && At(l, at.value).id == id then forall j: nat :: j < at.value ==> At(l, j).id != id
            else forall j: nat :: j < l.looked ==> At(l, j).id != id
  {
    var looked := Contents(l)[..l.looked];
    PositionAnswers(l.look.value, looked, id);
    assert forall j: nat :: j < l.looked ==> looked[j] == At(l, j);
  }

  method LookFor(l: Impacts, id: string) returns (i: int)
    requires Valid(l) && l.Blocks? && l.look.Some? && Answers(l.look.value, Contents(l)[..l.looked])
    ensures i == FirstIn(Contents(l), WithId(id))
  {
    var at := l.look.value.position(id);
    LookupAnswers(l, id);
    if at.Some? && at.value < l.looked && At(l, at.value).id == id {
      FirstIs(Contents(l), WithId(id), at.value);
      return at.value;
    }
    i := FindAfter(l, WithId(id));
  }

  /** Where the impact of an id is, by lookup or by walking: the answer of a walk from the start, -1 without one. */
  method Index(l: Impacts, id: string) returns (i: int)
    requires Valid(l) && LookedUp(l)
    ensures i == FirstIn(Contents(l), WithId(id))
  {
    if l.Blocks? && l.look.Some? {
      i := LookFor(l, id);
    } else {
      i := Find(l, WithId(id));
    }
  }

  method All(l: Impacts) returns (w: Walk)
    requires Valid(l)
    ensures w == WalkOf(Contents(l))
  {
    w := [];
    var i := 0;
    while i < l.Len()
      invariant i <= l.Len() && |w| == i && forall k: nat :: k < i ==> w[k] == (k, At(l, k))
    {
      w := w + [(i, At(l, i))];
      i := i + 1;
    }
  }

  // A walk of positions before one, meeting every impact of interest there.
  ghost predicate MeetsBefore(w: Walk, s: seq<ChangeImpact>, test: Test, n: nat)
    requires n <= |s|
  {
    InOrder(w, s) && (forall k :: 0 <= k < |w| ==> w[k].0 < n) && forall i: nat :: i < n && test(s[i]) ==> (i, s[i]) in w
  }

  lemma MeetsOneMore(w: Walk, s: seq<ChangeImpact>, test: Test, n: nat)
    requires n < |s| && MeetsBefore(w, s, test, n)
    ensures MeetsBefore(w + [(n, s[n])], s, test, n + 1)
  {
  }

  // A walk of the first of some positions that are within the list, the others still ahead.
  ghost predicate LookedAt(w: Walk, s: seq<ChangeImpact>, at: seq<nat>, k: nat, n: nat)
    requires k <= |at| && n <= |s|
  {
    InOrder(w, s) && (forall j :: 0 <= j < |w| ==> w[j].0 < n) &&
    (forall i, j :: 0 <= j < |w| && k <= i < |at| ==> w[j].0 < at[i]) &&
    forall j :: 0 <= j < k && at[j] < n ==> (at[j], s[at[j]]) in w
  }

  lemma LookedOneMore(w: Walk, s: seq<ChangeImpact>, at: seq<nat>, k: nat, n: nat)
    requires k < |at| && n <= |s| && LookedAt(w, s, at, k, n) && forall i, j :: 0 <= i < j < |at| ==> at[i] < at[j]
    ensures LookedAt(if at[k] < n then w + [(at[k], s[at[k]])] else w, s, at, k + 1, n)
  {
    if at[k] < n { WalkOneMore(w, s, at[k]); }
  }

  lemma WalkOneMore(w: Walk, s: seq<ChangeImpact>, i: nat)
    requires InOrder(w, s) && i < |s| && forall j :: 0 <= j < |w| ==> w[j].0 < i
    ensures InOrder(w + [(i, s[i])], s) && (i, s[i]) in w + [(i, s[i])] && forall x :: x in w ==> x in w + [(i, s[i])]
  {
  }

  // What a lookup says of the part of the list it was made for.
  method NearLooked(l: Impacts, at: seq<nat>, ghost test: Test) returns (w: Walk)
    requires Valid(l) && l.Blocks? && Covers(at, Contents(l)[..l.looked], test)
    ensures MeetsBefore(w, Contents(l), test, l.looked)
  {
    w := [];
    for k := 0 to |at|
      invariant LookedAt(w, Contents(l), at, k, l.looked)
    {
      LookedOneMore(w, Contents(l), at, k, l.looked);
      if at[k] < l.looked { w := w + [(at[k], At(l, at[k]))]; }
    }
    LookedMeets(Contents(l), l.looked, at, test, w);
  }

  lemma LookedMeets(s: seq<ChangeImpact>, n: nat, at: seq<nat>, test: Test, w: Walk)
    requires n <= |s| && Covers(at, s[..n], test)
    requires LookedAt(w, s, at, |at|, n)
    ensures MeetsBefore(w, s, test, n)
  {
    forall i: nat | i < n && test(s[i]) ensures (i, s[i]) in w {
      assert s[..n][i] == s[i];
      assert i in at;
    }
  }

  // The same, then a walk of what was appended since.
  method Near(l: Impacts, at: seq<nat>, ghost test: Test) returns (w: Walk)
    requires Valid(l) && l.Blocks? && Covers(at, Contents(l)[..l.looked], test)
    ensures InOrder(w, Contents(l)) && Meets(w, Contents(l), test)
  {
    w := NearLooked(l, at, test);
    for i := l.looked to l.n
      invariant MeetsBefore(w, Contents(l), test, i)
    {
      MeetsOneMore(w, Contents(l), test, i);
      w := w + [(i, At(l, i))];
    }
  }

  lemma WalkMeets(s: seq<ChangeImpact>, test: Test)
    ensures InOrder(WalkOf(s), s) && Meets(WalkOf(s), s, test)
  {
    forall i: nat | i < |s| ensures (i, s[i]) in WalkOf(s) { assert WalkOf(s)[i] == (i, s[i]); }
  }

  /** The impacts that may name a node: a caller that checks each finds those a walk of the whole list finds. */
  method OfNode(l: Impacts, node: string) returns (w: Walk)
    requires Valid(l) && LookedUp(l)
    ensures Found(w, Naming(node)) == Found(WalkOf(Contents(l)), Naming(node))
  {
    if l.Flat? || l.look.None? {
      w := All(l);
    } else {
      w := Near(l, l.look.value.ofNode(node), Naming(node));
      WalkMeets(Contents(l), Naming(node));
      SameFound(w, WalkOf(Contents(l)), Contents(l), Naming(node));
    }
  }

  /** The same of a key, which the caller checks too. */
  method OfKey(l: Impacts, key: string) returns (w: Walk)
    requires Valid(l) && LookedUp(l)
    ensures Found(w, WithKey(key)) == Found(WalkOf(Contents(l)), WithKey(key))
  {
    if l.Flat? || l.look.None? {
      w := All(l);
    } else {
      w := Near(l, l.look.value.ofKey(key), WithKey(key));
      WalkMeets(Contents(l), WithKey(key));
      SameFound(w, WalkOf(Contents(l)), Contents(l), WithKey(key));
    }
  }

  /** No impact is superseded or of a flow. */
  method Plain(l: Impacts) returns (plain: bool)
    requires Valid(l) && LookedUp(l)
    ensures plain <==> forall i :: 0 <= i < l.Len() ==> !Odd()(Contents(l)[i])
  {
    if l.Blocks? && l.look.Some? {
      ghost var first := Contents(l)[..l.looked];
      if l.look.value.odd > 0 {
        ghost var i :| 0 <= i < |first| && Odd()(first[i]);
        assert Odd()(Contents(l)[i]);
        return false;
      }
      forall j: nat | j < l.looked ensures !Odd()(At(l, j)) { assert first[j] == At(l, j); }
      var i := FindAfter(l, Odd());
      plain := i < 0;
    } else {
      var i := Find(l, Odd());
      plain := i < 0;
    }
  }

  /** What a lookup answers still holds of the list with an impact more. */
  lemma AppendedIsLookedUp(l: Impacts, m: Impacts, cn: ChangeImpact)
    requires Valid(l) && Valid(m) && l.Blocks? && m.Blocks? && LookedUp(l)
    requires Contents(m) == Contents(l) + [cn] && m.look == l.look && m.looked == l.looked
    ensures LookedUp(m)
  {
    assert Contents(m)[..m.looked] == Contents(l)[..l.looked];
  }
}
