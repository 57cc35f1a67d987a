/** The dataset builder's wave packer, its arrivals, and the phase spans of a session
    (hack/build-agent-semantic-dataset.py). */
module Waves {
  import opened Types

  const WAVE_SIZE: nat := 4
  const EPOCH: int := 1561939200
  const GAP: real := 5.0

  datatype Cohort = Hard | Easy | Mid | Inactive

  /** `id` is the identity of the session's dictionary. */
  datatype Item = Item(id: int, dense: bool, cohort: Cohort)

  datatype Placed = Placed(item: Item, wave: nat, slot: nat)

  /** Which bucket a session goes to; dense ones go to the first whatever their cohort. */
  function BucketOf(x: Item): nat {
    if x.dense then 0 else if x.cohort == Hard then 1 else if x.cohort == Easy then 2 else 3
  }

  function ItemsOf(placed: seq<Placed>): seq<Item> {
    seq(|placed|, i requires 0 <= i < |placed| => placed[i].item)
  }

  /** Session number k sits in wave k/4 at slot k%4. */
  predicate InWaves(placed: seq<Placed>) {
    forall k :: 0 <= k < |placed| ==> placed[k].wave == k / WAVE_SIZE && placed[k].slot == k % WAVE_SIZE
  }

  predicate DistinctIds(items: seq<Item>) {
    forall i, j :: 0 <= i < j < |items| ==> items[i].id != items[j].id
  }

  /** The sessions of bucket `b`, in the order listed. */
  function Of(items: seq<Item>, b: nat): seq<Item> {
    if items == [] then []
    else
      var last := items[|items| - 1];
      Of(items[..|items| - 1], b) + if BucketOf(last) == b then [last] else []
  }

  lemma OfAdded(items: seq<Item>, x: Item, b: nat)
    ensures Of(items + [x], b) == Of(items, b) + if BucketOf(x) == b then [x] else []
  {
    assert (items + [x])[..|items|] == items;
  }

  lemma {:induction false} OfOwn(items: seq<Item>, b: nat)
    ensures forall x :: x in Of(items, b) ==> x in items && BucketOf(x) == b
  {
    if items != [] {
      OfOwn(items[..|items| - 1], b);
    }
  }

  /** Dense sessions, hard ones, easy ones, and the rest. */
  lemma {:induction false} BucketsMean(items: seq<Item>, x: Item)
    ensures x in Of(items, 0) <==> x in items && x.dense
    ensures x in Of(items, 1) <==> x in items && !x.dense && x.cohort == Hard
    ensures x in Of(items, 2) <==> x in items && !x.dense && x.cohort == Easy
    ensures x in Of(items, 3) <==> x in items && !x.dense && x.cohort !in {Hard, Easy}
    decreases |items|
  {
    if items != [] {
      var front, last := items[..|items| - 1], items[|items| - 1];
      BucketsMean(front, x);
      assert items == front + [last];
    }
  }

  /** Each bucket keeps the order of the list. */
  lemma {:induction false} BucketInOrder(items: seq<Item>, b: nat, i: nat, j: nat) returns (k: nat, l: nat)
    requires i < j < |Of(items, b)|
    ensures k < l < |items| && Of(items, b)[i] == items[k] && Of(items, b)[j] == items[l]
    decreases |items|
  {
    var front := items[..|items| - 1];
    if j < |Of(front, b)| {
      k, l := BucketInOrder(front, b, i, j);
    } else {
      k := BucketAt(front, b, i);
      l := |items| - 1;
    }
  }

  lemma {:induction false} BucketAt(items: seq<Item>, b: nat, i: nat) returns (k: nat)
    requires i < |Of(items, b)|
    ensures k < |items| && Of(items, b)[i] == items[k]
    decreases |items|
  {
    if i < |Of(items[..|items| - 1], b)| {
      k := BucketAt(items[..|items| - 1], b, i);
    } else {
      k := |items| - 1;
    }
  }

  function Left(buckets: seq<seq<Item>>): multiset<Item>
    requires |buckets| == 4
  {
    multiset(buckets[0]) + multiset(buckets[1]) + multiset(buckets[2]) + multiset(buckets[3])
  }

  lemma LeftPush(buckets: seq<seq<Item>>, b: nat, x: Item)
    requires |buckets| == 4 && b < 4
    ensures Left(buckets[b := buckets[b] + [x]]) == Left(buckets) + multiset{x}
  {
  }

  lemma LeftPop(buckets: seq<seq<Item>>, b: nat)
    requires |buckets| == 4 && b < 4 && buckets[b] != []
    ensures Left(buckets) == Left(buckets[b := buckets[b][1..]]) + multiset{buckets[b][0]}
  {
    assert buckets[b] == [buckets[b][0]] + buckets[b][1..];
  }

  /** The buckets, the ids used, and what was taken from the buckets or dropped as a repetition. */
  datatype Bins = Bins(buckets: seq<seq<Item>>, used: set<int>, taken: seq<Item>, dropped: multiset<Item>)

  function Filled(items: seq<Item>): Bins {
    Bins([Of(items, 0), Of(items, 1), Of(items, 2), Of(items, 3)], {}, [], multiset{})
  }

  function Pop(s: Bins, b: nat): Bins {
    if b >= |s.buckets| || s.buckets[b] == [] then s
    else
      var head, rest := s.buckets[b][0], s.buckets[b := s.buckets[b][1..]];
      if head.id in s.used then Bins(rest, s.used, s.taken, s.dropped + multiset{head})
      else Bins(rest, s.used + {head.id}, s.taken + [head], s.dropped)
  }

  /** The buckets of `items` after the given pops. */
  function Replay(items: seq<Item>, pops: seq<nat>): (s: Bins)
    ensures |s.buckets| == 4
  {
    if pops == [] then Filled(items) else Pop(Replay(items, pops[..|pops| - 1]), pops[|pops| - 1])
  }

  lemma ReplayOnce(items: seq<Item>, pops: seq<nat>, b: nat)
    ensures Replay(items, pops + [b]) == Pop(Replay(items, pops), b)
  {
    assert (pops + [b])[..|pops|] == pops;
  }

  ghost predicate Sorted(buckets: seq<seq<Item>>) {
    forall b, i :: 0 <= b < |buckets| && 0 <= i < |buckets[b]| ==> BucketOf(buckets[b][i]) == b
  }

  /** Without repetitions, each bucket has been emptied from its front. */
  ghost predicate InTurn(items: seq<Item>, taken: seq<Item>, buckets: seq<seq<Item>>) {
    DistinctIds(items) ==> forall b :: 0 <= b < |buckets| ==> Of(taken, b) + buckets[b] == Of(items, b)
  }

  /** Every listing of a session is taken, dropped as a repetition, or still in its bucket; none is taken twice. */
  ghost predicate Kept(items: seq<Item>, s: Bins) {
    && |s.buckets| == 4 && DistinctIds(s.taken)
    && multiset(s.taken) + s.dropped + Left(s.buckets) == multiset(items)
    && s.used == (set x | x in s.taken :: x.id)
    && (forall d :: d in s.dropped ==> d.id in s.used)
    && Sorted(s.buckets) && InTurn(items, s.taken, s.buckets)
  }

  lemma FilledOnce(items: seq<Item>, x: Item)
    ensures Filled(items + [x]).buckets ==
            Filled(items).buckets[BucketOf(x) := Filled(items).buckets[BucketOf(x)] + [x]]
  {
    var before, after := Filled(items).buckets, Filled(items + [x]).buckets;
    forall c | 0 <= c < 4
      ensures after[c] == before[BucketOf(x) := before[BucketOf(x)] + [x]][c]
    {
      OfAdded(items, x, c);
      assert after[c] == Of(items + [x], c) && before[c] == Of(items, c);
    }
  }

  lemma FilledKeepsMore(items: seq<Item>, x: Item)
    requires Left(Filled(items).buckets) == multiset(items)
    ensures Left(Filled(items + [x]).buckets) == multiset(items + [x])
  {
    FilledOnce(items, x);
    LeftPush(Filled(items).buckets, BucketOf(x), x);
  }

  lemma {:induction false} FilledKeepsAll(items: seq<Item>)
    ensures Left(Filled(items).buckets) == multiset(items)
  {
    if items == [] {
      assert Filled([]).buckets == [[], [], [], []];
    } else {
      var front, last := items[..|items| - 1], items[|items| - 1];
      FilledKeepsAll(front);
      FilledKeepsMore(front, last);
      assert front + [last] == items;
    }
  }

  lemma FilledSorted(items: seq<Item>)
    ensures Sorted(Filled(items).buckets)
  {
    OfOwn(items, 0);
    OfOwn(items, 1);
    OfOwn(items, 2);
    OfOwn(items, 3);
  }

  lemma FilledKept(items: seq<Item>)
    ensures Kept(items, Filled(items))
  {
    FilledKeepsAll(items);
    FilledSorted(items);
    forall b | 0 <= b < 4
      ensures Of([], b) + Filled(items).buckets[b] == Of(items, b)
    {
      assert Of([], b) == [];
    }
  }

  lemma {:induction false} CountsOnce(items: seq<Item>, i: nat)
    requires DistinctIds(items) && i < |items|
    ensures multiset(items)[items[i]] == 1
    decreases |items|
  {
    var n := |items| - 1;
    var front := items[..n];
    assert items == front + [items[n]];
    if i < n {
      CountsOnce(front, i);
    } else {
      assert items[n] !in front;
      assert multiset(front)[items[n]] == 0;
    }
  }

  lemma HeadFresh(items: seq<Item>, s: Bins, b: nat)
    requires Kept(items, s) && DistinctIds(items) && b < 4 && s.buckets[b] != []
    ensures s.buckets[b][0].id !in s.used
  {
    var head := s.buckets[b][0];
    assert multiset(s.buckets[b])[head] >= 1 && multiset(items)[head] >= 1;
    var i :| 0 <= i < |items| && items[i] == head;
    CountsOnce(items, i);
    assert multiset(s.taken)[head] == 0;
    forall y | y in s.taken
      ensures y.id != head.id
    {
      assert y in multiset(s.taken) && y in multiset(items);
      var k :| 0 <= k < |items| && items[k] == y;
      assert k != i;
    }
  }

  lemma UsedGrows(taken: seq<Item>, head: Item, used: set<int>)
    requires used == (set x | x in taken :: x.id)
    ensures used + {head.id} == (set x | x in taken + [head] :: x.id)
  {
    forall d | d in used + {head.id}
      ensures exists x :: x in taken + [head] && x.id == d
    {
      if d == head.id {
        assert (taken + [head])[|taken|] == head;
      }
    }
  }

  lemma TurnTaken(items: seq<Item>, taken: seq<Item>, buckets: seq<seq<Item>>, b: nat)
    requires b < |buckets| && buckets[b] != [] && Sorted(buckets) && InTurn(items, taken, buckets)
    ensures InTurn(items, taken + [buckets[b][0]], buckets[b := buckets[b][1..]])
  {
    var head := buckets[b][0];
    assert buckets[b] == [head] + buckets[b][1..];
    forall c | 0 <= c < |buckets|
      ensures Of(taken + [head], c) + buckets[b := buckets[b][1..]][c] == Of(taken, c) + buckets[c]
    {
      OfAdded(taken, head, c);
    }
  }

  lemma DropKept(items: seq<Item>, s: Bins, b: nat)
    requires Kept(items, s) && b < 4 && s.buckets[b] != [] && s.buckets[b][0].id in s.used
    ensures Kept(items, Pop(s, b))
  {
    LeftPop(s.buckets, b);
    if DistinctIds(items) {
      HeadFresh(items, s, b);
    }
  }

  lemma TakeKept(items: seq<Item>, s: Bins, b: nat)
    requires Kept(items, s) && b < 4 && s.buckets[b] != [] && s.buckets[b][0].id !in s.used
    ensures Kept(items, Pop(s, b))
  {
    var head := s.buckets[b][0];
    LeftPop(s.buckets, b);
    UsedGrows(s.taken, head, s.used);
    forall x | x in s.taken
      ensures x.id != head.id
    {
      assert x.id in s.used;
    }
    TurnTaken(items, s.taken, s.buckets, b);
  }

  lemma PopKept(items: seq<Item>, s: Bins, b: nat)
    requires Kept(items, s)
    ensures Kept(items, Pop(s, b))
  {
    if b < 4 && s.buckets[b] != [] {
      if s.buckets[b][0].id in s.used {
        DropKept(items, s, b);
      } else {
        TakeKept(items, s, b);
      }
    }
  }

  lemma {:induction false} ReplayKept(items: seq<Item>, pops: seq<nat>)
    ensures Kept(items, Replay(items, pops))
  {
    if pops == [] {
      FilledKept(items);
    } else {
      ReplayKept(items, pops[..|pops| - 1]);
      PopKept(items, Replay(items, pops[..|pops| - 1]), pops[|pops| - 1]);
    }
  }

  lemma HeadsOwn(items: seq<Item>, pops: seq<nat>, b: nat)
    requires b < 4 && Replay(items, pops).buckets[b] != []
    ensures BucketOf(Replay(items, pops).buckets[b][0]) == b
  {
    ReplayKept(items, pops);
  }

  /** A session takes another bucket's slot only when that bucket is dry, and every bucket before its own. */
  predicate OwnOrDry(buckets: seq<seq<Item>>, x: Item, slot: nat)
    requires |buckets| == 4 && slot < 4
  {
    BucketOf(x) == slot || (buckets[slot] == [] && forall b :: 0 <= b < BucketOf(x) ==> buckets[b] == [])
  }

  ghost predicate AllOwnOrDry(buckets: seq<seq<Item>>, placed: seq<Placed>)
    requires |buckets| == 4
  {
    forall k :: 0 <= k < |placed| ==> placed[k].slot < 4 && OwnOrDry(buckets, placed[k].item, placed[k].slot)
  }

  predicate InOrder(p: Placed, later: Placed) {
    BucketOf(p.item) == p.slot || (BucketOf(later.item) != p.slot && BucketOf(later.item) >= BucketOf(p.item))
  }

  /** A slot goes to another bucket only once its own is used up: no later session comes from the slot's bucket, nor
      from one before the bucket that stood in. */
  ghost predicate Preferred(placed: seq<Placed>) {
    forall k, j :: 0 <= k < j < |placed| ==> InOrder(placed[k], placed[j])
  }

  /** In words: slot 0 is for dense sessions, slot 1 for hard ones, slot 2 for easy ones, slot 3 for the rest. Once a
      slot went to another kind, no session of its own kind comes later. */
  lemma PreferenceMeans(placed: seq<Placed>, k: nat, j: nat)
    requires Preferred(placed) && k < j < |placed|
    ensures var slot, x, y := placed[k].slot, placed[k].item, placed[j].item;
            && (slot == 0 && !x.dense ==> !y.dense)
            && (slot == 1 && (x.dense || x.cohort != Hard) ==> y.dense || y.cohort != Hard)
            && (slot == 2 && (x.dense || x.cohort != Easy) ==> y.dense || y.cohort != Easy)
            && (slot == 3 && (x.dense || x.cohort in {Hard, Easy}) ==> y.dense || y.cohort in {Hard, Easy})
  {
    assert InOrder(placed[k], placed[j]);
  }

  ghost predicate Dries(before: seq<seq<Item>>, after: seq<seq<Item>>)
    requires |before| == 4 && |after| == 4
  {
    forall c :: 0 <= c < 4 && before[c] == [] ==> after[c] == []
  }

  lemma PreferredAdded(before: seq<seq<Item>>, buckets: seq<seq<Item>>, placed: seq<Placed>, p: Placed)
    requires |before| == 4 && |buckets| == 4 && p.slot < 4 && Dries(before, buckets)
    requires Preferred(placed) && AllOwnOrDry(before, placed)
    requires before[BucketOf(p.item)] != [] && OwnOrDry(buckets, p.item, p.slot)
    ensures Preferred(placed + [p]) && AllOwnOrDry(buckets, placed + [p])
  {
  }

  class Packer {
    var buckets: seq<seq<Item>>
    var used: set<int>
    ghost const items: seq<Item>
    ghost var taken: seq<Item>
    ghost var dropped: multiset<Item>
    ghost var pops: seq<nat>

    ghost predicate Valid()
      reads this
    {
      Bins(buckets, used, taken, dropped) == Replay(items, pops)
    }

    constructor (items: seq<Item>)
      ensures Valid() && pops == [] && taken == [] && this.items == items && buckets == Filled(items).buckets
    {
      this.items := items;
      taken, used, dropped, pops := [], {}, multiset{}, [];
      buckets := [[], [], [], []];
      new;
      var i := 0;
      while i < |items|
        invariant 0 <= i <= |items| && taken == [] && used == {} && dropped == multiset{} && pops == []
        invariant this.items == items && buckets == Filled(items[..i]).buckets
      {
        var b := BucketOf(items[i]);
        assert items[..i + 1] == items[..i] + [items[i]];
        FilledOnce(items[..i], items[i]);
        buckets := buckets[b := buckets[b] + [items[i]]];
        i := i + 1;
      }
      assert items[..i] == items;
    }

    predicate Empty()
      reads this
    {
      buckets == [[], [], [], []]
    }

    /** Pops the front of a bucket, and marks that session used if it was not. */
    method PopFront(b: nat) returns (head: Item, unused: bool)
      requires Valid() && b < |buckets| == 4 && buckets[b] != []
      modifies this
      ensures Valid() && buckets == old(buckets)[b := old(buckets)[b][1..]]
      ensures head == old(buckets)[b][0] && BucketOf(head) == b && unused == (head.id !in old(used))
      ensures taken == if unused then old(taken) + [head] else old(taken)
    {
      head := buckets[b][0];
      HeadsOwn(items, pops, b);
      ReplayOnce(items, pops, b);
      pops := pops + [b];
      buckets := buckets[b := buckets[b][1..]];
      unused := head.id !in used;
      if unused {
        used := used + {head.id};
        taken := taken + [head];
      } else {
        dropped := dropped + multiset{head};
      }
    }

    /** Pops a bucket until it yields a session not yet used. */
    method Take(b: nat) returns (x: Option<Item>)
      requires Valid() && b < 4
      modifies this
      ensures Valid() && |buckets| == |old(buckets)| == 4 && buckets == old(buckets)[b := buckets[b]]
      ensures old(buckets)[b] == [] ==> x.None?
      ensures x.None? ==> buckets[b] == [] && taken == old(taken)
      ensures x.Some? ==> taken == old(taken) + [x.value] && BucketOf(x.value) == b
    {
      while |buckets[b]| > 0
        invariant Valid() && taken == old(taken) && (old(buckets)[b] == [] ==> buckets[b] == [])
        invariant buckets == old(buckets)[b := buckets[b]]
        decreases |buckets[b]|
      {
        var head, unused := PopFront(b);
        if !unused {
          continue;
        }
        return Some(head);
      }
      return None;
    }

    /** The preferred bucket, else the first that yields something. */
    method TakeFor(pref: nat) returns (x: Option<Item>)
      requires Valid() && pref < 4
      modifies this
      ensures Valid() && |buckets| == |old(buckets)| == 4 && Dries(old(buckets), buckets)
      ensures x.None? ==> Empty() && taken == old(taken)
      ensures x.Some? ==> taken == old(taken) + [x.value] && old(buckets)[BucketOf(x.value)] != []
      ensures x.Some? ==> OwnOrDry(buckets, x.value, pref)
    {
      x := Take(pref);
      if x.None? {
        var b := 0;
        while b < 4
          invariant 0 <= b <= 4 && Valid() && taken == old(taken) && x.None?
          invariant |buckets| == |old(buckets)| == 4 && Dries(old(buckets), buckets)
          invariant buckets[pref] == [] && forall c :: 0 <= c < b ==> buckets[c] == []
        {
          x := Take(b);
          if x.Some? {
            break;
          }
          b := b + 1;
        }
      }
    }
  }

  /** One wave: a session for each preference, from another bucket if need be, until the buckets run dry. */
  method PackWave(packer: Packer, ghost before: seq<Placed>, waveId: nat) returns (wave: seq<Placed>)
    requires packer.Valid() && packer.taken == ItemsOf(before)
    requires Preferred(before) && AllOwnOrDry(packer.buckets, before)
    modifies packer
    ensures packer.Valid() && packer.taken == ItemsOf(before + wave)
    ensures Preferred(before + wave) && AllOwnOrDry(packer.buckets, before + wave)
    ensures |wave| <= WAVE_SIZE && (|wave| < WAVE_SIZE ==> packer.Empty()) && (old(packer.Empty()) ==> wave == [])
    ensures forall k :: 0 <= k < |wave| ==> wave[k].wave == waveId && wave[k].slot == k
  {
    wave := [];
    assert before + wave == before;
    var pref := 0;
    while pref < 4
      invariant 0 <= pref <= 4 && packer.Valid() && |wave| == pref
      invariant packer.taken == ItemsOf(before + wave)
      invariant Preferred(before + wave) && AllOwnOrDry(packer.buckets, before + wave)
      invariant old(packer.Empty()) ==> wave == [] && packer.Empty()
      invariant forall k :: 0 <= k < |wave| ==> wave[k].wave == waveId && wave[k].slot == k
    {
      ghost var held := packer.buckets;
      var x := packer.TakeFor(pref);
      if x.None? {
        PreferredKept(held, packer.buckets, before + wave);
        break;
      }
      var placed := Placed(x.value, waveId, |wave|);
      PreferredAdded(held, packer.buckets, before + wave, placed);
      assert before + (wave + [placed]) == before + wave + [placed];
      wave := wave + [placed];
      pref := pref + 1;
      if |wave| >= WAVE_SIZE {
        break;
      }
    }
  }

  lemma PreferredKept(before: seq<seq<Item>>, buckets: seq<seq<Item>>, placed: seq<Placed>)
    requires |before| == 4 && |buckets| == 4 && Dries(before, buckets) && AllOwnOrDry(before, placed)
    ensures AllOwnOrDry(buckets, placed)
  {
  }

  /** Waves are filled in order, none skipped and none left short but the last, each slot from its preferred bucket
      while that lasts. No session is placed twice and none is forgotten, so a list without repetitions comes back
      permuted, each bucket's sessions in their old order. */
  method PackWaves(items: seq<Item>) returns (ordered: seq<Placed>)
    ensures InWaves(ordered) && Preferred(ordered)
    ensures AllPlaced(items, ItemsOf(ordered))
  {
    var packer := new Packer(items);
    ordered := [];
    var waveId := 0;
    while |ordered| < |items|
      invariant packer.Valid() && packer.items == items && fresh(packer)
      invariant packer.taken == ItemsOf(ordered) && InWaves(ordered)
      invariant Preferred(ordered) && AllOwnOrDry(packer.buckets, ordered)
      invariant |ordered| == WAVE_SIZE * waveId || packer.Empty()
      decreases |items| - |ordered|
    {
      var wave := PackWave(packer, ordered, waveId);
      if |wave| == 0 {
        assert ordered + wave == ordered;
        break;
      }
      WaveDone(ordered, wave, waveId);
      ordered := ordered + wave;
      waveId := waveId + 1;
    }
    NothingLeft(items, packer.pops);
  }

  ghost predicate AllPlaced(items: seq<Item>, taken: seq<Item>) {
    && DistinctIds(taken) && multiset(taken) <= multiset(items)
    && (forall x :: x in items ==> exists y :: y in taken && y.id == x.id)
    && (DistinctIds(items) ==> multiset(taken) == multiset(items) && |taken| == |items|)
    && (DistinctIds(items) ==> forall b :: 0 <= b < 4 ==> Of(taken, b) == Of(items, b))
  }

  lemma NothingInBuckets(items: seq<Item>, s: Bins)
    requires Kept(items, s) && (Left(s.buckets) == multiset{} || |s.taken| >= |items|)
    ensures Left(s.buckets) == multiset{}
  {
    assert |multiset(s.taken)| + |s.dropped| + |Left(s.buckets)| == |multiset(items)|;
  }

  /** Once every bucket is empty, or as many are placed as were listed, each session has its place; and since the
      buckets are empty either way, the closing pass over what they still hold finds nothing. */
  lemma NothingLeft(items: seq<Item>, pops: seq<nat>)
    requires Left(Replay(items, pops).buckets) == multiset{} || |Replay(items, pops).taken| >= |items|
    ensures Left(Replay(items, pops).buckets) == multiset{}
    ensures AllPlaced(items, Replay(items, pops).taken)
  {
    var s := Replay(items, pops);
    ReplayKept(items, pops);
    NothingInBuckets(items, s);
    EachFound(items, s);
    if DistinctIds(items) {
      Permuted(items, s);
    }
  }

  lemma EachFound(items: seq<Item>, s: Bins)
    requires Kept(items, s) && Left(s.buckets) == multiset{}
    ensures multiset(s.taken) <= multiset(items)
    ensures forall x :: x in items ==> exists y :: y in s.taken && y.id == x.id
  {
    forall x | x in items
      ensures exists y :: y in s.taken && y.id == x.id
    {
      assert x in multiset(items);
      assert x.id in s.used;
    }
  }

  lemma Permuted(items: seq<Item>, s: Bins)
    requires Kept(items, s) && Left(s.buckets) == multiset{} && DistinctIds(items)
    ensures multiset(s.taken) == multiset(items) && |s.taken| == |items|
    ensures forall b :: 0 <= b < 4 ==> Of(s.taken, b) == Of(items, b)
  {
    NothingDropped(items, s);
    assert |multiset(s.taken)| == |multiset(items)|;
    AllDry(s.buckets);
    forall b | 0 <= b < 4
      ensures Of(s.taken, b) == Of(items, b)
    {
      assert Of(s.taken, b) + s.buckets[b] == Of(items, b);
    }
  }

  lemma AllDry(buckets: seq<seq<Item>>)
    requires |buckets| == 4 && Left(buckets) == multiset{}
    ensures forall b :: 0 <= b < 4 ==> buckets[b] == []
  {
    forall b | 0 <= b < 4
      ensures buckets[b] == []
    {
      assert multiset(buckets[b]) <= Left(buckets);
      assert multiset(buckets[b]) == multiset{};
    }
  }

  lemma NothingDropped(items: seq<Item>, s: Bins)
    requires Kept(items, s) && DistinctIds(items)
    ensures s.dropped == multiset{}
  {
    forall d
      ensures d !in s.dropped
    {
      if d in items {
        var i :| 0 <= i < |items| && items[i] == d;
        CountsOnce(items, i);
        if y :| y in s.taken && y.id == d.id {
          assert y in multiset(s.taken) && y in multiset(items);
          var k :| 0 <= k < |items| && items[k] == y;
          assert k == i;
        }
      } else {
        assert d !in multiset(items);
      }
    }
  }

  lemma WaveDone(before: seq<Placed>, wave: seq<Placed>, waveId: nat)
    requires InWaves(before) && |before| == WAVE_SIZE * waveId && |wave| <= WAVE_SIZE
    requires forall k :: 0 <= k < |wave| ==> wave[k].wave == waveId && wave[k].slot == k
    ensures InWaves(before + wave)
  {
    var all := before + wave;
    forall k | 0 <= k < |all|
      ensures all[k].wave == k / WAVE_SIZE && all[k].slot == k % WAVE_SIZE
    {
      if k >= |before| {
        assert all[k] == wave[k - |before|];
        assert k == WAVE_SIZE * waveId + (k - |before|);
      } else {
        assert all[k] == before[k];
      }
    }
  }

  /** There are ceil(n/4) waves, and every one but the last holds four. */
  lemma WaveCount(ordered: seq<Placed>, w: nat)
    requires InWaves(ordered)
    ensures (exists k :: 0 <= k < |ordered| && ordered[k].wave == w) <==> w < (|ordered| + WAVE_SIZE - 1) / WAVE_SIZE
    ensures w + 1 < (|ordered| + WAVE_SIZE - 1) / WAVE_SIZE ==>
              forall k :: WAVE_SIZE * w <= k < WAVE_SIZE * w + WAVE_SIZE ==> ordered[k].wave == w
  {
    if w < (|ordered| + WAVE_SIZE - 1) / WAVE_SIZE {
      assert ordered[WAVE_SIZE * w].wave == w;
    }
  }

  // ----- arrivals -----

  datatype Arrival = Arrival(placed: Placed, at: real)

  function ArrivalAt(p: Placed, busy: seq<int>): real
    requires p.wave < |busy|
  {
    (EPOCH + busy[p.wave] * 60) as real + p.slot as real * GAP
  }

  method AssignArrivals(placed: seq<Placed>, busy: seq<int>) returns (out: Option<seq<Arrival>>)
    ensures out.None? <==> exists k :: 0 <= k < |placed| && placed[k].wave >= |busy|
    ensures out.Some? ==>
              && |out.value| == |placed|
              && forall k :: 0 <= k < |placed| ==>
                   placed[k].wave < |busy| && out.value[k] == Arrival(placed[k], ArrivalAt(placed[k], busy))
    ensures out.Some? ==>
              forall k :: 0 <= k < |placed| && placed[k].wave < |busy| ==>
                out.value[k].at == 1561939200.0 + 60.0 * busy[placed[k].wave] as real + 5.0 * placed[k].slot as real
  {
    var last: int := -1;
    var i := 0;
    while i < |placed|
      invariant 0 <= i <= |placed|
      invariant forall k :: 0 <= k < i ==> placed[k].wave <= last
      invariant last == -1 || exists k :: 0 <= k < i && placed[k].wave == last
    {
      if placed[i].wave > last {
        last := placed[i].wave;
      }
      i := i + 1;
    }
    if |busy| < last + 1 {
      return None;
    }
    var arrivals := [];
    i := 0;
    while i < |placed|
      invariant 0 <= i <= |placed| == |placed| && |arrivals| == i
      invariant forall k :: 0 <= k < |placed| ==> placed[k].wave < |busy|
      invariant forall k :: 0 <= k < i ==> arrivals[k] == Arrival(placed[k], ArrivalAt(placed[k], busy))
    {
      var base := EPOCH + busy[placed[i].wave] * 60;
      arrivals := arrivals + [Arrival(placed[i], base as real + placed[i].slot as real * GAP)];
      i := i + 1;
    }
    return Some(arrivals);
  }

  /** With strictly increasing busy minutes, packed sessions arrive strictly one after another. */
  lemma ArrivalsIncrease(placed: seq<Placed>, busy: seq<int>, a: nat, b: nat)
    requires InWaves(placed) && a < b < |placed| && placed[b].wave < |busy|
    requires forall i, j :: 0 <= i < j < |busy| ==> busy[i] < busy[j]
    ensures placed[a].wave <= placed[b].wave && ArrivalAt(placed[a], busy) < ArrivalAt(placed[b], busy)
  {
    assert a / WAVE_SIZE <= b / WAVE_SIZE;
    if placed[a].wave == placed[b].wave {
      assert placed[a].slot < placed[b].slot;
    } else {
      assert busy[placed[a].wave] + 1 <= busy[placed[b].wave];
      assert placed[a].slot <= 3;
    }
  }

  // ----- phase spans -----

  datatype Phase = LlmWait | ToolLoop | Idle

  datatype Span = Span(phase: Phase, lock: bool, start: nat, end: nat)

  /** An assistant message with its number of tool calls, or any other message. */
  datatype Message = Assistant(tools: nat) | Other

  function Front(spans: seq<Span>): seq<Span>
    requires spans != []
  {
    spans[..|spans| - 1]
  }

  function Last(spans: seq<Span>): Span
    requires spans != []
  {
    spans[|spans| - 1]
  }

  /** Each span takes some time and starts where the one before it ended; the first starts at 0, the last ends
      at `t`. */
  predicate Tiles(spans: seq<Span>, t: nat) {
    if spans == [] then t == 0
    else Last(spans).start < Last(spans).end == t && Tiles(Front(spans), Last(spans).start)
  }

  /** The length of the latest model wait. */
  function TurnWait(spans: seq<Span>): nat {
    if spans == [] then 0
    else
      var s := Last(spans);
      if s.phase == LlmWait && s.start <= s.end then s.end - s.start else TurnWait(Front(spans))
  }

  /** Model waits take two to eight seconds, tool loops a tenth of a second to one and a half, the idle tail 200 to 800
      milliseconds. */
  predicate Timely(s: Span) {
    match s.phase
    case LlmWait => s.start + 2000 <= s.end <= s.start + 8000
    case ToolLoop => s.start + 100 <= s.end <= s.start + 1500
    case Idle => s.start + 200 <= s.end <= s.start + 800
  }

  predicate AllTimely(spans: seq<Span>) {
    forall i :: 0 <= i < |spans| ==> Timely(spans[i])
  }

  /** Locked exactly in tool loops, each at most half as long as its turn's model wait. */
  predicate ToolsShort(spans: seq<Span>) {
    spans == [] ||
    var s := Last(spans);
    && ToolsShort(Front(spans))
    && (s.lock <==> s.phase == ToolLoop)
    && (s.phase == ToolLoop ==> 2 * (s.end - s.start) <= TurnWait(Front(spans)))
  }

  function ToolStarts(spans: seq<Span>): seq<nat> {
    if spans == [] then []
    else ToolStarts(Front(spans)) + if Last(spans).phase == ToolLoop then [Last(spans).start] else []
  }

  /** Every moment of a tiled session lies in exactly one span. */
  lemma {:induction false} OneSpanAt(spans: seq<Span>, t: nat, at: nat) returns (k: nat)
    requires Tiles(spans, t) && at < t
    ensures k < |spans| && spans[k].start <= at < spans[k].end
    ensures forall j :: 0 <= j < |spans| && spans[j].start <= at < spans[j].end ==> j == k
    ensures forall j :: 0 <= j < |spans| ==> spans[j].end <= t
  {
    var s := Last(spans);
    if at < s.start {
      k := OneSpanAt(Front(spans), s.start, at);
    } else {
      k := |spans| - 1;
      if s.start > 0 {
        var _ := OneSpanAt(Front(spans), s.start, 0);
      }
    }
  }

  /** The spans tile time up to `t`, each as long as its phase allows, their tool loops are short, and the trace lists
      the tool starts. */
  ghost predicate Woven(trace: seq<nat>, spans: seq<Span>, t: nat) {
    Tiles(spans, t) && AllTimely(spans) && ToolsShort(spans) && trace == ToolStarts(spans)
  }

  function PhasesOf(spans: seq<Span>): seq<Phase> {
    seq(|spans|, i requires 0 <= i < |spans| => spans[i].phase)
  }

  function Tools(n: nat): seq<Phase> {
    if n == 0 then [] else Tools(n - 1) + [ToolLoop]
  }

  lemma {:induction false} ToolsAre(n: nat)
    ensures |Tools(n)| == n && forall i :: 0 <= i < n ==> Tools(n)[i] == ToolLoop
  {
    if n > 0 {
      ToolsAre(n - 1);
    }
  }

  /** What the session asks for: a model wait for every assistant message, then its tool calls. */
  function Asked(messages: seq<Message>): seq<Phase> {
    if messages == [] then []
    else
      var last := messages[|messages| - 1];
      Asked(messages[..|messages| - 1]) + if last.Assistant? then [LlmWait] + Tools(last.tools) else []
  }

  lemma SpanAdded(trace: seq<nat>, spans: seq<Span>, s: Span, t: nat)
    requires Woven(trace, spans, t) && s.start == t < s.end && Timely(s) && (s.lock <==> s.phase == ToolLoop)
    requires s.phase == ToolLoop ==> 2 * (s.end - s.start) <= TurnWait(spans)
    ensures Woven(if s.phase == ToolLoop then trace + [t] else trace, spans + [s], s.end)
    ensures PhasesOf(spans + [s]) == PhasesOf(spans) + [s.phase]
    ensures TurnWait(spans + [s]) == if s.phase == LlmWait then s.end - s.start else TurnWait(spans)
  {
    assert Front(spans + [s]) == spans;
  }

  method RandInt(lo: nat, hi: nat) returns (r: nat)
    requires lo <= hi
    ensures lo <= r <= hi
  {
    var drawn: nat :| lo <= drawn <= hi;
    r := drawn;
  }

  method SampleTool(llm: nat) returns (ms: nat)
    requires llm >= 2000
    ensures 100 <= ms <= 1500 && 2 * ms <= llm
  {
    var half := llm / 2;
    var floor := if half < 100 then 100 else half;
    var hi := if floor < 1500 then floor else 1500;
    ms := RandInt(100, hi);
  }

  /** One assistant message: a model wait, then its tool calls one after another. */
  method Turn(tools: nat, trace: seq<nat>, spans: seq<Span>, t: nat)
    returns (trace': seq<nat>, spans': seq<Span>, t': nat)
    requires Woven(trace, spans, t)
    ensures Woven(trace', spans', t') && PhasesOf(spans') == PhasesOf(spans) + ([LlmWait] + Tools(tools))
  {
    var llm := RandInt(2000, 8000);
    var wait := Span(LlmWait, false, t, t + llm);
    SpanAdded(trace, spans, wait, t);
    trace', spans', t' := trace, spans + [wait], t + llm;
    var k := 0;
    while k < tools
      invariant 0 <= k <= tools && Woven(trace', spans', t')
      invariant PhasesOf(spans') == PhasesOf(spans) + ([LlmWait] + Tools(k))
      invariant TurnWait(spans') == llm
    {
      var ms := SampleTool(llm);
      var tool := Span(ToolLoop, true, t', t' + ms);
      SpanAdded(trace', spans', tool, t');
      trace', spans', t' := trace' + [t'], spans' + [tool], t' + ms;
      k := k + 1;
    }
  }

  /** The spans are what the session asks for (one model wait when it asks for nothing), ending idle; they tile its
      time without gaps, and the trace lists the tool starts. */
  method DeriveSpans(messages: seq<Message>) returns (trace: seq<nat>, spans: seq<Span>)
    ensures spans != [] && Woven(trace, spans, spans[|spans| - 1].end)
    ensures PhasesOf(spans) == (if Asked(messages) == [] then [LlmWait] else Asked(messages)) + [Idle]
  {
    trace, spans := [], [];
    var t := 0;
    var i := 0;
    while i < |messages|
      invariant 0 <= i <= |messages|
      invariant Woven(trace, spans, t) && PhasesOf(spans) == Asked(messages[..i])
    {
      assert messages[..i + 1][..i] == messages[..i];
      if messages[i].Assistant? {
        trace, spans, t := Turn(messages[i].tools, trace, spans, t);
      }
      i := i + 1;
    }
    assert messages[..i] == messages;
    if |spans| == 0 {
      var llm := RandInt(2000, 8000);
      SpanAdded(trace, [], Span(LlmWait, false, 0, llm), 0);
      spans := [] + [Span(LlmWait, false, 0, llm)];
      t := llm;
    }
    var idle := RandInt(200, 800);
    SpanAdded(trace, spans, Span(Idle, false, t, t + idle), t);
    spans := spans + [Span(Idle, false, t, t + idle)];
  }
}
