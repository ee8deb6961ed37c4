/** How blocks in slots, a map from tags to slots and timestamps represent the list of
    resident tags of one set. */
module SetRepresentation {
  import opened Replacement

  datatype Block = Block(tag: nat, loadTime: nat, accessTime: nat, valid: bool, dirty: bool)

  /** The timestamp that the eviction policy compares. */
  function TimeOf(b: Block, lru: bool): nat {
    if lru then b.accessTime else b.loadTime
  }

  /** The map leads tag `t` to a used slot that holds it. */
  predicate TagAt(blocks: seq<Block>, tagIndex: map<nat, nat>, n: nat, t: nat) {
    t in tagIndex ==> tagIndex[t] < n <= |blocks| && blocks[tagIndex[t]].tag == t
  }

  /** Slot `k` is in use if it is among the first `n`, and then the map leads its tag to it. */
  predicate SlotAt(blocks: seq<Block>, tagIndex: map<nat, nat>, n: nat, k: nat) {
    k < |blocks| ==>
      && (blocks[k].valid <==> k < n)
      && (k < n ==> blocks[k].tag in tagIndex && tagIndex[blocks[k].tag] == k)
  }

  /** The first `n` slots are in use and correspond one to one to the tags of the map. */
  ghost predicate Indexed(blocks: seq<Block>, tagIndex: map<nat, nat>, n: nat) {
    && n <= |blocks|
    && (forall t: nat :: TagAt(blocks, tagIndex, n, t))
    && (forall k: nat :: SlotAt(blocks, tagIndex, n, k))
  }

  /** The time of each resident tag. */
  function Times(blocks: seq<Block>, tagIndex: map<nat, nat>, lru: bool): map<nat, nat> {
    map t | t in tagIndex && tagIndex[t] < |blocks| :: TimeOf(blocks[tagIndex[t]], lru)
  }

  function DirtyTags(blocks: seq<Block>, tagIndex: map<nat, nat>): set<nat> {
    set t | t in tagIndex && tagIndex[t] < |blocks| && blocks[tagIndex[t]].dirty
  }

  /** Times fall along the list, starting below `bound`. */
  ghost predicate Falling(order: seq<nat>, times: map<nat, nat>, bound: nat) {
    order == [] ||
    (order[0] in times && times[order[0]] < bound && Falling(order[1..], times, times[order[0]]))
  }

  /** The elements of a list. Recursive, so that proofs see one unfolding at a time. */
  function Members(s: seq<nat>): set<nat> {
    if s == [] then {} else {s[0]} + Members(s[1..])
  }

  lemma {:induction false} InMembers(s: seq<nat>, t: nat)
    ensures t in Members(s) <==> t in s
  {
    if s != [] {
      InMembers(s[1..], t);
    }
  }

  lemma {:induction false} MembersRemove(s: seq<nat>, k: nat)
    requires k < |s|
    ensures Members(s) == Members(s[..k] + s[k + 1..]) + {s[k]}
  {
    var rest := s[..k] + s[k + 1..];
    if k == 0 {
      assert rest == s[1..];
    } else {
      MembersRemove(s[1..], k - 1);
      assert rest[1..] == s[1..][..k - 1] + s[1..][k..];
    }
  }

  lemma MembersCons(s: seq<nat>, t: nat)
    ensures Members([t] + s) == {t} + Members(s)
  {
    assert ([t] + s)[1..] == s;
  }

  /** The concrete state of a set represents the list `order`. */
  ghost predicate Represents(blocks: seq<Block>, tagIndex: map<nat, nat>, timestamp: nat, order: seq<nat>, lru: bool) {
    && tagIndex.Keys == Members(order)
    && Indexed(blocks, tagIndex, |order|)
    && Falling(order, Times(blocks, tagIndex, lru), timestamp)
  }

  lemma {:induction false} FallingBound(order: seq<nat>, times: map<nat, nat>, bound: nat, t: nat)
    requires Falling(order, times, bound) && t in order
    ensures t in times && times[t] < bound
    ensures var last := order[|order| - 1];
            last in times && times[last] <= times[t] && (times[last] == times[t] ==> t == last)
  {
    if |order| > 1 {
      var rest, last := order[1..], order[|order| - 1];
      assert last in rest;
      FallingBound(rest, times, times[order[0]], last);
      if t != order[0] {
        FallingBound(rest, times, times[order[0]], t);
      }
    }
  }

  lemma {:induction false} FallingDistinct(order: seq<nat>, times: map<nat, nat>, bound: nat)
    requires Falling(order, times, bound)
    ensures Distinct(order)
  {
    if order != [] {
      FallingDistinct(order[1..], times, times[order[0]]);
      forall i | 0 < i < |order| ensures order[i] != order[0] {
        FallingBound(order[1..], times, times[order[0]], order[1..][i - 1]);
      }
    }
  }

  lemma {:induction false} FallingFrame(order: seq<nat>, times: map<nat, nat>, bound: nat, times': map<nat,
      nat>, bound': nat)
    requires Falling(order, times, bound) && bound <= bound'
    requires forall t :: t in order && t in times ==> t in times' && times'[t] == times[t]
    ensures Falling(order, times', bound')
  {
    if order != [] {
      FallingFrame(order[1..], times, times[order[0]], times', times[order[0]]);
    }
  }

  lemma {:induction false} FallingRemove(order: seq<nat>, times: map<nat, nat>, bound: nat, k: nat)
    requires Falling(order, times, bound) && k < |order|
    ensures Falling(order[..k] + order[k + 1..], times, bound)
  {
    var rest := order[..k] + order[k + 1..];
    if k == 0 {
      assert rest == order[1..];
      FallingFrame(rest, times, times[order[0]], times, bound);
    } else {
      FallingRemove(order[1..], times, times[order[0]], k - 1);
      assert rest[1..] == order[1..][..k - 1] + order[1..][k..];
    }
  }

  lemma {:induction false} DistinctCount(s: seq<nat>)
    requires Distinct(s)
    ensures |Members(s)| == |s|
  {
    if s != [] {
      DistinctCount(s[1..]);
      InMembers(s[1..], s[0]);
    }
  }

  lemma MapSize(blocks: seq<Block>, tagIndex: map<nat, nat>, timestamp: nat, order: seq<nat>, lru: bool)
    requires Represents(blocks, tagIndex, timestamp, order, lru)
    ensures |tagIndex| == |order| && Distinct(order)
  {
    FallingDistinct(order, Times(blocks, tagIndex, lru), timestamp);
    DistinctCount(order);
    assert |tagIndex| == |tagIndex.Keys|;
  }

  lemma InMap(blocks: seq<Block>, tagIndex: map<nat, nat>, timestamp: nat, order: seq<nat>, lru: bool, t: nat)
    requires Represents(blocks, tagIndex, timestamp, order, lru)
    ensures t in tagIndex <==> t in order
    ensures t in tagIndex ==> tagIndex[t] < |blocks| && blocks[tagIndex[t]].tag == t
  {
    assert TagAt(blocks, tagIndex, |order|, t);
    InMembers(order, t);
    assert t in tagIndex <==> t in tagIndex.Keys;
  }

  /** The slot with the least time holds the last tag of the list. */
  lemma LeastTimeIsLast(blocks: seq<Block>, tagIndex: map<nat, nat>, timestamp: nat, order: seq<nat>, lru: bool, k: nat)
    requires Represents(blocks, tagIndex, timestamp, order, lru) && |order| == |blocks| && k < |blocks|
    requires forall j :: 0 <= j < |blocks| ==> TimeOf(blocks[k], lru) <= TimeOf(blocks[j], lru)
    ensures blocks[k].tag == order[|order| - 1] && blocks[k].tag in tagIndex && tagIndex[blocks[k].tag] == k
    ensures TimeOf(blocks[k], lru) < timestamp
  {
    var times := Times(blocks, tagIndex, lru);
    var t, last := blocks[k].tag, order[|order| - 1];
    assert SlotAt(blocks, tagIndex, |order|, k) && TagAt(blocks, tagIndex, |order|, last);
    InMap(blocks, tagIndex, timestamp, order, lru, t);
    InMap(blocks, tagIndex, timestamp, order, lru, last);
    FallingBound(order, times, timestamp, t);
    assert times[t] == TimeOf(blocks[k], lru) <= TimeOf(blocks[tagIndex[last]], lru) == times[last];
  }

  lemma MembersTouch(order: seq<nat>, t: nat)
    requires t in order
    ensures Members(Touch(order, t)) == Members(order)
  {
    var k := IndexOf(order, t);
    var rest := order[..k] + order[k + 1..];
    MembersRemove(order, k);
    MembersCons(rest, t);
    assert Touch(order, t) == [t] + rest;
  }

  lemma FallingTouch(order: seq<nat>, times: map<nat, nat>, timestamp: nat, t: nat)
    requires Falling(order, times, timestamp) && t in order
    ensures Falling(Touch(order, t), times[t := timestamp], timestamp + 1)
  {
    var k := IndexOf(order, t);
    var rest := order[..k] + order[k + 1..];
    FallingRemove(order, times, timestamp, k);
    assert t !in rest by {
      FallingDistinct(order, times, timestamp);
    }
    FallingFrame(rest, times, timestamp, times[t := timestamp], timestamp);
    assert Touch(order, t) == [t] + rest && ([t] + rest)[1..] == rest;
  }

  lemma IndexedRestamp(blocks: seq<Block>, tagIndex: map<nat, nat>, n: nat, t: nat, time: nat)
    requires Indexed(blocks, tagIndex, n) && t in tagIndex && tagIndex[t] < |blocks|
    ensures var k := tagIndex[t];
            var blocks' := blocks[k := blocks[k].(accessTime := time)];
            && Indexed(blocks', tagIndex, n)
            && Times(blocks', tagIndex, true) == Times(blocks, tagIndex, true)[t := time]
            && DirtyTags(blocks', tagIndex) == DirtyTags(blocks, tagIndex)
  {
    assert TagAt(blocks, tagIndex, n, t);
    var k := tagIndex[t];
    var blocks' := blocks[k := blocks[k].(accessTime := time)];
    SameSlots(blocks, blocks', tagIndex, n);
    forall x | x in tagIndex ensures x != t ==> tagIndex[x] != k {
      assert TagAt(blocks, tagIndex, n, x);
    }
  }

  /** Only tags and validity matter to the map. */
  lemma SameSlots(blocks: seq<Block>, blocks': seq<Block>, tagIndex: map<nat, nat>, n: nat)
    requires Indexed(blocks, tagIndex, n) && |blocks'| == |blocks|
    requires forall k :: 0 <= k < |blocks| ==> blocks'[k].tag == blocks[k].tag && blocks'[k].valid == blocks[k].valid
    ensures Indexed(blocks', tagIndex, n)
  {
    forall t: nat ensures TagAt(blocks', tagIndex, n, t) {
      assert TagAt(blocks, tagIndex, n, t);
    }
    forall k: nat ensures SlotAt(blocks', tagIndex, n, k) {
      assert SlotAt(blocks, tagIndex, n, k);
    }
  }

  /** Restamping a resident block. */
  lemma TouchRepresents(blocks: seq<Block>, tagIndex: map<nat, nat>, timestamp: nat, order: seq<nat>, t: nat)
    requires Represents(blocks, tagIndex, timestamp, order, true) && t in tagIndex && tagIndex[t] < |blocks|
    ensures var k := tagIndex[t];
            var blocks' := blocks[k := blocks[k].(accessTime := timestamp)];
            && t in order && Represents(blocks', tagIndex, timestamp + 1, Touch(order, t), true)
            && DirtyTags(blocks', tagIndex) == DirtyTags(blocks, tagIndex)
  {
    InMap(blocks, tagIndex, timestamp, order, true, t);
    MembersTouch(order, t);
    FallingTouch(order, Times(blocks, tagIndex, true), timestamp, t);
    IndexedRestamp(blocks, tagIndex, |order|, t, timestamp);
  }

  /** Putting a block in the first unused slot. */
  lemma IndexedFresh(blocks: seq<Block>, tagIndex: map<nat, nat>, n: nat, b: Block, lru: bool)
    requires Indexed(blocks, tagIndex, n) && n < |blocks| && b.tag !in tagIndex && b.valid && !b.dirty
    ensures var blocks', index' := blocks[n := b], tagIndex[b.tag := n];
            && Indexed(blocks', index', n + 1)
            && Times(blocks', index', lru) == Times(blocks, tagIndex, lru)[b.tag := TimeOf(b, lru)]
            && DirtyTags(blocks', index') == DirtyTags(blocks, tagIndex)
  {
    var blocks', index', n' := blocks[n := b], tagIndex[b.tag := n], n + 1;
    forall t: nat ensures TagAt(blocks', index', n', t) {
      assert TagAt(blocks, tagIndex, n, t);
    }
    forall k: nat ensures SlotAt(blocks', index', n', k) {
      assert SlotAt(blocks, tagIndex, n, k);
    }
    forall t | t in tagIndex ensures tagIndex[t] < n {
      assert TagAt(blocks, tagIndex, n, t);
    }
  }

  /** Putting a block over another one. */
  lemma IndexedReplace(blocks: seq<Block>, tagIndex: map<nat, nat>, n: nat, k: nat, b: Block, lru: bool)
    requires Indexed(blocks, tagIndex, n) && k < n && b.tag !in tagIndex && b.valid && !b.dirty
    ensures var gone := blocks[k].tag;
            var blocks', index' := blocks[k := b], (tagIndex - {gone})[b.tag := k];
            && Indexed(blocks', index', n)
            && Times(blocks', index', lru) == (Times(blocks, tagIndex, lru) - {gone})[b.tag := TimeOf(b, lru)]
            && DirtyTags(blocks', index') == DirtyTags(blocks, tagIndex) - {gone}
  {
    var gone := blocks[k].tag;
    var blocks', index' := blocks[k := b], (tagIndex - {gone})[b.tag := k];
    assert SlotAt(blocks, tagIndex, n, k);
    forall t | t in tagIndex && t != gone ensures tagIndex[t] < n && tagIndex[t] != k {
      assert TagAt(blocks, tagIndex, n, t);
    }
    forall t: nat ensures TagAt(blocks', index', n, t) {
      assert TagAt(blocks, tagIndex, n, t);
    }
    forall j: nat ensures SlotAt(blocks', index', n, j) {
      assert SlotAt(blocks, tagIndex, n, j);
    }
  }

  lemma FallingCons(order: seq<nat>, times: map<nat, nat>, timestamp: nat, t: nat, times': map<nat, nat>)
    requires Falling(order, times, timestamp) && t !in order && t in times' && times'[t] == timestamp
    requires forall x :: x in order && x in times ==> x in times' && times'[x] == times[x]
    ensures Falling([t] + order, times', timestamp + 1)
  {
    FallingFrame(order, times, timestamp, times', timestamp);
    assert ([t] + order)[1..] == order;
  }

  lemma FallingDropLast(order: seq<nat>, times: map<nat, nat>, timestamp: nat) returns (kept: seq<nat>, last: nat)
    requires Falling(order, times, timestamp) && order != []
    ensures kept == order[..|order| - 1] && last == order[|order| - 1] && last !in kept
    ensures Members(order) == Members(kept) + {last} && last !in Members(kept)
    ensures Falling(kept, times, timestamp)
  {
    var n := |order| - 1;
    kept, last := order[..n], order[n];
    FallingRemove(order, times, timestamp, n);
    assert order[..n] + order[n + 1..] == kept;
    MembersRemove(order, n);
    FallingDistinct(order, times, timestamp);
    InMembers(kept, last);
  }

  lemma PlaceInUnused(blocks: seq<Block>, tagIndex: map<nat, nat>, timestamp: nat, order: seq<nat>, lru: bool, b: Block)
    requires Represents(blocks, tagIndex, timestamp, order, lru) && |order| < |blocks|
    requires b.tag !in tagIndex && b.valid && !b.dirty && TimeOf(b, lru) == timestamp
    ensures Represents(blocks[|order| := b], tagIndex[b.tag := |order|], timestamp + 1, [b.tag] + order, lru)
    ensures DirtyTags(blocks[|order| := b], tagIndex[b.tag := |order|]) == DirtyTags(blocks, tagIndex)
  {
    var times := Times(blocks, tagIndex, lru);
    IndexedFresh(blocks, tagIndex, |order|, b, lru);
    InMap(blocks, tagIndex, timestamp, order, lru, b.tag);
    MembersCons(order, b.tag);
    assert tagIndex[b.tag := |order|].Keys == tagIndex.Keys + {b.tag};
    FallingCons(order, times, timestamp, b.tag, times[b.tag := timestamp]);
  }

  lemma PlaceOverLast(blocks: seq<Block>, tagIndex: map<nat, nat>, timestamp: nat, order: seq<nat>,
      lru: bool, b: Block, k: nat)
    requires Represents(blocks, tagIndex, timestamp, order, lru) && |order| == |blocks| > k
    requires b.tag !in tagIndex && b.valid && !b.dirty && TimeOf(b, lru) == timestamp
    requires blocks[k].tag == order[|order| - 1]
    ensures var blocks', index' := blocks[k := b], (tagIndex - {blocks[k].tag})[b.tag := k];
            && Represents(blocks', index', timestamp + 1, [b.tag] + order[..|order| - 1], lru)
            && DirtyTags(blocks', index') == DirtyTags(blocks, tagIndex) - {blocks[k].tag}
  {
    var times := Times(blocks, tagIndex, lru);
    IndexedReplace(blocks, tagIndex, |order|, k, b, lru);
    var kept, last := FallingDropLast(order, times, timestamp);
    InMap(blocks, tagIndex, timestamp, order, lru, b.tag);
    InMembers(order, b.tag);
    InMembers(kept, b.tag);
    MembersCons(kept, b.tag);
    assert (tagIndex - {last})[b.tag := k].Keys == tagIndex.Keys - {last} + {b.tag};
    FallingCons(kept, times, timestamp, b.tag, (times - {last})[b.tag := timestamp]);
  }

  /** The last slot's tag gives way when the set is full; otherwise a new slot is used. */
  lemma PlaceRepresents(blocks: seq<Block>, tagIndex: map<nat, nat>, timestamp: nat, order: seq<nat>,
      lru: bool, b: Block, k: nat)
    requires Represents(blocks, tagIndex, timestamp, order, lru) && k < |blocks|
    requires b.tag !in tagIndex && b.valid && !b.dirty && TimeOf(b, lru) == timestamp
    requires if |order| < |blocks| then k == |order| else blocks[k].tag == order[|order| - 1]
    ensures var full := |order| == |blocks|;
            var blocks', index' := blocks[k := b], (if full then tagIndex - {blocks[k].tag} else tagIndex)[b.tag := k];
            && Represents(blocks', index', timestamp + 1, Insert(order, b.tag, |blocks|), lru)
            && DirtyTags(blocks', index') ==
               if full then DirtyTags(blocks, tagIndex) - {order[|blocks| - 1]} else DirtyTags(blocks, tagIndex)
  {
    if |order| < |blocks| {
      PlaceInUnused(blocks, tagIndex, timestamp, order, lru, b);
    } else {
      PlaceOverLast(blocks, tagIndex, timestamp, order, lru, b, k);
    }
  }

  /** Marking a resident block dirty. */
  lemma DirtyRepresents(blocks: seq<Block>, tagIndex: map<nat, nat>, timestamp: nat, order: seq<nat>, lru: bool, t: nat)
    requires Represents(blocks, tagIndex, timestamp, order, lru) && t in tagIndex && tagIndex[t] < |blocks|
    ensures var k := tagIndex[t];
            var blocks' := blocks[k := blocks[k].(dirty := true)];
            && Represents(blocks', tagIndex, timestamp, order, lru)
            && DirtyTags(blocks', tagIndex) == DirtyTags(blocks, tagIndex) + {t}
  {
    assert TagAt(blocks, tagIndex, |order|, t);
    var k := tagIndex[t];
    var blocks' := blocks[k := blocks[k].(dirty := true)];
    SameSlots(blocks, blocks', tagIndex, |order|);
    forall x | x in tagIndex ensures x != t ==> tagIndex[x] != k {
      assert TagAt(blocks, tagIndex, |order|, x);
    }
    assert Times(blocks', tagIndex, lru) == Times(blocks, tagIndex, lru);
  }
}
