/** Every operation of the cache keeps the pool partition, and says exactly how many tokens each sequence stores. */
module CacheSafety {
  import opened Prelude
  import opened CacheModel
  import opened CacheInvariant

  /** Tokens stored for a live sequence. */
  ghost function Tokens(c: Cache, id: Id): nat
    requires Wf(c) && id in c.tables
  {
    FilledSum(c.blocks, c.tables[id])
  }

  /** Every other sequence keeps its table and its stored tokens. */
  ghost predicate OthersKept(c: Cache, c': Cache, id: Id)
    requires Wf(c) && Wf(c')
  {
    c'.blockSize == c.blockSize && |c'.blocks| == |c.blocks| &&
    (forall x | x in c.tables && x != id ::
      x in c'.tables && c'.tables[x] == c.tables[x] && Tokens(c', x) == Tokens(c, x)) &&
    (forall x | x in c'.tables && x != id :: x in c.tables)
  }

  ghost predicate AllFree(blocks: seq<Block>, ids: seq<nat>)
    requires InPool(ids, |blocks|)
  {
    forall i | 0 <= i < |ids| :: blocks[ids[i]] == Block(FREE, 0, 0)
  }

  lemma {:induction false} GrabOne(blocks: seq<Block>, free: seq<nat>, blockSize: Pos, tokens: nat, k: nat)
    requires InPool(free, |blocks|) && 0 < k <= |free|
    ensures var b := Last(free);
      var blocks' := blocks[b := Block(ALLOCATED, blocks[b].refCount + 1, Min(tokens, blockSize))];
      var h := Grab(blocks', Init(free), blockSize, Monus(tokens, blockSize), k - 1);
      Grab(blocks, free, blockSize, tokens, k) == h.(ids := [b] + h.ids)
  {
  }

  lemma {:induction false} ConsOrder(free: seq<nat>, ids: seq<nat>)
    requires |ids| < |free| && forall i | 0 <= i < |ids| :: ids[i] == Init(free)[|free| - 2 - i]
    ensures forall i | 0 <= i <= |ids| :: ([Last(free)] + ids)[i] == free[|free| - 1 - i]
    ensures Init(free)[..|free| - 1 - |ids|] == free[..|free| - 1 - |ids|]
  {
  }

  lemma {:induction false} Unwritten(blocks: seq<Block>, mid: seq<Block>, last: seq<Block>, b: nat, ids: seq<nat>)
    requires |last| == |mid| == |blocks| && b < |blocks| && mid == blocks[b := mid[b]]
    requires forall x | 0 <= x < |mid| && x !in ids :: last[x] == mid[x]
    ensures forall x | 0 <= x < |blocks| && x !in [b] + ids :: last[x] == blocks[x]
  {
    assert forall x | x in ids :: x in [b] + ids;
    assert ([b] + ids)[0] == b;
  }

  lemma {:induction false} InitInPool(free: seq<nat>, size: nat)
    requires InPool(free, size) && free != []
    ensures InPool(Init(free), size) && Last(free) < size && |Init(free)| == |free| - 1
  {
  }

  /** The blocks of `ids` were popped from the end of `free`, leaving `left`; nothing else was written. */
  ghost predicate Popped(blocks: seq<Block>, free: seq<nat>, last: seq<Block>, left: seq<nat>, ids: seq<nat>) {
    && |ids| <= |free| && left == free[..|free| - |ids|] && |last| == |blocks|
    && (forall i | 0 <= i < |ids| :: ids[i] == free[|free| - 1 - i])
    && (forall b | 0 <= b < |blocks| && b !in ids :: last[b] == blocks[b])
  }

  lemma {:induction false} PopOneMore(blocks: seq<Block>, mid: seq<Block>, last: seq<Block>, free: seq<nat>,
                                      left: seq<nat>, ids: seq<nat>)
    requires free != [] && Last(free) < |blocks| == |mid|
    requires mid == blocks[Last(free) := mid[Last(free)]] && Popped(mid, Init(free), last, left, ids)
    ensures Popped(blocks, free, last, left, [Last(free)] + ids)
  {
    ConsOrder(free, ids);
    Unwritten(blocks, mid, last, Last(free), ids);
  }

  lemma {:induction false} GrabPops(blocks: seq<Block>, free: seq<nat>, blockSize: Pos, tokens: nat, k: nat)
    requires InPool(free, |blocks|) && k <= |free|
    ensures var g := Grab(blocks, free, blockSize, tokens, k); Popped(blocks, free, g.blocks, g.free, g.ids)
    decreases k
  {
    if k > 0 {
      hide Grab, InPool, Popped, Init, Last;
      InitInPool(free, |blocks|);
      var b, rest := Last(free), Init(free);
      var mid := blocks[b := Block(ALLOCATED, blocks[b].refCount + 1, Min(tokens, blockSize))];
      GrabPops(mid, rest, blockSize, Monus(tokens, blockSize), k - 1);
      var h := Grab(mid, rest, blockSize, Monus(tokens, blockSize), k - 1);
      PopOneMore(blocks, mid, h.blocks, free, h.free, h.ids);
      GrabOne(blocks, free, blockSize, tokens, k);
    }
  }

  /** Blocks leave the free list from its end, last one first, and no other block is written. */
  lemma {:induction false} GrabOrder(blocks: seq<Block>, free: seq<nat>, blockSize: Pos, tokens: nat, k: nat)
    requires InPool(free, |blocks|) && k <= |free|
    ensures var g := Grab(blocks, free, blockSize, tokens, k);
      && g.free == free[..|free| - k]
      && (forall i | 0 <= i < k :: g.ids[i] == free[|free| - 1 - i])
      && (forall b | 0 <= b < |blocks| && b !in g.ids :: g.blocks[b] == blocks[b])
  {
    hide Grab;
    GrabPops(blocks, free, blockSize, tokens, k);
  }

  /** What is left of a list of free blocks after writing its last one is free, and that one is not touched again. */
  lemma {:induction false} RestIsFree(blocks: seq<Block>, free: seq<nat>, taken: Block, blockSize: Pos, tokens: nat,
                                      k: nat)
    requires InPool(free, |blocks|) && NoDup(free) && AllFree(blocks, free) && k < |free|
    ensures var b, rest := Last(free), Init(free);
      && InPool(rest, |blocks|) && NoDup(rest) && AllFree(blocks[b := taken], rest)
      && Grab(blocks[b := taken], rest, blockSize, tokens, k).blocks[b] == taken
  {
    hide Grab;
    var b, rest := Last(free), Init(free);
    assert forall i | 0 <= i < |rest| :: rest[i] == free[i] && rest[i] != b;
    GrabOrder(blocks[b := taken], rest, blockSize, tokens, k);
  }

  lemma {:induction false} TableCons(blocks: seq<Block>, blockSize: Pos, b: nat, table: seq<nat>)
    requires b < |blocks| && InPool(table, |blocks|) && TableOk(blocks, blockSize, table)
    requires blocks[b].status == ALLOCATED && blocks[b].refCount == 1 && 1 <= blocks[b].filled <= blockSize
    requires table != [] ==> blocks[b].filled == blockSize
    ensures TableOk(blocks, blockSize, [b] + table)
    ensures FilledSum(blocks, [b] + table) == blocks[b].filled + FilledSum(blocks, table)
  {
    assert ([b] + table)[1..] == table;
  }

  /** Free blocks that are grabbed end up owned once and filled front to back, storing exactly the tokens asked for. */
  lemma {:induction false} GrabFills(blocks: seq<Block>, free: seq<nat>, blockSize: Pos, tokens: nat, k: nat)
    requires InPool(free, |blocks|) && NoDup(free) && AllFree(blocks, free)
    requires k == TokensToBlocks(tokens, blockSize) <= |free|
    ensures var g := Grab(blocks, free, blockSize, tokens, k);
      TableOk(g.blocks, blockSize, g.ids) && FilledSum(g.blocks, g.ids) == tokens
    decreases k
  {
    if k > 0 {
      hide Grab, NoDup;
      var b, rest, left := Last(free), Init(free), Monus(tokens, blockSize);
      assert blocks[b] == Block(FREE, 0, 0);
      var taken := Block(ALLOCATED, 1, Min(tokens, blockSize));
      RestIsFree(blocks, free, taken, blockSize, left, k - 1);
      GrabFills(blocks[b := taken], rest, blockSize, left, k - 1);
      var h := Grab(blocks[b := taken], rest, blockSize, left, k - 1);
      GrabOne(blocks, free, blockSize, tokens, k);
      TableCons(h.blocks, blockSize, b, h.ids);
    }
  }

  /** Popping ids off the end of a list only moves them. */
  lemma {:induction false} PopsMove(free: seq<nat>, ids: seq<nat>)
    requires |ids| <= |free| && forall i | 0 <= i < |ids| :: ids[i] == free[|free| - 1 - i]
    ensures multiset(free) == multiset(free[..|free| - |ids|]) + multiset(ids)
    decreases |ids|
  {
    if ids == [] {
      assert free[..|free|] == free;
    } else {
      PopsMove(free, Init(ids));
      assert free[..|free| - |Init(ids)|] == free[..|free| - |ids|] + [Last(ids)];
      assert ids == Init(ids) + [Last(ids)];
    }
  }

  /** What taking blocks off a clean free list does, in one statement. */
  lemma {:induction false} GrabEffect(blocks: seq<Block>, free: seq<nat>, blockSize: Pos, tokens: nat, k: nat)
    requires InPool(free, |blocks|) && NoDup(free) && AllFree(blocks, free)
    requires k == TokensToBlocks(tokens, blockSize) <= |free|
    ensures var g := Grab(blocks, free, blockSize, tokens, k);
      && |g.free| == |free| - k
      && multiset(free) == multiset(g.free) + multiset(g.ids)
      && (forall b | b in g.ids :: b in free)
      && (forall b | 0 <= b < |blocks| && b !in g.ids :: g.blocks[b] == blocks[b])
      && TableOk(g.blocks, blockSize, g.ids) && FilledSum(g.blocks, g.ids) == tokens
  {
    hide Grab, NoDup, TableOk, FilledSum, TokensToBlocks;
    GrabOrder(blocks, free, blockSize, tokens, k);
    GrabFills(blocks, free, blockSize, tokens, k);
    PopsMove(free, Grab(blocks, free, blockSize, tokens, k).ids);
  }

  lemma {:induction false} ReleaseEffect(blocks: seq<Block>, free: seq<nat>, ids: seq<nat>)
    requires InPool(free, |blocks|) && InPool(ids, |blocks|) && NoDup(ids)
    requires forall b | b in ids :: blocks[b].refCount == 1
    ensures var r := ReleaseAll(blocks, free, ids);
      && r.1 == free + ids
      && forall b | 0 <= b < |blocks| :: r.0[b] == if b in ids then Block(FREE, 0, 0) else blocks[b]
    decreases |ids|
  {
    if ids != [] {
      var b := ids[0];
      var blocks' := blocks[b := Block(FREE, 0, 0)];
      assert forall i | 0 <= i < |ids[1..]| :: ids[1..][i] == ids[i + 1] && ids[i + 1] != b;
      ReleaseEffect(blocks', free + [b], ids[1..]);
      assert free + [b] + ids[1..] == free + ids;
      assert forall x :: x in ids <==> x == b || x in ids[1..];
    }
  }

  /** Replacing blocks outside a table leaves the table alone. */
  lemma {:induction false} TablesFrame(c: Cache, c': Cache, id: Id)
    requires Inv(c) && Wf(c') && c'.blockSize == c.blockSize && |c'.blocks| == |c.blocks|
    requires forall x | x in c.tables && x != id :: x in c'.tables && c'.tables[x] == c.tables[x]
    requires forall x | x in c'.tables && x != id :: x in c.tables
    requires forall x, b | x in c.tables && x != id && b in c.tables[x] :: c'.blocks[b] == c.blocks[b]
    ensures OthersKept(c, c', id)
    ensures forall x | x in c'.tables && x != id :: TableOk(c'.blocks, c'.blockSize, c'.tables[x])
  {
    forall x | x in c.tables && x != id
      ensures Tokens(c', x) == Tokens(c, x) && TableOk(c'.blocks, c'.blockSize, c'.tables[x])
    {
      FilledFrame(c.blocks, c'.blocks, c.blockSize, c.tables[x]);
    }
  }

  lemma {:induction false} AllocateHeld(c: Cache, c': Cache, id: Id)
    requires Inv(c) && id !in c.tables && id in c'.tables
    requires c'.tables == c.tables[id := c'.tables[id]] && c'.order == c.order + [id]
    requires multiset(c.free) == multiset(c'.free) + multiset(c'.tables[id]) && |c'.blocks| == |c.blocks|
    ensures multiset(c'.free) + Held(c'.tables, c'.order) == Universe(|c'.blocks|)
  {
    HeldConcat(c'.tables, c.order, [id]);
    HeldOne(c'.tables, id);
    HeldFrame(c.tables, c'.tables, c.order);
    SumSwap(multiset(c'.free), multiset(c'.tables[id]), Held(c.tables, c.order));
  }

  /** The blocks that stay on the free list were not written. */
  lemma {:induction false} FreeStaysFree(c: Cache, c': Cache, taken: seq<nat>)
    requires Inv(c) && Wf(c') && |c'.blocks| == |c.blocks|
    requires multiset(c.free) == multiset(c'.free) + multiset(taken)
    requires forall b | b in c.free && b !in taken :: c'.blocks[b] == c.blocks[b]
    ensures forall b | b in c'.free :: c'.blocks[b] == Block(FREE, 0, 0)
  {
    FreeIsSingle(c);
    UniverseCount(|c.blocks|);
    forall b | b in c'.free ensures c'.blocks[b] == Block(FREE, 0, 0) {
      assert b in multiset(c'.free) && Universe(|c.blocks|)[b] <= 1;
      assert b in multiset(c.free);
      assert b in taken ==> b in multiset(taken);
    }
  }

  /** The ids were popped off the end of the free list, last one first, and were counted. */
  ghost predicate PopsFor(c: Cache, c': Cache, k: nat, ids: seq<nat>) {
    && |ids| == k <= |c.free| && c'.free == c.free[..|c.free| - k]
    && (forall i | 0 <= i < k :: ids[i] == c.free[|c.free| - 1 - i])
    && c'.totalAllocated == c.totalAllocated + k
  }

  /** Allocation, for an id without a table: it succeeds exactly when enough blocks are free, takes
      ceil(n / blockSize) of them, stores n tokens, and touches the id. */
  lemma {:induction false} AllocateSafe(c: Cache, id: Id, n: nat)
    requires Inv(c) && id !in c.tables
    ensures Allocate(c, id, n).Allocated? <==> CanAllocate(c, n)
    ensures CanAllocate(c, n) ==>
      var c' := Allocate(c, id, n).cache;
      && Inv(c') && OthersKept(c, c', id)
      && c'.order == c.order + [id] && id in c'.tables
      && |c'.tables[id]| == TokensToBlocks(n, c.blockSize) && Tokens(c', id) == n
      && |c'.free| == |c.free| - TokensToBlocks(n, c.blockSize)
      && c'.totalEvicted == c.totalEvicted
      && PopsFor(c, c', |c'.tables[id]|, c'.tables[id])
  {
    hide Held, Universe, Grab, Without, NoDup, FilledSum, TokensToBlocks;
    if CanAllocate(c, n) {
      var k := TokensToBlocks(n, c.blockSize);
      var g := Grab(c.blocks, c.free, c.blockSize, n, k);
      var c' := Allocate(c, id, n).cache;
      Disjoint(c);
      GrabEffect(c.blocks, c.free, c.blockSize, n, k);
      GrabOrder(c.blocks, c.free, c.blockSize, n, k);
      WithoutMembers(c.order, id);
      TouchMembers(c.order, id);
      TablesFrame(c, c', id);
      AllocateHeld(c, c', id);
      FreeStaysFree(c, c', g.ids);
    }
  }

  lemma {:induction false} OwnedOnce(c: Cache, id: Id)
    requires Inv(c) && id in c.tables
    ensures forall b | b in c.tables[id] :: c.blocks[b].refCount == 1
  {
  }

  lemma {:induction false} FreeSafe(c: Cache, id: Id)
    requires Inv(c)
    ensures var c' := Free(c, id);
      && Inv(c') && OthersKept(c, c', id) && id !in c'.tables
      && c'.order == Without(c.order, id) && c'.totalEvicted == c.totalEvicted
      && (id in c.tables ==> |c'.free| == |c.free| + |c.tables[id]|)
      && (id in c.tables ==> c'.free == c.free + c.tables[id] && c'.totalAllocated == c.totalAllocated)
      && (id !in c.tables ==> c' == c)
  {
    hide Held, Universe, NoDup, Without, Tokens;
    if id in c.tables {
      var t := c.tables[id];
      var c' := Free(c, id);
      Disjoint(c);
      OwnedOnce(c, id);
      ReleaseEffect(c.blocks, c.free, t);
      WithoutMembers(c.order, id);
      assert c'.free == c.free + t;
      TablesFrame(c, c', id);
      hide TableOk, ReleaseAll, OthersKept;
      HeldWithout(c.tables, c.order, id);
      HeldFrame(c.tables, c'.tables, c'.order);
      SumSwap(multiset(c.free), multiset(t), Held(c'.tables, c'.order));
    } else {
      WithoutMembers(c.order, id);
    }
  }

  lemma {:induction false} EvictSafe(c: Cache)
    requires Inv(c)
    ensures EvictLru(c).1.NothingToEvict? <==> c.order == []
    ensures c.order == [] ==> EvictLru(c).0 == c
    ensures c.order != [] ==>
      var (c', r) := EvictLru(c);
      var victim := c.order[0];
      && r == Evicted(victim) && victim in c.tables
      && Inv(c') && OthersKept(c, c', victim) && victim !in c'.tables
      && c'.order == c.order[1..] && |c'.free| == |c.free| + |c.tables[victim]|
      && c'.free == c.free + c.tables[victim]
      && c'.totalEvicted == c.totalEvicted + 1 && c'.totalAllocated == c.totalAllocated
  {
    hide Held, Universe, Without, FilledSum, TableOk;
    if c.order != [] {
      var victim := c.order[0];
      WithoutAt(c.order, 0);
      FreeSafe(c, victim);
      WithoutMembers(c.order[1..], victim);
      var freed := Free(c, victim);
      assert EvictLru(c).0 == freed.(totalEvicted := freed.totalEvicted + 1);
    }
  }

  lemma {:induction false} LookupSafe(c: Cache, id: Id)
    requires Inv(c) && id in c.tables
    ensures var (c', r) := Lookup(c, id);
      Inv(c') && c'.blocks == c.blocks && c'.tables == c.tables && c'.order == Touch(c.order, id)
        && r == Some(c.tables[id])
  {
    hide Held;
    TouchMembers(c.order, id);
    HeldWithout(c.tables, c.order, id);
  }
}
