/** Extending a sequence: what succeeds, what a failure leaves behind, and that growing equals allocating at once. */
module CacheGrowth {
  import opened Prelude
  import opened CacheModel
  import opened CacheInvariant
  import opened CacheSafety

  /** A table is never longer or shorter than its tokens need. */
  lemma {:induction false} TableLength(blocks: seq<Block>, blockSize: Pos, table: seq<nat>)
    requires InPool(table, |blocks|) && TableOk(blocks, blockSize, table)
    ensures |table| == TokensToBlocks(FilledSum(blocks, table), blockSize)
  {
    if table != [] {
      var rest := table[1..];
      assert forall i | 0 <= i < |rest| :: rest[i] == table[i + 1];
      TableLength(blocks, blockSize, rest);
      if rest != [] {
        assert blocks[rest[0]].filled >= 1;
      }
    }
  }

  lemma {:induction false} SumOfOne(blocks: seq<Block>, b: nat)
    requires b < |blocks|
    ensures FilledSum(blocks, [b]) == blocks[b].filled
  {
    assert [b][1..] == [];
  }

  ghost predicate AllFull(blocks: seq<Block>, blockSize: Pos, table: seq<nat>)
    requires InPool(table, |blocks|)
  {
    forall i | 0 <= i < |table| :: blocks[table[i]].filled == blockSize
  }

  /** Only the last block of the table changes. */
  lemma {:induction false} TopUpOthers(blocks: seq<Block>, table: seq<nat>, fit: nat)
    requires InPool(table, |blocks|) && NoDup(table) && table != []
    ensures var blocks' := TopUp(blocks, table, fit);
      && (forall b | 0 <= b < |blocks| && b != Last(table) :: blocks'[b] == blocks[b])
      && (forall i | 0 <= i < |table| - 1 :: table[i] != Last(table) && blocks'[table[i]] == blocks[table[i]])
      && blocks'[Last(table)] == blocks[Last(table)].(filled := blocks[Last(table)].filled + fit)
  {
  }

  lemma {:induction false} TopUpSum(blocks: seq<Block>, blockSize: Pos, table: seq<nat>, fit: nat)
    requires InPool(table, |blocks|) && NoDup(table) && table != []
    ensures FilledSum(TopUp(blocks, table, fit), table) == FilledSum(blocks, table) + fit
  {
    hide TopUp, FilledSum, NoDup;
    TopUpOthers(blocks, table, fit);
    var blocks' := TopUp(blocks, table, fit);
    var head, b := Init(table), Last(table);
    assert table == head + [b];
    FilledConcat(blocks, head, [b]);
    FilledConcat(blocks', head, [b]);
    FilledFrame(blocks, blocks', blockSize, head);
    SumOfOne(blocks, b);
    SumOfOne(blocks', b);
  }

  lemma {:induction false} TopUpEffect(blocks: seq<Block>, blockSize: Pos, table: seq<nat>, m: nat)
    requires InPool(table, |blocks|) && TableOk(blocks, blockSize, table) && NoDup(table)
    ensures var fit := Fit(blocks, blockSize, table, m);
      var blocks' := TopUp(blocks, table, fit);
      && fit <= m
      && (forall b | 0 <= b < |blocks| && b !in table :: blocks'[b] == blocks[b])
      && TableOk(blocks', blockSize, table)
      && FilledSum(blocks', table) == FilledSum(blocks, table) + fit
      && (fit < m ==> AllFull(blocks', blockSize, table))
  {
    hide FilledSum, NoDup;
    if table != [] {
      var fit := Fit(blocks, blockSize, table, m);
      TopUpOthers(blocks, table, fit);
      TopUpSum(blocks, blockSize, table, fit);
      hide TopUp;
      assert Last(table) in table;
    }
  }

  lemma {:induction false} TableAppend(blocks: seq<Block>, blockSize: Pos, s: seq<nat>, t: seq<nat>)
    requires InPool(s, |blocks|) && InPool(t, |blocks|)
    requires TableOk(blocks, blockSize, s) && TableOk(blocks, blockSize, t)
    requires t == [] || AllFull(blocks, blockSize, s)
    ensures TableOk(blocks, blockSize, s + t)
    ensures FilledSum(blocks, s + t) == FilledSum(blocks, s) + FilledSum(blocks, t)
  {
    FilledConcat(blocks, s, t);
    if t == [] {
      assert s + t == s;
    }
  }

  lemma {:induction false} HeldArithmetic(free: multiset<nat>, free': multiset<nat>, ids: multiset<nat>,
                                          rest: multiset<nat>, table: multiset<nat>)
    requires free == free' + ids
    ensures free' + (rest + (table + ids)) == free + (rest + table)
  {
  }

  lemma {:induction false} ExtendHeld(c: Cache, c': Cache, id: Id, ids: seq<nat>)
    requires Inv(c) && id in c.tables && |c'.blocks| == |c.blocks|
    requires c'.tables == c.tables[id := c.tables[id] + ids] && c'.order == Touch(c.order, id)
    requires multiset(c.free) == multiset(c'.free) + multiset(ids)
    ensures multiset(c'.free) + Held(c'.tables, c'.order) == Universe(|c'.blocks|)
  {
    hide Universe, NoDup, Wf, TableOk;
    var rest := Without(c.order, id);
    WithoutMembers(c.order, id);
    HeldWithout(c.tables, c.order, id);
    HeldFrame(c.tables, c'.tables, rest);
    HeldConcat(c'.tables, rest, [id]);
    HeldOne(c'.tables, id);
    HeldArithmetic(multiset(c.free), multiset(c'.free), multiset(ids), Held(c.tables, rest), multiset(c.tables[id]));
  }

  /** The cache after the top-up alone: still a partition, and the whole effect of an extension that runs out
      of memory. */
  lemma {:induction false} TopUpSafe(c: Cache, id: Id, m: nat)
    requires Inv(c) && id in c.tables
    ensures var fit := Fit(c.blocks, c.blockSize, c.tables[id], m);
      var c' := c.(blocks := TopUp(c.blocks, c.tables[id], fit), order := Touch(c.order, id));
      && fit <= m
      && Inv(c') && OthersKept(c, c', id) && Tokens(c', id) == Tokens(c, id) + fit
      && NoDup(c'.free) && AllFree(c'.blocks, c'.free)
      && (fit < m ==> AllFull(c'.blocks, c'.blockSize, c'.tables[id]))
  {
    hide Held, Universe, NoDup, TableOk, FilledSum, Without;
    var t := c.tables[id];
    var fit := Fit(c.blocks, c.blockSize, t, m);
    var c' := c.(blocks := TopUp(c.blocks, t, fit), order := Touch(c.order, id));
    Disjoint(c);
    TopUpEffect(c.blocks, c.blockSize, t, m);
    TouchMembers(c.order, id);
    HeldWithout(c.tables, c.order, id);
    TablesFrame(c, c', id);
  }

  lemma {:induction false} GrowSafe(c: Cache, topped: Cache, c': Cache, id: Id, g: Grabbed, done: bool)
    requires Inv(c) && Inv(topped) && id in c.tables && OthersKept(c, topped, id)
    requires topped.tables == c.tables && topped.free == c.free && topped.order == Touch(c.order, id)
    requires !done ==> AllFull(topped.blocks, c.blockSize, c.tables[id])
    requires |g.blocks| == |c.blocks| && InPool(g.ids, |c.blocks|) && InPool(g.free, |c.blocks|)
    requires multiset(c.free) == multiset(g.free) + multiset(g.ids)
    requires forall b | b in g.ids :: b in c.free
    requires forall b | 0 <= b < |c.blocks| && b !in g.ids :: g.blocks[b] == topped.blocks[b]
    requires TableOk(g.blocks, c.blockSize, g.ids) && (done ==> g.ids == [])
    requires c' == topped.(blocks := g.blocks, free := g.free, tables := c.tables[id := c.tables[id] + g.ids],
      totalAllocated := c'.totalAllocated)
    ensures Inv(c') && OthersKept(c, c', id)
    ensures Tokens(c', id) == Tokens(topped, id) + FilledSum(g.blocks, g.ids)
  {
    hide Held, Universe, NoDup, FilledSum, Without;
    var t := c.tables[id];
    Disjoint(topped);
    TouchMembers(c.order, id);
    ExtendHeld(c, c', id, g.ids);
    FreeStaysFree(topped, c', g.ids);
    FilledFrame(topped.blocks, g.blocks, c.blockSize, t);
    TableAppend(g.blocks, c.blockSize, t, g.ids);
    TablesFrame(topped, c', id);
  }

  lemma {:induction false} NoTokensNoBlocks(blockSize: Pos)
    ensures TokensToBlocks(0, blockSize) == 0
  {
  }

  /** The last block of a table takes tokens up to its size. */
  lemma {:induction false} FitsInRoom(c: Cache, id: Id, m: nat)
    requires Inv(c) && id in c.tables && c.tables[id] != []
    ensures Fit(c.blocks, c.blockSize, c.tables[id], m) == Min(c.blockSize - c.blocks[Last(c.tables[id])].filled, m)
    ensures c.blocks[Last(c.tables[id])].filled <= c.blockSize
  {
    hide Held, Universe, NoDup;
    var t := c.tables[id];
    assert TableOk(c.blocks, c.blockSize, t);
    assert c.blocks[t[|t| - 1]].filled <= c.blockSize;
  }

  /** Extension of a live sequence. It succeeds exactly when the blocks for the tokens that do not
      fit in the last block are free; then exactly m tokens are added. When it runs out of memory, the top-up stays. */
  lemma {:induction false} ExtendSafe(c: Cache, id: Id, m: nat)
    requires Inv(c) && id in c.tables
    ensures var (c', r) := Extend(c, id, m);
      var fit := Fit(c.blocks, c.blockSize, c.tables[id], m);
      && fit <= m
      && Inv(c') && OthersKept(c, c', id) && id in c'.tables && c'.order == Touch(c.order, id)
      && (r == Extended(TokensToBlocks(m - fit, c.blockSize)) || r == ExtendOutOfMemory)
      && (r.Extended? <==> CanAllocate(c, m - fit))
      && (r.Extended? ==> Tokens(c', id) == Tokens(c, id) + m && |c'.tables[id]| == |c.tables[id]| + r.newBlocks)
      && (r == ExtendOutOfMemory ==> Tokens(c', id) == Tokens(c, id) + fit)
      && (r == ExtendOutOfMemory ==> c'.tables == c.tables && c'.free == c.free)
  {
    hide Held, Universe, NoDup, TableOk, FilledSum, Without, Grab, TokensToBlocks, TopUp, Fit;
    var t := c.tables[id];
    var fit := Fit(c.blocks, c.blockSize, t, m);
    var topped := c.(blocks := TopUp(c.blocks, t, fit), order := Touch(c.order, id));
    TopUpSafe(c, id, m);
    var needed := TokensToBlocks(m - fit, c.blockSize);
    if needed <= |c.free| {
      var c' := Extend(c, id, m).0;
      GrabEffect(topped.blocks, c.free, c.blockSize, m - fit, needed);
      assert fit == m ==> needed == 0 by { NoTokensNoBlocks(c.blockSize); }
      GrowSafe(c, topped, c', id, Grab(topped.blocks, c.free, c.blockSize, m - fit, needed), fit == m);
    }
  }

  lemma {:induction false} NoRoom(blocks: seq<Block>, blockSize: Pos, m: nat)
    ensures Fit(blocks, blockSize, [], m) == 0
  {
  }

  /** Extending a sequence without a table does nothing and says so. */
  lemma {:induction false} ExtendUnknown(c: Cache, id: Id, m: nat)
    requires Wf(c) && id !in c.tables
    ensures Extend(c, id, m) == (c, UnknownSequence)
  {
  }

  /** The blocks an extension takes: the room left in the last block first, then new blocks from the end of the
      free list, appended to the table. A failed one takes no block. */
  lemma {:induction false} ExtendTakes(c: Cache, id: Id, m: nat)
    requires Inv(c) && id in c.tables
    ensures var (c', r) := Extend(c, id, m);
      var t := c.tables[id];
      var room := if t == [] then 0 else c.blockSize - c.blocks[Last(t)].filled;
      && 0 <= room && Fit(c.blocks, c.blockSize, t, m) == Min(room, m)
      && (r.Extended? ==>
            && id in c'.tables && t <= c'.tables[id] && r.newBlocks == TokensToBlocks(m - Min(room, m), c.blockSize)
            && PopsFor(c, c', r.newBlocks, c'.tables[id][|t|..]))
      && (r == ExtendOutOfMemory ==> c'.totalAllocated == c.totalAllocated && c'.free == c.free)
  {
    hide Held, Universe, NoDup, TableOk, Grab, TokensToBlocks, TopUp, Fit;
    var t := c.tables[id];
    var fit := Fit(c.blocks, c.blockSize, t, m);
    if t == [] {
      NoRoom(c.blocks, c.blockSize, m);
    } else {
      FitsInRoom(c, id, m);
    }
    var topped := TopUp(c.blocks, t, fit);
    var needed := TokensToBlocks(m - fit, c.blockSize);
    if needed <= |c.free| {
      GrabOrder(topped, c.free, c.blockSize, m - fit, needed);
      var g := Grab(topped, c.free, c.blockSize, m - fit, needed);
      assert (t + g.ids)[|t|..] == g.ids;
    }
  }

  lemma {:induction false} TouchLast(order: seq<Id>, id: Id)
    requires NoDup(order) && id in order
    ensures Touch(order, id) == order <==> order[|order| - 1] == id
  {
    var k :| 0 <= k < |order| && order[k] == id;
    WithoutAt(order, k);
    assert Touch(order, id)[|Touch(order, id)| - 1] == id;
  }

  /** A failed extension leaves the cache as it was exactly when the last block had no room and the sequence
      was already the most recently touched one. */
  lemma {:induction false} FailedExtension(c: Cache, id: Id, m: nat)
    requires Inv(c) && id in c.tables && Fit(c.blocks, c.blockSize, c.tables[id], m) <= m
    requires !CanAllocate(c, m - Fit(c.blocks, c.blockSize, c.tables[id], m))
    ensures Extend(c, id, m).1 == ExtendOutOfMemory
    ensures Extend(c, id, m).0 == c
      <==> Fit(c.blocks, c.blockSize, c.tables[id], m) == 0 && c.order[|c.order| - 1] == id
  {
    hide Held, Universe, TableOk, FilledSum, Grab, TokensToBlocks, Fit;
    assert id in c.order;
    TouchLast(c.order, id);
    var t := c.tables[id];
    var fit := Fit(c.blocks, c.blockSize, t, m);
    assert TopUp(c.blocks, t, fit) == c.blocks <==> fit == 0 by {
      if t == [] {
        assert fit == 0 by { NoRoom(c.blocks, c.blockSize, m); }
      } else {
        assert TopUp(c.blocks, t, fit)[Last(t)].filled == c.blocks[Last(t)].filled + fit;
      }
    }
  }

  // ----- growing equals allocating at once -----

  lemma {:induction false} GrabSplitFirst(blocks: seq<Block>, free: seq<nat>, blockSize: Pos, n: nat, m: nat)
    requires InPool(free, |blocks|) && free != [] && 0 < n <= blockSize
    ensures var g := Grab(blocks, free, blockSize, n, 1);
      var fit := Fit(g.blocks, blockSize, g.ids, m);
      && fit <= m
      && TokensToBlocks(n + m, blockSize) == 1 + TokensToBlocks(m - fit, blockSize)
      && (TokensToBlocks(n + m, blockSize) <= |free| ==>
            var h := Grab(TopUp(g.blocks, g.ids, fit), g.free, blockSize, m - fit, TokensToBlocks(m - fit, blockSize));
            Grab(blocks, free, blockSize, n + m, TokensToBlocks(n + m, blockSize)) == h.(ids := g.ids + h.ids))
  {
    var b := Last(free);
    var blocks' := blocks[b := Block(ALLOCATED, blocks[b].refCount + 1, n)];
    var g := Grab(blocks, free, blockSize, n, 1);
    assert g == Grabbed(blocks', Init(free), [b]) by {
      assert [b] + [] == [b];
    }
    var fit := Min(blockSize - n, m);
    assert Fit(g.blocks, blockSize, g.ids, m) == fit;
    assert TopUp(g.blocks, g.ids, fit) == blocks[b := Block(ALLOCATED, blocks[b].refCount + 1, Min(n + m, blockSize))];
    assert m - fit == Monus(n + m, blockSize);
  }

  lemma {:induction false} GrabSplit(blocks: seq<Block>, free: seq<nat>, blockSize: Pos, n: nat, m: nat)
    requires InPool(free, |blocks|) && TokensToBlocks(n, blockSize) <= |free|
    ensures var k := TokensToBlocks(n, blockSize);
      var g := Grab(blocks, free, blockSize, n, k);
      var fit := Fit(g.blocks, blockSize, g.ids, m);
      && fit <= m
      && TokensToBlocks(n + m, blockSize) == k + TokensToBlocks(m - fit, blockSize)
      && (TokensToBlocks(n + m, blockSize) <= |free| ==>
            var h := Grab(TopUp(g.blocks, g.ids, fit), g.free, blockSize, m - fit, TokensToBlocks(m - fit, blockSize));
            Grab(blocks, free, blockSize, n + m, TokensToBlocks(n + m, blockSize)) == h.(ids := g.ids + h.ids))
    decreases n, 1
  {
    if n == 0 {
    } else if n <= blockSize {
      GrabSplitFirst(blocks, free, blockSize, n, m);
    } else {
      GrabSplitMore(blocks, free, blockSize, n, m);
    }
  }

  lemma {:induction false} FitCons(blocks: seq<Block>, blockSize: Pos, b: nat, ids: seq<nat>, m: nat)
    requires b < |blocks| && InPool(ids, |blocks|) && ids != []
    ensures Fit(blocks, blockSize, [b] + ids, m) == Fit(blocks, blockSize, ids, m)
    ensures forall fit: nat :: TopUp(blocks, [b] + ids, fit) == TopUp(blocks, ids, fit)
  {
    assert Last([b] + ids) == Last(ids);
  }

  lemma {:induction false} GrabStep(blocks: seq<Block>, free: seq<nat>, blockSize: Pos, n: nat, k: nat)
    requires InPool(free, |blocks|) && n > blockSize && 0 < k <= |free|
    ensures var b := Last(free);
      var blocks' := blocks[b := Block(ALLOCATED, blocks[b].refCount + 1, blockSize)];
      var g' := Grab(blocks', Init(free), blockSize, n - blockSize, k - 1);
      Grab(blocks, free, blockSize, n, k) == g'.(ids := [b] + g'.ids)
  {
  }

  lemma {:induction false} GrabSplitMore(blocks: seq<Block>, free: seq<nat>, blockSize: Pos, n: nat, m: nat)
    requires InPool(free, |blocks|) && n > blockSize && TokensToBlocks(n, blockSize) <= |free|
    ensures var k := TokensToBlocks(n, blockSize);
      var g := Grab(blocks, free, blockSize, n, k);
      var fit := Fit(g.blocks, blockSize, g.ids, m);
      && fit <= m
      && TokensToBlocks(n + m, blockSize) == k + TokensToBlocks(m - fit, blockSize)
      && (TokensToBlocks(n + m, blockSize) <= |free| ==>
            var h := Grab(TopUp(g.blocks, g.ids, fit), g.free, blockSize, m - fit, TokensToBlocks(m - fit, blockSize));
            Grab(blocks, free, blockSize, n + m, TokensToBlocks(n + m, blockSize)) == h.(ids := g.ids + h.ids))
    decreases n, 0
  {
    hide Grab, Fit, TopUp;
    var k := TokensToBlocks(n, blockSize);
    var g := Grab(blocks, free, blockSize, n, k);
    var b := Last(free);
    var blocks' := blocks[b := Block(ALLOCATED, blocks[b].refCount + 1, blockSize)];
    var g' := Grab(blocks', Init(free), blockSize, n - blockSize, k - 1);
    GrabStep(blocks, free, blockSize, n, k);
    FitCons(g'.blocks, blockSize, b, g'.ids, m);
    GrabSplit(blocks', Init(free), blockSize, n - blockSize, m);
    if TokensToBlocks(n + m, blockSize) <= |free| {
      GrabStep(blocks, free, blockSize, n + m, TokensToBlocks(n + m, blockSize));
      var fit := Fit(g.blocks, blockSize, g.ids, m);
      var h := Grab(TopUp(g.blocks, g.ids, fit), g.free, blockSize, m - fit, TokensToBlocks(m - fit, blockSize));
      assert [b] + (g'.ids + h.ids) == g.ids + h.ids;
    }
  }

  lemma {:induction false} TouchTwice(order: seq<Id>, id: Id)
    ensures Touch(Touch(order, id), id) == Touch(order, id)
  {
    WithoutConcat(Without(order, id), [id], id);
    WithoutMembers(Without(order, id), id);
    WithoutMembers(order, id);
  }

  lemma {:induction false} MoreTokensMoreBlocks(n: nat, m: nat, blockSize: Pos)
    ensures TokensToBlocks(n, blockSize) <= TokensToBlocks(n + m, blockSize)
  {
    if n > blockSize {
      MoreTokensMoreBlocks(n - blockSize, m, blockSize);
    }
  }

  /** Allocating n tokens and then extending by m is allocating n + m: it succeeds in the same states
      and leaves the same cache, down to the order of physical ids, the free list, the LRU order and the counter. */
  lemma {:induction false} GrowingIsAllocatingAtOnce(c: Cache, id: Id, n: nat, m: nat)
    requires Wf(c)
    ensures var once := Allocate(c, id, n + m);
      var first := Allocate(c, id, n);
      && (once.Allocated? <==> first.Allocated? && Extend(first.cache, id, m).1.Extended?)
      && (once.Allocated? ==> Extend(first.cache, id, m).0 == once.cache)
  {
    hide Grab, Without, Fit, TopUp, TokensToBlocks;
    var k := TokensToBlocks(n, c.blockSize);
    if k <= |c.free| {
      GrabSplit(c.blocks, c.free, c.blockSize, n, m);
      TouchTwice(c.order, id);
    } else {
      MoreTokensMoreBlocks(n, m, c.blockSize);
    }
  }
}
