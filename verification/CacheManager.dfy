/** The block pool and its manager, updated in place; every method is tied to the cache on values. */
module CacheManagement {
  import opened Prelude
  import opened CacheModel
  import opened CacheInvariant

  class PhysicalBlock {
    const blockId: nat
    const blockSize: Pos
    var status: BlockStatus
    var refCount: nat
    var numTokensFilled: nat

    ghost function Value(): Block
      reads this
    {
      Block(status, refCount, numTokensFilled)
    }

    constructor (blockId: nat, blockSize: Pos)
      ensures this.blockId == blockId && this.blockSize == blockSize
      ensures Value() == Block(FREE, 0, 0)
    {
      this.blockId := blockId;
      this.blockSize := blockSize;
      status, refCount, numTokensFilled := FREE, 0, 0;
    }

    function FreeSlots(): int
      reads this
    {
      blockSize - numTokensFilled
    }

    method Allocate()
      modifies this
      ensures Value() == Block(ALLOCATED, old(refCount) + 1, old(numTokensFilled))
    {
      status := ALLOCATED;
      refCount := refCount + 1;
    }

    method Release()
      modifies this
      ensures Value() == ReleaseBlock(old(Value()))
    {
      refCount := Max(0, refCount - 1);
      if refCount == 0 {
        status := FREE;
        numTokensFilled := 0;
      }
    }
  }

  class BlockTable {
    const sequenceId: Id
    const blockSize: Pos
    var physicalBlockIds: seq<nat>

    constructor (sequenceId: Id, blockSize: Pos)
      ensures this.sequenceId == sequenceId && this.blockSize == blockSize
      ensures physicalBlockIds == []
    {
      this.sequenceId := sequenceId;
      this.blockSize := blockSize;
      physicalBlockIds := [];
    }

    function NumBlocks(): nat
      reads this
    {
      |physicalBlockIds|
    }

    method AppendBlock(physicalBlockId: nat)
      modifies this
      ensures physicalBlockIds == old(physicalBlockIds) + [physicalBlockId]
    {
      physicalBlockIds := physicalBlockIds + [physicalBlockId];
    }
  }

  ghost function Values(blocks: seq<PhysicalBlock>): (vs: seq<Block>)
    reads blocks
    ensures |vs| == |blocks| && forall i | 0 <= i < |vs| :: vs[i] == blocks[i].Value()
  {
    seq(|blocks|, i requires 0 <= i < |blocks| reads blocks => blocks[i].Value())
  }

  ghost function Tables(tables: map<Id, BlockTable>): (vs: map<Id, seq<nat>>)
    reads tables.Values
    ensures vs.Keys == tables.Keys && forall id | id in vs :: vs[id] == tables[id].physicalBlockIds
  {
    map id | id in tables :: tables[id].physicalBlockIds
  }

  lemma {:induction false} BlocksStep(n: nat, d: Pos)
    ensures TokensToBlocks(n, d) == 0 <==> n == 0
    ensures n > 0 ==> TokensToBlocks(n, d) == 1 + TokensToBlocks(Monus(n, d), d)
  {
  }

  lemma {:induction false} GrabNone(blocks: seq<Block>, free: seq<nat>, blockSize: Pos, tokens: nat)
    requires InPool(free, |blocks|)
    ensures Grab(blocks, free, blockSize, tokens, 0) == Grabbed(blocks, free, [])
  {
  }

  lemma {:induction false} GrabHead(blocks: seq<Block>, free: seq<nat>, blockSize: Pos, tokens: nat, k: nat)
    requires 0 < k <= |free| && InPool(free, |blocks|)
    ensures var b := Last(free);
      var g := Grab(blocks, free, blockSize, tokens, k);
      && g.ids[0] == b
      && Grab(blocks[b := Block(ALLOCATED, blocks[b].refCount + 1, Min(tokens, blockSize))], Init(free), blockSize,
           Monus(tokens, blockSize), k - 1)
         == g.(ids := g.ids[1..])
  {
  }

  class CacheManager {
    const numBlocks: nat
    const blockSize: Pos
    var blocks: seq<PhysicalBlock>
    var freeBlockIds: seq<nat>
    var blockTables: map<Id, BlockTable>
    var accessOrder: seq<Id>
    var totalAllocated: nat
    var totalEvicted: nat

    /** The shape the code relies on: distinct objects, and block ids that index the pool. */
    ghost predicate Valid()
      reads this, blocks, blockTables.Values
    {
      && NoDup(blocks) && |blocks| == numBlocks && (forall b | b in blocks :: b.blockSize == blockSize)
      && (forall id, id' | id in blockTables && id' in blockTables && id != id' :: blockTables[id] != blockTables[id'])
      && InPool(freeBlockIds, |blocks|)
      && forall id | id in blockTables :: InPool(blockTables[id].physicalBlockIds, |blocks|)
    }

    /** No id is in the access order without a table. */
    ghost predicate Listed()
      reads `accessOrder, `blockTables
    {
      forall id | id in accessOrder :: id in blockTables
    }

    ghost function View(): (c: Cache)
      requires Valid()
      reads this, blocks, blockTables.Values
      ensures Wf(c) && c.blockSize == blockSize && c.free == freeBlockIds && c.order == accessOrder
      ensures c.tables.Keys == blockTables.Keys && c.blocks == Values(blocks)
    {
      Cache(blockSize, Values(blocks), freeBlockIds, Tables(blockTables), accessOrder, totalAllocated, totalEvicted)
    }

    constructor (numBlocks: nat, blockSize: Pos)
      ensures Valid() && fresh(blocks) && fresh(blockTables.Values)
      ensures this.numBlocks == numBlocks && this.blockSize == blockSize
      ensures View() == NewCache(numBlocks, blockSize) && Listed()
    {
      this.numBlocks := numBlocks;
      this.blockSize := blockSize;
      blocks, freeBlockIds := [], [];
      blockTables, accessOrder := map[], [];
      totalAllocated, totalEvicted := 0, 0;
      new;
      for i := 0 to numBlocks
        invariant |blocks| == |freeBlockIds| == i
        invariant fresh(this) && forall k | 0 <= k < i :: fresh(blocks[k]) && blocks[k].Value() == Block(FREE, 0, 0)
        invariant forall k | 0 <= k < i :: blocks[k].blockSize == blockSize
        invariant NoDup(blocks)
        invariant freeBlockIds == seq(i, k => k)
        invariant blockTables == map[] && accessOrder == [] && totalAllocated == totalEvicted == 0
      {
        var block := new PhysicalBlock(i, blockSize);
        blocks := blocks + [block];
        freeBlockIds := freeBlockIds + [i];
      }
      assert Values(blocks) == NewCache(numBlocks, blockSize).blocks;
      assert Tables(blockTables) == map[];
    }

    function NumFreeBlocks(): nat
      reads this
    {
      |freeBlockIds|
    }

    function BlocksNeeded(numTokens: nat): (k: nat)
      ensures k == TokensToBlocks(numTokens, blockSize)
    {
      TokensToBlocksFormula(numTokens, blockSize);
      (numTokens + blockSize - 1) / blockSize
    }

    predicate HasRoomFor(numTokens: nat)
      requires Valid()
      reads this, blocks, blockTables.Values
      ensures HasRoomFor(numTokens) <==> CanAllocate(View(), numTokens)
    {
      BlocksNeeded(numTokens) <= NumFreeBlocks()
    }

    method TouchSequence(sequenceId: Id)
      requires Valid()
      modifies this`accessOrder
      ensures Valid() && View() == old(View()).(order := Touch(old(accessOrder), sequenceId))
      ensures old(Listed()) && sequenceId in blockTables ==> Listed()
    {
      WithoutMembers(accessOrder, sequenceId);
      hide NoDup, Without, InPool, Wf;
      accessOrder := Without(accessOrder, sequenceId) + [sequenceId];
    }

    /** One round of the allocation loops: pop a block, claim it, fill it, map it. */
    method TakeBlock(table: BlockTable, tokens: nat)
      requires Valid() && freeBlockIds != []
      modifies this`freeBlockIds, blocks, table
      ensures Valid() && freeBlockIds == Init(old(freeBlockIds))
      ensures var b := Last(old(freeBlockIds));
        && Values(blocks) == old(Values(blocks))[b := Block(ALLOCATED, old(blocks[b].refCount) + 1,
             Min(tokens, blockSize))]
        && table.physicalBlockIds == old(table.physicalBlockIds) + [b]
    {
      var b := Last(freeBlockIds);
      freeBlockIds := Init(freeBlockIds);
      var block := blocks[b];
      block.Allocate();
      block.numTokensFilled := Min(tokens, blockSize);
      table.AppendBlock(b);
      assert Values(blocks)
        == old(Values(blocks))[b := Block(ALLOCATED, old(blocks[b].refCount) + 1, Min(tokens, blockSize))];
    }

    /** The allocation loop: claim `needed` blocks for `tokens` tokens at the end of the table. */
    method TakeBlocks(table: BlockTable, tokens: nat, needed: nat)
      requires Valid() && needed == TokensToBlocks(tokens, blockSize) <= |freeBlockIds|
      modifies this`freeBlockIds, blocks, table
      ensures Valid()
      ensures var g := Grab(old(Values(blocks)), old(freeBlockIds), blockSize, tokens, needed);
        && Values(blocks) == g.blocks && freeBlockIds == g.free
        && table.physicalBlockIds == old(table.physicalBlockIds) + g.ids
    {
      hide Grab, TokensToBlocks, NoDup;
      ghost var g := Grab(Values(blocks), freeBlockIds, blockSize, tokens, needed);
      ghost var left := tokens;
      ghost var taken: seq<nat> := [];
      for i := 0 to needed
        invariant Valid() && |freeBlockIds| >= needed - i
        invariant needed - i == TokensToBlocks(left, blockSize)
        invariant left > 0 ==> left == tokens - i * blockSize
        invariant table.physicalBlockIds == old(table.physicalBlockIds) + taken
        invariant Grab(Values(blocks), freeBlockIds, blockSize, left, needed - i) == g.(ids := g.ids[i..])
        invariant taken == g.ids[..i]
      {
        var remaining := tokens - i * blockSize;
        GrabHead(Values(blocks), freeBlockIds, blockSize, left, needed - i);
        BlocksStep(left, blockSize);
        TakeBlock(table, remaining);
        assert (i + 1) * blockSize == i * blockSize + blockSize;
        taken := taken + [g.ids[i]];
        left := Monus(left, blockSize);
      }
      GrabNone(Values(blocks), freeBlockIds, blockSize, left);
    }

    method FillNewTable(sequenceId: Id, tokens: nat, needed: nat) returns (table: BlockTable)
      requires Valid() && needed == TokensToBlocks(tokens, blockSize) <= |freeBlockIds|
      modifies this`freeBlockIds, blocks
      ensures Valid() && fresh(table) && InPool(table.physicalBlockIds, |blocks|)
      ensures var g := Grab(old(View()).blocks, old(View()).free, blockSize, tokens, needed);
        table.physicalBlockIds == g.ids && View() == old(View()).(blocks := g.blocks, free := g.free)
    {
      hide Grab, TokensToBlocks, NoDup;
      table := new BlockTable(sequenceId, blockSize);
      label Before:
      assert Tables(blockTables) == old(Tables(blockTables)) && Values(blocks) == old(Values(blocks));
      TakeBlocks(table, tokens, needed);
      assert Tables(blockTables) == old@Before(Tables(blockTables));
    }

    method CountBlocks(newBlocks: nat)
      requires Valid()
      modifies this`totalAllocated
      ensures Valid() && View() == old(View()).(totalAllocated := old(View()).totalAllocated + newBlocks)
    {
      hide NoDup, InPool, Wf;
      totalAllocated := totalAllocated + newBlocks;
      assert Values(blocks) == old(Values(blocks)) && Tables(blockTables) == old(Tables(blockTables));
    }

    method FileTable(sequenceId: Id, table: BlockTable)
      requires Valid() && InPool(table.physicalBlockIds, |blocks|) && table !in blockTables.Values
      modifies this`blockTables
      ensures Valid() && blockTables == old(blockTables)[sequenceId := table]
      ensures View() == old(View()).(tables := old(View()).tables[sequenceId := table.physicalBlockIds])
    {
      hide NoDup, Wf;
      blockTables := blockTables[sequenceId := table];
      assert Tables(blockTables) == old(Tables(blockTables))[sequenceId := table.physicalBlockIds];
    }

    /** Record a filled table: map it, touch the sequence, count the blocks. */
    method MapTable(sequenceId: Id, table: BlockTable, newBlocks: nat)
      requires Valid() && InPool(table.physicalBlockIds, |blocks|) && table !in blockTables.Values
      modifies this`blockTables, this`accessOrder, this`totalAllocated
      ensures Valid() && blockTables == old(blockTables)[sequenceId := table]
      ensures View() == old(View()).(
        tables := old(View()).tables[sequenceId := table.physicalBlockIds],
        order := Touch(old(View()).order, sequenceId), totalAllocated := old(View()).totalAllocated + newBlocks)
      ensures old(Listed()) ==> Listed()
    {
      hide Touch, Wf, CacheManager.View, CacheManager.Valid;
      FileTable(sequenceId, table);
      TouchSequence(sequenceId);
      CountBlocks(newBlocks);
    }

    /** None is the MemoryError, which leaves the cache as it was. */
    method AllocateSequence(sequenceId: Id, numTokens: nat) returns (r: Option<BlockTable>)
      requires Valid()
      modifies this, blocks, blockTables.Values
      ensures Valid() && blocks == old(blocks) && fresh(blockTables.Values - old(blockTables.Values))
      ensures match Allocate(old(View()), sequenceId, numTokens)
        case OutOfMemory => r == None && View() == old(View())
        case Allocated(cache, table) =>
          View() == cache && sequenceId in blockTables && r == Some(blockTables[sequenceId])
      ensures old(Listed()) ==> Listed()
    {
      hide Grab, TokensToBlocks, Touch, Wf, Values, CacheManager.View, CacheManager.Valid;
      var needed := BlocksNeeded(numTokens);
      if needed > NumFreeBlocks() {
        return None;
      }
      var table := FillNewTable(sequenceId, numTokens, needed);
      MapTable(sequenceId, table, needed);
      return Some(table);
    }

    method LengthenTable(sequenceId: Id, tokens: nat, needed: nat)
      requires Valid() && sequenceId in blockTables && needed == TokensToBlocks(tokens, blockSize) <= |freeBlockIds|
      modifies this`freeBlockIds, blocks, blockTables[sequenceId]
      ensures Valid()
      ensures var c := old(View());
        var g := Grab(c.blocks, c.free, blockSize, tokens, needed);
        View() == c.(blocks := g.blocks, free := g.free, tables := c.tables[sequenceId := c.tables[sequenceId] + g.ids])
    {
      hide Grab, TokensToBlocks, NoDup;
      TakeBlocks(blockTables[sequenceId], tokens, needed);
      assert Tables(blockTables) == old(Tables(blockTables))[sequenceId := blockTables[sequenceId].physicalBlockIds];
    }

    /** The second half of an extension: new blocks for the tokens that did not fit. */
    method GrowTable(sequenceId: Id, tokens: nat) returns (r: ExtendOutcome)
      requires Valid() && sequenceId in blockTables
      modifies this`freeBlockIds, this`totalAllocated, blocks, blockTables[sequenceId]
      ensures Valid()
      ensures var c := old(View());
        var needed := TokensToBlocks(tokens, blockSize);
        if needed > |c.free| then r == ExtendOutOfMemory && View() == c
        else
          var g := Grab(c.blocks, c.free, blockSize, tokens, needed);
          r == Extended(needed) &&
          View() == c.(blocks := g.blocks, free := g.free,
            tables := c.tables[sequenceId := c.tables[sequenceId] + g.ids],
                       totalAllocated := c.totalAllocated + needed)
    {
      hide Grab, TokensToBlocks, Wf, Values, CacheManager.View, CacheManager.Valid;
      var needed := BlocksNeeded(tokens);
      if needed > NumFreeBlocks() {
        return ExtendOutOfMemory;
      }
      LengthenTable(sequenceId, tokens, needed);
      CountBlocks(needed);
      return Extended(needed);
    }

    /** Use the room left in the last block of a table. */
    method FillLast(table: BlockTable, tokens: nat) returns (fit: nat)
      requires Valid() && InPool(table.physicalBlockIds, |blocks|)
      modifies blocks
      ensures Valid()
      ensures fit == Fit(old(Values(blocks)), blockSize, table.physicalBlockIds, tokens) <= tokens
      ensures Values(blocks) == TopUp(old(Values(blocks)), table.physicalBlockIds, fit)
    {
      fit := 0;
      if table.NumBlocks() > 0 {
        var b := Last(table.physicalBlockIds);
        var lastBlock := blocks[b];
        assert lastBlock.Value() == Values(blocks)[b];
        var canFit := lastBlock.FreeSlots();
        if canFit > 0 {
          fit := Min(canFit, tokens);
          lastBlock.numTokensFilled := lastBlock.numTokensFilled + fit;
        }
        assert Values(blocks)
          == old(Values(blocks))[b := old(Values(blocks))[b].(filled := old(Values(blocks))[b].filled + fit)];
      } else {
        assert Values(blocks) == old(Values(blocks));
      }
    }

    /** The first half of an extension: the room left in the last block. */
    method TopUpTable(sequenceId: Id, tokens: nat) returns (fit: nat)
      requires Valid() && sequenceId in blockTables
      modifies blocks
      ensures Valid()
      ensures var c := old(View());
        && fit == Fit(c.blocks, blockSize, c.tables[sequenceId], tokens) <= tokens
        && View() == c.(blocks := TopUp(c.blocks, c.tables[sequenceId], fit))
    {
      hide NoDup, InPool, Fit, TopUp;
      fit := FillLast(blockTables[sequenceId], tokens);
      assert Tables(blockTables) == old(Tables(blockTables));
    }

    /** Extend a live sequence; an unknown one is the KeyError, and running out of blocks keeps the top-up. */
    method ExtendSequence(sequenceId: Id, numNewTokens: nat) returns (r: ExtendOutcome)
      requires Valid()
      modifies this, blocks, blockTables.Values
      ensures Valid() && blocks == old(blocks) && blockTables == old(blockTables)
      ensures (View(), r) == Extend(old(View()), sequenceId, numNewTokens)
    {
      hide Grab, TokensToBlocks, Fit, TopUp, Values, Touch, CacheManager.View, CacheManager.Valid, Wf;
      if sequenceId !in blockTables {
        return UnknownSequence;
      }
      TouchSequence(sequenceId);
      var fit := TopUpTable(sequenceId, numNewTokens);
      r := GrowTable(sequenceId, numNewTokens - fit);
    }

    method UnmapTable(sequenceId: Id)
      requires Valid()
      modifies this`blockTables, this`accessOrder
      ensures Valid() && blockTables == old(blockTables) - {sequenceId} && blockTables.Values <= old(blockTables.Values)
      ensures View() == old(View()).(tables := old(View()).tables - {sequenceId},
        order := Without(old(View()).order, sequenceId))
      ensures old(Listed()) ==> Listed()
    {
      WithoutMembers(accessOrder, sequenceId);
      hide NoDup, Without, InPool, Wf;
      blockTables := blockTables - {sequenceId};
      accessOrder := Without(accessOrder, sequenceId);
      assert Tables(blockTables) == old(Tables(blockTables)) - {sequenceId};
    }

    method ReleaseOne(b: nat)
      requires Valid() && b < |blocks|
      modifies this`freeBlockIds, blocks
      ensures Valid()
      ensures var released := ReleaseBlock(old(blocks[b].Value()));
        && Values(blocks) == old(Values(blocks))[b := released]
        && freeBlockIds == if released.status == FREE then old(freeBlockIds) + [b] else old(freeBlockIds)
    {
      var block := blocks[b];
      block.Release();
      if block.status == FREE {
        freeBlockIds := freeBlockIds + [b];
      }
      assert Values(blocks) == old(Values(blocks))[b := ReleaseBlock(old(blocks[b].Value()))];
    }

    /** Release blocks in table order, returning each one nobody references any more to the free list. */
    method ReleaseBlocks(ids: seq<nat>)
      requires Valid() && InPool(ids, |blocks|)
      modifies this`freeBlockIds, blocks
      ensures Valid()
      ensures (Values(blocks), freeBlockIds) == ReleaseAll(old(Values(blocks)), old(freeBlockIds), ids)
    {
      hide NoDup;
      for i := 0 to |ids|
        invariant Valid()
        invariant ReleaseAll(Values(blocks), freeBlockIds, ids[i..])
          == ReleaseAll(old(Values(blocks)), old(freeBlockIds), ids)
      {
        ReleaseOne(ids[i]);
        assert ids[i..][1..] == ids[i + 1..];
      }
    }

    method ReturnBlocks(ids: seq<nat>)
      requires Valid() && InPool(ids, |blocks|)
      modifies this`freeBlockIds, blocks
      ensures Valid()
      ensures var (blocks', free) := ReleaseAll(old(View()).blocks, old(View()).free, ids);
        View() == old(View()).(blocks := blocks', free := free)
    {
      hide NoDup, InPool, ReleaseAll;
      ReleaseBlocks(ids);
      assert Tables(blockTables) == old(Tables(blockTables));
    }

    method FreeSequence(sequenceId: Id)
      requires Valid()
      modifies this, blocks
      ensures Valid() && blocks == old(blocks) && blockTables.Values <= old(blockTables.Values)
      ensures View() == Free(old(View()), sequenceId)
      ensures old(Listed()) ==> Listed()
    {
      hide NoDup, Without, InPool, Wf, Values, Tables, ReleaseAll;
      if sequenceId !in blockTables {
        return;
      }
      var table := blockTables[sequenceId];
      ReturnBlocks(table.physicalBlockIds);
      UnmapTable(sequenceId);
    }

    /** Take the front of the access order. */
    method PopVictim() returns (victimId: Id)
      requires Valid() && accessOrder != []
      modifies this`accessOrder
      ensures Valid() && victimId == old(View()).order[0]
      ensures View() == old(View()).(order := old(View()).order[1..])
      ensures old(Listed()) ==> Listed() && victimId in blockTables
    {
      hide NoDup, InPool, Wf;
      victimId := accessOrder[0];
      accessOrder := accessOrder[1..];
      assert Values(blocks) == old(Values(blocks)) && Tables(blockTables) == old(Tables(blockTables));
    }

    method CountEviction()
      requires Valid()
      modifies this`totalEvicted
      ensures Valid() && View() == old(View()).(totalEvicted := old(View()).totalEvicted + 1)
    {
      hide NoDup, InPool, Wf;
      totalEvicted := totalEvicted + 1;
      assert Values(blocks) == old(Values(blocks)) && Tables(blockTables) == old(Tables(blockTables));
    }

    method EvictLru() returns (r: EvictOutcome)
      requires Valid()
      modifies this, blocks
      ensures Valid() && blocks == old(blocks) && blockTables.Values <= old(blockTables.Values)
      ensures (View(), r) == CacheModel.EvictLru(old(View()))
      ensures old(Listed()) ==> Listed() && !r.VictimUnknown?
    {
      hide Wf, Free, CacheManager.View, CacheManager.Valid;
      if accessOrder == [] {
        return NothingToEvict;
      }
      var victimId := PopVictim();
      if victimId !in blockTables {
        return VictimUnknown(victimId);
      }
      FreeSequence(victimId);
      CountEviction();
      return Evicted(victimId);
    }

    method GetBlockTable(sequenceId: Id) returns (r: Option<BlockTable>)
      requires Valid()
      modifies this`accessOrder
      ensures Valid()
      ensures View() == Lookup(old(View()), sequenceId).0
      ensures r == if sequenceId in blockTables then Some(blockTables[sequenceId]) else None
    {
      TouchSequence(sequenceId);
      return if sequenceId in blockTables then Some(blockTables[sequenceId]) else None;
    }
  }
}
