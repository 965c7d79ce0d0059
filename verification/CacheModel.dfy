/** The paged KV-cache on values: what each operation of the cache manager does to the pool. */
module CacheModel {
  import opened Prelude

  datatype BlockStatus = FREE | ALLOCATED | RESERVED

  datatype Block = Block(status: BlockStatus, refCount: nat, filled: nat)

  /** `free` is popped and pushed at its end; `order` lists ids from least to most recently touched. */
  datatype Cache = Cache(
    blockSize: Pos,
    blocks: seq<Block>,
    free: seq<nat>,
    tables: map<Id, seq<nat>>,
    order: seq<Id>,
    totalAllocated: nat,
    totalEvicted: nat)

  /** Every block id in use is an index into the pool. */
  ghost predicate InPool(ids: seq<nat>, n: nat) {
    forall i | 0 <= i < |ids| :: ids[i] < n
  }

  ghost predicate Wf(c: Cache) {
    InPool(c.free, |c.blocks|) && forall id | id in c.tables :: InPool(c.tables[id], |c.blocks|)
  }

  function NewCache(numBlocks: nat, blockSize: Pos): (c: Cache)
    ensures Wf(c)
  {
    Cache(blockSize, seq(numBlocks, i => Block(FREE, 0, 0)), seq(numBlocks, i => i), map[], [], 0, 0)
  }

  /** Blocks for a token count, one block at a time; TokensToBlocksFormula gives the closed form the code computes. */
  function TokensToBlocks(numTokens: nat, blockSize: Pos): nat {
    if numTokens == 0 then 0
    else if numTokens <= blockSize then 1
    else 1 + TokensToBlocks(numTokens - blockSize, blockSize)
  }

  predicate CanAllocate(c: Cache, numTokens: nat) {
    TokensToBlocks(numTokens, c.blockSize) <= |c.free|
  }

  function Touch(order: seq<Id>, id: Id): seq<Id> {
    Without(order, id) + [id]
  }

  datatype Grabbed = Grabbed(blocks: seq<Block>, free: seq<nat>, ids: seq<nat>)

  function Monus(a: nat, b: nat): nat { if a <= b then 0 else a - b }

  /** Pop k blocks off the free list and fill them with `tokens` tokens, one block at a time. */
  function Grab(blocks: seq<Block>, free: seq<nat>, blockSize: Pos, tokens: nat, k: nat): (g: Grabbed)
    requires k <= |free| && InPool(free, |blocks|)
    ensures |g.blocks| == |blocks| && |g.ids| == k && |g.free| == |free| - k
    ensures InPool(g.free, |blocks|) && InPool(g.ids, |blocks|)
    decreases k
  {
    if k == 0 then Grabbed(blocks, free, []) else
      var b := Last(free);
      var taken := Block(ALLOCATED, blocks[b].refCount + 1, Min(tokens, blockSize));
      var g := Grab(blocks[b := taken], Init(free), blockSize, Monus(tokens, blockSize), k - 1);
      g.(ids := [b] + g.ids)
  }

  datatype AllocResult = Allocated(cache: Cache, table: seq<nat>) | OutOfMemory

  function Allocate(c: Cache, id: Id, numTokens: nat): (r: AllocResult)
    requires Wf(c)
    ensures r.Allocated? ==> Wf(r.cache)
  {
    var needed := TokensToBlocks(numTokens, c.blockSize);
    if needed > |c.free| then OutOfMemory else
      var g := Grab(c.blocks, c.free, c.blockSize, numTokens, needed);
      Allocated(
        c.(blocks := g.blocks, free := g.free, tables := c.tables[id := g.ids],
           order := Touch(c.order, id), totalAllocated := c.totalAllocated + needed),
        g.ids)
  }

  datatype ExtendOutcome = Extended(newBlocks: nat) | UnknownSequence | ExtendOutOfMemory

  /** How many of m new tokens the last block of a table still takes. */
  function Fit(blocks: seq<Block>, blockSize: Pos, table: seq<nat>, m: nat): nat
    requires InPool(table, |blocks|)
  {
    if table == [] then 0 else Min(Monus(blockSize, blocks[Last(table)].filled), m)
  }

  function TopUp(blocks: seq<Block>, table: seq<nat>, fit: nat): (r: seq<Block>)
    requires InPool(table, |blocks|)
    ensures |r| == |blocks|
  {
    if table == [] then blocks else
      var b := Last(table);
      blocks[b := blocks[b].(filled := blocks[b].filled + fit)]
  }

  /** The touch and the top-up happen before the call can run out of memory, so a failed
      extension leaves them behind. */
  function Extend(c: Cache, id: Id, m: nat): (r: (Cache, ExtendOutcome))
    requires Wf(c)
    ensures Wf(r.0)
  {
    if id !in c.tables then (c, UnknownSequence) else
      var table := c.tables[id];
      var fit := Fit(c.blocks, c.blockSize, table, m);
      var topped := c.(blocks := TopUp(c.blocks, table, fit), order := Touch(c.order, id));
      var needed := TokensToBlocks(m - fit, c.blockSize);
      if needed > |c.free| then (topped, ExtendOutOfMemory) else
        var g := Grab(topped.blocks, c.free, c.blockSize, m - fit, needed);
        (topped.(blocks := g.blocks, free := g.free, tables := c.tables[id := table + g.ids],
                 totalAllocated := c.totalAllocated + needed),
         Extended(needed))
  }

  function ReleaseBlock(b: Block): Block {
    if b.refCount <= 1 then Block(FREE, 0, 0) else b.(refCount := b.refCount - 1)
  }

  /** Release the blocks of a table front to back, pushing each one that becomes free. */
  function ReleaseAll(blocks: seq<Block>, free: seq<nat>, ids: seq<nat>): (r: (seq<Block>, seq<nat>))
    requires InPool(free, |blocks|) && InPool(ids, |blocks|)
    ensures |r.0| == |blocks| && InPool(r.1, |r.0|)
    decreases |ids|
  {
    if ids == [] then (blocks, free) else
      var b := ids[0];
      var released := ReleaseBlock(blocks[b]);
      ReleaseAll(blocks[b := released], if released.status == FREE then free + [b] else free, ids[1..])
  }

  function Free(c: Cache, id: Id): (r: Cache)
    requires Wf(c)
    ensures Wf(r)
  {
    if id !in c.tables then c else
      var (blocks, free) := ReleaseAll(c.blocks, c.free, c.tables[id]);
      c.(blocks := blocks, free := free, tables := c.tables - {id}, order := Without(c.order, id))
  }

  datatype EvictOutcome = NothingToEvict | Evicted(victim: Id) | VictimUnknown(victim: Id)

  /** VictimUnknown is the KeyError of an `order` entry that has no table. */
  function EvictLru(c: Cache): (r: (Cache, EvictOutcome))
    requires Wf(c)
    ensures Wf(r.0)
  {
    if c.order == [] then (c, NothingToEvict) else
      var victim := c.order[0];
      var popped := c.(order := c.order[1..]);
      if victim !in c.tables then (popped, VictimUnknown(victim)) else
        var freed := Free(popped, victim);
        (freed.(totalEvicted := freed.totalEvicted + 1), Evicted(victim))
  }

  /** Looking a table up touches the id, known or not. */
  function Lookup(c: Cache, id: Id): (r: (Cache, Option<seq<nat>>))
    requires Wf(c)
    ensures Wf(r.0)
  {
    (c.(order := Touch(c.order, id)), if id in c.tables then Some(c.tables[id]) else None)
  }

  /** The physical block behind a logical index. */
  function GetPhysicalBlock(table: seq<nat>, logicalIndex: int): Option<nat> {
    if logicalIndex < 0 || logicalIndex >= |table| then None else Some(table[logicalIndex])
  }

  // ----- histories of operations -----

  datatype CacheOp =
    | AllocateOp(id: Id, numTokens: nat)
    | ExtendOp(id: Id, numTokens: nat)
    | FreeOp(id: Id)
    | EvictOp
    | LookupOp(id: Id)

  function Apply(c: Cache, op: CacheOp): (r: Cache)
    requires Wf(c)
    ensures Wf(r)
  {
    match op
    case AllocateOp(id, n) => var r := Allocate(c, id, n); if r.Allocated? then r.cache else c
    case ExtendOp(id, m) => Extend(c, id, m).0
    case FreeOp(id) => Free(c, id)
    case EvictOp => EvictLru(c).0
    case LookupOp(id) => Lookup(c, id).0
  }

  function Run(c: Cache, ops: seq<CacheOp>): (r: Cache)
    requires Wf(c)
    ensures Wf(r)
  {
    if ops == [] then c else Apply(Run(c, Init(ops)), Last(ops))
  }

  /** What callers owe: a new id for each allocation, a live one for each lookup. */
  ghost predicate Legal(c: Cache, op: CacheOp) {
    match op
    case AllocateOp(id, n) => id !in c.tables
    case LookupOp(id) => id in c.tables
    case _ => true
  }

  ghost predicate LegalRun(c: Cache, ops: seq<CacheOp>)
    requires Wf(c)
  {
    ops == [] || (LegalRun(c, Init(ops)) && Legal(Run(c, Init(ops)), Last(ops)))
  }
}
