/** Theorems about the cache over whole histories: the partition, paged addresses, and the LRU order. */
module CacheHistory {
  import opened Prelude
  import opened CacheModel
  import opened CacheInvariant
  import opened CacheSafety
  import opened CacheGrowth

  // ----- the partition in every reachable state -----

  lemma {:induction false} AllBlocks(n: nat)
    ensures multiset(seq(n, i => i)) == Universe(n)
  {
    if n > 0 {
      AllBlocks(n - 1);
      assert seq(n, i => i) == seq(n - 1, i => i) + [n - 1];
    }
  }

  /** A new pool is all free, and its blocks will be taken from the highest id down. */
  lemma {:induction false} NewPool(numBlocks: nat, blockSize: Pos)
    ensures var c := NewCache(numBlocks, blockSize);
      && |c.blocks| == |c.free| == numBlocks && c.blockSize == blockSize
      && (forall i | 0 <= i < numBlocks :: c.free[i] == i && c.blocks[i] == Block(FREE, 0, 0))
      && c.tables == map[] && c.order == [] && c.totalAllocated == c.totalEvicted == 0
  {
  }

  lemma {:induction false} NewCacheInv(numBlocks: nat, blockSize: Pos)
    ensures Inv(NewCache(numBlocks, blockSize))
  {
    AllBlocks(numBlocks);
  }

  lemma {:induction false} ApplySafe(c: Cache, op: CacheOp)
    requires Inv(c) && Legal(c, op)
    ensures Inv(Apply(c, op))
  {
    hide Inv;
    match op
    case AllocateOp(id, n) => AllocateSafe(c, id, n);
    case ExtendOp(id, m) => if id in c.tables { ExtendSafe(c, id, m); }
    case FreeOp(id) => FreeSafe(c, id);
    case EvictOp => EvictSafe(c);
    case LookupOp(id) => LookupSafe(c, id);
  }

  /** Every legal history, with failing and succeeding operations in any order, keeps the partition. */
  lemma {:induction false} RunKeepsPartition(c: Cache, ops: seq<CacheOp>)
    requires Inv(c) && LegalRun(c, ops)
    ensures Inv(Run(c, ops))
  {
    if ops != [] {
      RunKeepsPartition(c, Init(ops));
      ApplySafe(Run(c, Init(ops)), Last(ops));
    }
  }

  lemma {:induction false} LiveBlocksLost(c: Cache, c': Cache, id: Id, n: nat)
    requires Inv(c) && id in c.tables && CanAllocate(c, n) && c' == Allocate(c, id, n).cache
    requires c.tables[id] != []
    ensures !Inv(c')
  {
    hide TokensToBlocks, Grab, TableOk, FilledSum, NoDup, Without, Held, Universe;
    var k := TokensToBlocks(n, c.blockSize);
    var g := Grab(c.blocks, c.free, c.blockSize, n, k);
    var rest := Without(c.order, id);
    WithoutMembers(c.order, id);
    HeldWithout(c.tables, c.order, id);
    HeldFrame(c.tables, c'.tables, rest);
    HeldConcat(c'.tables, rest, [id]);
    HeldOne(c'.tables, id);
    BlockCount(c);
    if Inv(c') {
      BlockCount(c');
      assert false;
    }
  }

  /** What an allocation for an id that is already live does to the partition: it survives exactly
      when the overwritten table was empty, and otherwise the old blocks are lost. */
  lemma {:induction false} AllocateLiveId(c: Cache, id: Id, n: nat)
    requires Inv(c) && id in c.tables && CanAllocate(c, n)
    ensures Inv(Allocate(c, id, n).cache) <==> c.tables[id] == []
  {
    hide TokensToBlocks, Grab, TableOk, FilledSum, NoDup, Universe, Held, Without;
    var c' := Allocate(c, id, n).cache;
    if c.tables[id] == [] {
      var c2 := Free(c, id);
      FreeSafe(c, id);
      AllocateSafe(c2, id, n);
      WithoutMembers(Without(c.order, id), id);
      WithoutMembers(c.order, id);
      assert Allocate(c2, id, n).cache == c';
    } else {
      LiveBlocksLost(c, c', id, n);
    }
  }

  /** The cache after n evictions. */
  function EvictTimes(c: Cache, n: nat): (r: Cache)
    requires Wf(c)
    ensures Wf(r)
    decreases n
  {
    if n == 0 then c else EvictTimes(EvictLru(c).0, n - 1)
  }

  function WithStale(c: Cache, id: Id): (r: Cache)
    requires Wf(c)
    ensures Wf(r)
  {
    c.(order := c.order + [id])
  }

  /** While a live sequence is in front, an eviction does not see the stale entry at the end. */
  lemma {:induction false} EvictBeforeStale(c: Cache, id: Id)
    requires Inv(c) && id !in c.tables && c.order != []
    ensures var (c', r) := EvictLru(c);
      && EvictLru(WithStale(c, id)) == (WithStale(c', id), Evicted(c.order[0]))
      && Inv(c') && id !in c'.tables && c'.order == c.order[1..]
  {
    hide Inv, Held, Universe, ReleaseAll, Without;
    EvictSafe(c);
    var victim := c.order[0];
    WithoutConcat(c.order[1..], [id], victim);
    WithoutMembers([id], victim);
    assert (c.order + [id])[1..] == c.order[1..] + [id];
  }

  lemma {:induction false} EvictOnlyStale(c: Cache, id: Id)
    requires Wf(c) && c.order == [id] && id !in c.tables
    ensures EvictLru(c).1 == VictimUnknown(id)
  {
  }

  /** The eviction that raises has already taken the entry out of the order, and has done nothing else. */
  lemma {:induction false} EvictUnknown(c: Cache)
    requires Wf(c) && c.order != [] && c.order[0] !in c.tables
    ensures EvictLru(c) == (c.(order := c.order[1..]), VictimUnknown(c.order[0]))
  {
  }

  /** The stale entry waits until every live sequence has been evicted, and then the eviction raises. */
  lemma {:induction false} StaleEntryRaises(c: Cache, id: Id)
    requires Inv(c) && id !in c.tables
    ensures forall n | 0 <= n < |c.order| :: EvictLru(EvictTimes(WithStale(c, id), n)).1 == Evicted(c.order[n])
    ensures EvictLru(EvictTimes(WithStale(c, id), |c.order|)).1 == VictimUnknown(id)
    decreases |c.order|
  {
    hide Held, Universe, TableOk, EvictLru;
    if c.order == [] {
      EvictOnlyStale(WithStale(c, id), id);
    } else {
      EvictBeforeStale(c, id);
      var c' := EvictLru(c).0;
      StaleEntryRaises(c', id);
      forall n | 0 <= n < |c.order| ensures EvictLru(EvictTimes(WithStale(c, id), n)).1 == Evicted(c.order[n]) {
        if n > 0 {
          assert EvictTimes(WithStale(c, id), n) == EvictTimes(WithStale(c', id), n - 1);
          assert c'.order[n - 1] == c.order[n];
        }
      }
    }
  }

  /** Looking up an id keeps the invariant exactly when the id is live. Otherwise it leaves an entry without
      a table behind: the live sequences can still be evicted, one by one, and the next eviction raises. */
  lemma {:induction false} LookupUnknownId(c: Cache, id: Id)
    requires Inv(c)
    ensures Inv(Lookup(c, id).0) <==> id in c.tables
    ensures id !in c.tables ==>
      var c' := Lookup(c, id).0;
      && (forall n | 0 <= n < |c.order| :: EvictLru(EvictTimes(c', n)).1 == Evicted(c.order[n]))
      && EvictLru(EvictTimes(c', |c.order|)).1 == VictimUnknown(id)
  {
    hide EvictTimes, EvictLru, Held, Universe, Without;
    if id in c.tables {
      LookupSafe(c, id);
    } else {
      assert (c.order + [id])[|c.order|] == id;
      WithoutMembers(c.order, id);
      assert Lookup(c, id).0 == WithStale(c, id);
      StaleEntryRaises(c, id);
    }
  }

  // ----- how many tokens each sequence stores, told by the history alone -----

  /** Tokens per live sequence after one more operation with the outcome it had in state c. */
  ghost function Account(tokens: map<Id, nat>, c: Cache, op: CacheOp): map<Id, nat>
    requires Wf(c)
  {
    match op
    case AllocateOp(id, n) => if Allocate(c, id, n).Allocated? then tokens[id := n] else tokens
    case ExtendOp(id, m) =>
      if id !in c.tables || id !in tokens then tokens
      else if Extend(c, id, m).1.Extended? then tokens[id := tokens[id] + m]
      else tokens[id := tokens[id] + Fit(c.blocks, c.blockSize, c.tables[id], m)]
    case FreeOp(id) => tokens - {id}
    case EvictOp => var r := EvictLru(c).1; if r.Evicted? then tokens - {r.victim} else tokens
    case LookupOp(id) => tokens
  }

  ghost function Ledger(c: Cache, ops: seq<CacheOp>): map<Id, nat>
    requires Wf(c)
  {
    if ops == [] then map[] else Account(Ledger(c, Init(ops)), Run(c, Init(ops)), Last(ops))
  }

  ghost predicate Agrees(c: Cache, tokens: map<Id, nat>)
    requires Wf(c)
  {
    (forall id :: id in c.tables <==> id in tokens) && forall id | id in c.tables :: Tokens(c, id) == tokens[id]
  }

  lemma {:induction false} AccountAllocate(c: Cache, tokens: map<Id, nat>, id: Id, n: nat)
    requires Inv(c) && id !in c.tables && Agrees(c, tokens)
    ensures Agrees(Apply(c, AllocateOp(id, n)), Account(tokens, c, AllocateOp(id, n)))
  {
    hide Inv, FilledSum, TokensToBlocks, PopsFor, Allocate;
    AllocateSafe(c, id, n);
  }

  lemma {:induction false} AccountExtend(c: Cache, tokens: map<Id, nat>, id: Id, m: nat)
    requires Inv(c) && Agrees(c, tokens)
    ensures Agrees(Apply(c, ExtendOp(id, m)), Account(tokens, c, ExtendOp(id, m)))
  {
    hide Inv, FilledSum, TokensToBlocks, Fit;
    if id in c.tables {
      hide Extend;
      ExtendSafe(c, id, m);
    }
  }

  lemma {:induction false} AccountAgrees(c: Cache, tokens: map<Id, nat>, op: CacheOp)
    requires Inv(c) && Legal(c, op) && Agrees(c, tokens)
    ensures Agrees(Apply(c, op), Account(tokens, c, op))
  {
    hide Inv, FilledSum, TokensToBlocks, Fit, PopsFor, Allocate, Extend, Free, CacheModel.EvictLru;
    match op
    case AllocateOp(id, n) => AccountAllocate(c, tokens, id, n);
    case ExtendOp(id, m) => AccountExtend(c, tokens, id, m);
    case FreeOp(id) => FreeSafe(c, id);
    case EvictOp => EvictSafe(c);
    case LookupOp(id) => LookupSafe(c, id);
  }

  // ----- paged addresses -----

  /** Logical block of a token position, and the slot inside the block. */
  function Page(t: nat, blockSize: Pos): nat { t / blockSize }

  function Offset(t: nat, blockSize: Pos): nat { t % blockSize }

  /** Where token position t of a sequence is stored: a physical block and a slot below its filled count. */
  function Translate(blocks: seq<Block>, blockSize: Pos, table: seq<nat>, t: nat): Option<(nat, nat)>
    requires InPool(table, |blocks|)
  {
    var b := GetPhysicalBlock(table, Page(t, blockSize));
    if b.Some? && Offset(t, blockSize) < blocks[b.value].filled then Some((b.value, Offset(t, blockSize))) else None
  }

  lemma {:induction false} PageStep(t: nat, blockSize: Pos)
    ensures t < blockSize ==> Page(t, blockSize) == 0 && Offset(t, blockSize) == t
    ensures t >= blockSize ==>
      Page(t, blockSize) == Page(t - blockSize, blockSize) + 1
        && Offset(t, blockSize) == Offset(t - blockSize, blockSize)
    ensures Offset(t, blockSize) < blockSize
    ensures t == Page(t, blockSize) * blockSize + Offset(t, blockSize)
  {
    if t < blockSize {
      QuotientIs(t, blockSize, 0);
    } else {
      var q := (t - blockSize) / blockSize;
      assert (q + 1) * blockSize == q * blockSize + blockSize;
      QuotientIs(t, blockSize, q + 1);
    }
  }

  lemma {:induction false} PositionStored(blocks: seq<Block>, blockSize: Pos, table: seq<nat>, t: nat)
    requires InPool(table, |blocks|) && TableOk(blocks, blockSize, table)
    ensures t < FilledSum(blocks, table) <==> Translate(blocks, blockSize, table, t).Some?
  {
    hide Page, Offset;
    PageStep(t, blockSize);
    if table != [] {
      var rest := table[1..];
      assert forall i | 0 <= i < |rest| :: rest[i] == table[i + 1];
      if t < blockSize {
        assert rest != [] ==> blocks[rest[0]].filled >= 1;
      } else {
        PositionStored(blocks, blockSize, rest, t - blockSize);
      }
    }
  }

  /** Paged addressing: the quotient selects the block and the remainder the slot in it. */
  function SlotOf(table: seq<nat>, blockSize: Pos, t: nat): Option<(nat, nat)> {
    if t / blockSize < |table| then Some((table[t / blockSize], t % blockSize)) else None
  }

  /** The block is the one its page maps to, and the slot the rest of the position. */
  lemma {:induction false} TranslatedTo(blocks: seq<Block>, blockSize: Pos, table: seq<nat>, t: nat)
    requires InPool(table, |blocks|) && Translate(blocks, blockSize, table, t).Some?
    ensures Translate(blocks, blockSize, table, t) == SlotOf(table, blockSize, t)
  {
  }

  lemma {:induction false} SlotsApart(c: Cache, id: Id, t: nat, id': Id, t': nat)
    requires Inv(c) && id in c.tables && id' in c.tables
    requires var p := Translate(c.blocks, c.blockSize, c.tables[id], t);
      p.Some? && p == Translate(c.blocks, c.blockSize, c.tables[id'], t')
    ensures id == id' && t == t'
  {
    hide Held, Universe, TableOk, Page, Offset;
    Disjoint(c);
    PageStep(t, c.blockSize);
    PageStep(t', c.blockSize);
    var q, q' := Page(t, c.blockSize), Page(t', c.blockSize);
    assert c.tables[id][q] in c.tables[id] && c.tables[id'][q'] in c.tables[id'];
    assert q == q';
  }

  lemma {:induction false} SizeKept(c: Cache, op: CacheOp)
    requires Wf(c)
    ensures Apply(c, op).blockSize == c.blockSize && |Apply(c, op).blocks| == |c.blocks|
  {
  }

  lemma {:induction false} LedgerAgrees(numBlocks: nat, blockSize: Pos, ops: seq<CacheOp>)
    requires LegalRun(NewCache(numBlocks, blockSize), ops)
    ensures var c := Run(NewCache(numBlocks, blockSize), ops);
      Inv(c) && c.blockSize == blockSize && |c.blocks| == numBlocks
        && Agrees(c, Ledger(NewCache(numBlocks, blockSize), ops))
  {
    hide Inv, Account, Apply, Legal, Tokens;
    var start := NewCache(numBlocks, blockSize);
    NewCacheInv(numBlocks, blockSize);
    RunKeepsPartition(start, ops);
    if ops != [] {
      LedgerAgrees(numBlocks, blockSize, Init(ops));
      AccountAgrees(Run(start, Init(ops)), Ledger(start, Init(ops)), Last(ops));
      SizeKept(Run(start, Init(ops)), Last(ops));
    }
  }

  /** In every reachable state the positions that translate are exactly 0, ..., n-1 for the n tokens the
      history stored for the sequence, in a table of ceil(n / blockSize) blocks; and no two positions of
      any sequences translate to the same block and slot. */
  lemma {:induction false} AddressTranslation(numBlocks: nat, blockSize: Pos, ops: seq<CacheOp>)
    requires LegalRun(NewCache(numBlocks, blockSize), ops)
    ensures var c := Run(NewCache(numBlocks, blockSize), ops);
      var tokens := Ledger(NewCache(numBlocks, blockSize), ops);
      && c.tables.Keys == tokens.Keys
      && (forall id | id in tokens :: |c.tables[id]| == TokensToBlocks(tokens[id], blockSize))
      && (forall id, t: nat | id in tokens :: t < tokens[id] <==> Translate(c.blocks, blockSize, c.tables[id], t).Some?)
      && (forall id, t: nat | id in tokens && t < tokens[id] ::
            Translate(c.blocks, blockSize, c.tables[id], t) == SlotOf(c.tables[id], blockSize, t))
      && (forall id, id', t: nat, t': nat | id in tokens && id' in tokens ::
            var p := Translate(c.blocks, blockSize, c.tables[id], t);
            p.Some? && p == Translate(c.blocks, blockSize, c.tables[id'], t') ==> id == id' && t == t')
  {
    hide FilledSum, TableOk, Universe, Held, TokensToBlocks, NoDup, LegalRun, Account, Apply, Translate, Page, Offset,
         SlotOf;
    var c := Run(NewCache(numBlocks, blockSize), ops);
    var tokens := Ledger(NewCache(numBlocks, blockSize), ops);
    LedgerAgrees(numBlocks, blockSize, ops);
    assert c.tables.Keys == tokens.Keys;
    forall id | id in tokens ensures |c.tables[id]| == TokensToBlocks(tokens[id], blockSize) {
      TableLength(c.blocks, blockSize, c.tables[id]);
    }
    forall id, t: nat | id in tokens
      ensures t < tokens[id] <==> Translate(c.blocks, blockSize, c.tables[id], t).Some?
    {
      PositionStored(c.blocks, blockSize, c.tables[id], t);
    }
    forall id, t: nat | id in tokens && t < tokens[id]
      ensures Translate(c.blocks, blockSize, c.tables[id], t) == SlotOf(c.tables[id], blockSize, t)
    {
      TranslatedTo(c.blocks, blockSize, c.tables[id], t);
    }
    forall id, id', t: nat, t': nat | id in tokens && id' in tokens
      ensures var p := Translate(c.blocks, blockSize, c.tables[id], t);
        p.Some? && p == Translate(c.blocks, blockSize, c.tables[id'], t') ==> id == id' && t == t'
    {
      var p := Translate(c.blocks, blockSize, c.tables[id], t);
      if p.Some? && p == Translate(c.blocks, blockSize, c.tables[id'], t') {
        SlotsApart(c, id, t, id', t');
      }
    }
  }

  // ----- the LRU order is the order of last touches -----

  /** The ids an operation touches in state c. */
  ghost function Touches(c: Cache, op: CacheOp): seq<Id>
    requires Wf(c)
  {
    match op
    case AllocateOp(id, n) => if CanAllocate(c, n) then [id] else []
    case ExtendOp(id, m) => if id in c.tables then [id] else []
    case LookupOp(id) => [id]
    case _ => []
  }

  ghost function TouchLog(c: Cache, ops: seq<CacheOp>): seq<Id>
    requires Wf(c)
  {
    if ops == [] then [] else TouchLog(c, Init(ops)) + Touches(Run(c, Init(ops)), Last(ops))
  }

  /** The latest position of id in the log; -1 when it was never touched. */
  ghost function LastTouch(log: seq<Id>, id: Id): int {
    if log == [] then -1 else if Last(log) == id then |log| - 1 else LastTouch(Init(log), id)
  }

  ghost predicate ByLastTouch(order: seq<Id>, log: seq<Id>) {
    forall i, j | 0 <= i < j < |order| :: LastTouch(log, order[i]) < LastTouch(log, order[j])
  }

  lemma {:induction false} LastTouchRange(log: seq<Id>, id: Id)
    ensures -1 <= LastTouch(log, id) < |log|
    ensures LastTouch(log, id) >= 0 ==> log[LastTouch(log, id)] == id
    ensures forall k | LastTouch(log, id) < k < |log| :: log[k] != id
  {
    if log != [] {
      LastTouchRange(Init(log), id);
    }
  }

  lemma {:induction false} WithoutByLastTouch(order: seq<Id>, log: seq<Id>, id: Id)
    requires ByLastTouch(order, log)
    ensures ByLastTouch(Without(order, id), log)
  {
    if order != [] {
      var init := Init(order);
      assert forall i | 0 <= i < |init| :: init[i] == order[i];
      WithoutByLastTouch(init, log, id);
      WithoutMembers(init, id);
      var w := Without(init, id);
      forall i | 0 <= i < |w| ensures LastTouch(log, w[i]) < LastTouch(log, Last(order)) {
        assert w[i] in w;
        assert w[i] in init;
      }
    }
  }

  lemma {:induction false} TouchByLastTouch(order: seq<Id>, log: seq<Id>, id: Id)
    requires ByLastTouch(order, log)
    ensures ByLastTouch(Touch(order, id), log + [id])
  {
    WithoutByLastTouch(order, log, id);
    WithoutMembers(order, id);
    assert Init(log + [id]) == log;
    var w := Without(order, id);
    forall i | 0 <= i < |w| ensures LastTouch(log + [id], w[i]) == LastTouch(log, w[i]) < |log| {
      assert w[i] in w;
      LastTouchRange(log, w[i]);
    }
  }

  lemma {:induction false} TailByLastTouch(order: seq<Id>, log: seq<Id>)
    requires ByLastTouch(order, log)
    ensures order != [] ==> ByLastTouch(order[1..], log)
  {
  }

  lemma {:induction false} ApplyByLastTouch(c: Cache, op: CacheOp, log: seq<Id>)
    requires Inv(c) && Legal(c, op) && ByLastTouch(c.order, log)
    ensures ByLastTouch(Apply(c, op).order, log + Touches(c, op))
  {
    hide Inv, ByLastTouch, Grab, TokensToBlocks, ReleaseAll, Without;
    assert log + [] == log;
    match op
    case AllocateOp(id, n) => TouchByLastTouch(c.order, log, id);
    case ExtendOp(id, m) => TouchByLastTouch(c.order, log, id);
    case FreeOp(id) => WithoutByLastTouch(c.order, log, id);
    case EvictOp =>
      EvictSafe(c);
      TailByLastTouch(c.order, log);
    case LookupOp(id) => TouchByLastTouch(c.order, log, id);
  }

  lemma {:induction false} OrderByLastTouch(c: Cache, ops: seq<CacheOp>)
    requires Wf(c) && Inv(c) && c.order == [] && LegalRun(c, ops)
    ensures ByLastTouch(Run(c, ops).order, TouchLog(c, ops))
  {
    hide Inv, Apply, Touches, Legal;
    if ops != [] {
      OrderByLastTouch(c, Init(ops));
      RunKeepsPartition(c, Init(ops));
      var before := Run(c, Init(ops));
      ApplyByLastTouch(before, Last(ops), TouchLog(c, Init(ops)));
    }
  }

  /** In every reachable state the order lists exactly the live sequences, sorted by when the history
      last touched them, so eviction removes the least recently touched one and no other. */
  lemma {:induction false} LruRefinesHistory(numBlocks: nat, blockSize: Pos, ops: seq<CacheOp>)
    requires LegalRun(NewCache(numBlocks, blockSize), ops)
    ensures var start := NewCache(numBlocks, blockSize);
      var c, log := Run(start, ops), TouchLog(start, ops);
      && NoDup(c.order) && (forall id :: id in c.order <==> id in c.tables)
      && ByLastTouch(c.order, log)
      && (c.tables != map[] ==>
            var (c', r) := EvictLru(c);
            && r.Evicted? && r.victim in c.tables && c'.tables.Keys == c.tables.Keys - {r.victim}
            && forall id | id in c.tables && id != r.victim :: LastTouch(log, r.victim) < LastTouch(log, id))
  {
    hide Held, Universe, TableOk, FilledSum, Run, TouchLog, LegalRun, LastTouch;
    var start := NewCache(numBlocks, blockSize);
    NewCacheInv(numBlocks, blockSize);
    RunKeepsPartition(start, ops);
    OrderByLastTouch(start, ops);
    var c, log := Run(start, ops), TouchLog(start, ops);
    if c.tables != map[] {
      var some :| some in c.tables;
      assert some in c.order;
      EvictSafe(c);
      assert forall id | id in c.tables && id != c.order[0] :: id in c.order[1..];
    }
  }
}
