/** The pool partition: what every legal history of the cache manager keeps. */
module CacheInvariant {
  import opened Prelude
  import opened CacheModel

  /** The blocks 0, 1, ..., n-1, each once. */
  ghost function Universe(n: nat): multiset<nat> {
    if n == 0 then multiset{} else Universe(n - 1) + multiset{n - 1}
  }

  ghost function TableOf(tables: map<Id, seq<nat>>, id: Id): multiset<nat> {
    if id in tables then multiset(tables[id]) else multiset{}
  }

  /** All blocks held by the listed sequences, with multiplicity. */
  ghost function Held(tables: map<Id, seq<nat>>, order: seq<Id>): multiset<nat> {
    if order == [] then multiset{} else Held(tables, Init(order)) + TableOf(tables, Last(order))
  }

  /** A block owned by exactly one table; only the last of a table may have room left. */
  ghost predicate TableOk(blocks: seq<Block>, blockSize: Pos, table: seq<nat>)
    requires InPool(table, |blocks|)
  {
    forall i | 0 <= i < |table| ::
      var b := blocks[table[i]];
      b.status == ALLOCATED && b.refCount == 1 && 1 <= b.filled <= blockSize &&
      (i < |table| - 1 ==> b.filled == blockSize)
  }

  ghost predicate Inv(c: Cache) {
    && Wf(c)
    && NoDup(c.order) && (forall id :: id in c.order <==> id in c.tables)
    && multiset(c.free) + Held(c.tables, c.order) == Universe(|c.blocks|)
    && (forall b | b in c.free :: c.blocks[b] == Block(FREE, 0, 0))
    && (forall id | id in c.tables :: TableOk(c.blocks, c.blockSize, c.tables[id]))
  }

  // ----- multisets of blocks -----

  lemma {:induction false} UniverseCount(n: nat)
    ensures forall b: nat :: Universe(n)[b] == if b < n then 1 else 0
    ensures |Universe(n)| == n
  {
    if n > 0 {
      UniverseCount(n - 1);
    }
  }

  lemma {:induction false} SeqNoDup(s: seq<nat>)
    requires forall x | x in s :: multiset(s)[x] <= 1
    ensures NoDup(s)
  {
    forall i, j | 0 <= i < j < |s| ensures s[i] != s[j] {
      assert s == s[..i] + [s[i]] + s[i + 1..j] + [s[j]] + s[j + 1..];
      assert s[i] == s[j] ==> multiset(s)[s[i]] >= 2;
    }
  }

  lemma {:induction false} HeldConcat(tables: map<Id, seq<nat>>, a: seq<Id>, b: seq<Id>)
    ensures Held(tables, a + b) == Held(tables, a) + Held(tables, b)
  {
    if b == [] {
      assert a + b == a;
    } else {
      assert Init(a + b) == a + Init(b);
      HeldConcat(tables, a, Init(b));
    }
  }

  lemma {:induction false} HeldFrame(tables: map<Id, seq<nat>>, tables': map<Id, seq<nat>>, order: seq<Id>)
    requires forall id | id in order :: TableOf(tables, id) == TableOf(tables', id)
    ensures Held(tables, order) == Held(tables', order)
  {
    if order != [] {
      assert forall id | id in Init(order) :: id in order;
      HeldFrame(tables, tables', Init(order));
    }
  }

  lemma {:induction false} HeldOne(tables: map<Id, seq<nat>>, id: Id)
    ensures Held(tables, [id]) == TableOf(tables, id)
  {
    assert Init([id]) == [];
  }

  lemma {:induction false} SumSwap(a: multiset<nat>, b: multiset<nat>, c: multiset<nat>)
    ensures a + b + c == a + c + b
  {
  }

  lemma {:induction false} HeldSplit(tables: map<Id, seq<nat>>, before: seq<Id>, id: Id, after: seq<Id>)
    ensures Held(tables, before + [id] + after) == Held(tables, before + after) + TableOf(tables, id)
  {
    HeldConcat(tables, before + [id], after);
    HeldConcat(tables, before, [id]);
    HeldConcat(tables, before, after);
    HeldOne(tables, id);
    SumSwap(Held(tables, before), TableOf(tables, id), Held(tables, after));
  }

  lemma {:induction false} HeldWithout(tables: map<Id, seq<nat>>, order: seq<Id>, id: Id)
    requires NoDup(order) && id in order
    ensures Held(tables, order) == Held(tables, Without(order, id)) + TableOf(tables, id)
    ensures Held(tables, Touch(order, id)) == Held(tables, order)
  {
    var k :| 0 <= k < |order| && order[k] == id;
    WithoutAt(order, k);
    HeldSplit(tables, order[..k], id, order[k + 1..]);
    assert order == order[..k] + [id] + order[k + 1..];
    HeldConcat(tables, Without(order, id), [id]);
    HeldOne(tables, id);
  }

  lemma {:induction false} TouchMembers(order: seq<Id>, id: Id)
    requires NoDup(order)
    ensures NoDup(Touch(order, id))
    ensures forall x :: x in Touch(order, id) <==> x in order || x == id
  {
    WithoutMembers(order, id);
    var s := Without(order, id);
    assert NoDup(s) && id !in s;
  }

  // ----- who holds a block -----

  lemma {:induction false} FreeIsSingle(c: Cache)
    requires Inv(c)
    ensures NoDup(c.free)
  {
    var u := Universe(|c.blocks|);
    UniverseCount(|c.blocks|);
    assert multiset(c.free) <= u;
    forall b | b in c.free ensures multiset(c.free)[b] <= 1 {
      assert u[b] <= 1;
    }
    SeqNoDup(c.free);
  }

  lemma {:induction false} TableIsSingle(c: Cache, id: Id)
    requires Inv(c) && id in c.tables
    ensures NoDup(c.tables[id])
    ensures forall b | b in c.tables[id] :: b !in c.free
  {
    var u, t := Universe(|c.blocks|), multiset(c.tables[id]);
    UniverseCount(|c.blocks|);
    HeldWithout(c.tables, c.order, id);
    assert t + multiset(c.free) <= u;
    forall b | b in c.tables[id] ensures t[b] <= 1 && b !in c.free {
      assert u[b] <= 1 && b in t;
      assert b in c.free ==> b in multiset(c.free);
    }
    SeqNoDup(c.tables[id]);
  }

  lemma {:induction false} TwoHeld(tables: map<Id, seq<nat>>, order: seq<Id>, id: Id, id': Id)
    requires NoDup(order) && id in order && id' in order && id != id'
    ensures TableOf(tables, id) + TableOf(tables, id') <= Held(tables, order)
  {
    HeldWithout(tables, order, id);
    WithoutMembers(order, id);
    var rest := Without(order, id);
    HeldWithout(tables, rest, id');
    assert TableOf(tables, id') <= Held(tables, rest);
  }

  lemma {:induction false} TablesApart(c: Cache, id: Id, id': Id)
    requires Inv(c) && id in c.tables && id' in c.tables && id != id'
    ensures forall b | b in c.tables[id] :: b !in c.tables[id']
  {
    var u, t, t' := Universe(|c.blocks|), multiset(c.tables[id]), multiset(c.tables[id']);
    UniverseCount(|c.blocks|);
    TwoHeld(c.tables, c.order, id, id');
    assert t + t' <= u;
    forall b | b in c.tables[id] ensures b !in c.tables[id'] {
      assert u[b] <= 1 && b in t;
      assert b in c.tables[id'] ==> b in t';
    }
  }

  /** No block is in two places at once: not twice in the free list, not free and held, not held twice. */
  lemma {:induction false} Disjoint(c: Cache)
    requires Inv(c)
    ensures NoDup(c.free)
    ensures forall id | id in c.tables :: NoDup(c.tables[id])
    ensures forall id, b | id in c.tables && b in c.tables[id] :: b !in c.free
    ensures forall id, id', b | id in c.tables && id' in c.tables && b in c.tables[id] && b in c.tables[id'] ::
      id == id'
  {
    FreeIsSingle(c);
    forall id | id in c.tables ensures NoDup(c.tables[id]) && forall b | b in c.tables[id] :: b !in c.free {
      TableIsSingle(c, id);
    }
    forall id, id' | id in c.tables && id' in c.tables && id != id'
      ensures forall b | b in c.tables[id] :: b !in c.tables[id']
    {
      TablesApart(c, id, id');
    }
  }

  lemma {:induction false} HeldMember(tables: map<Id, seq<nat>>, order: seq<Id>, b: nat)
    ensures b in Held(tables, order) <==> exists id :: id in order && id in tables && b in tables[id]
  {
    if order != [] {
      HeldMember(tables, Init(order), b);
      assert order == Init(order) + [Last(order)];
    }
  }

  ghost function Holders(c: Cache, b: nat): set<Id> {
    set id | id in c.tables && b in c.tables[id]
  }

  /** The partition as a reader would state it. Every block of the pool is either on the free list,
      with status FREE, no references and nothing filled, or in exactly one table; its reference
      count is the number of tables holding it; and nothing outside the pool is listed anywhere. */
  lemma {:induction false} PoolPartition(c: Cache)
    requires Inv(c)
    ensures NoDup(c.free) && forall id | id in c.tables :: NoDup(c.tables[id])
    ensures forall b: nat | b < |c.blocks| ::
              && c.blocks[b].refCount == |Holders(c, b)| <= 1
              && (b in c.free <==> Holders(c, b) == {})
              && (b in c.free <==> c.blocks[b].status == FREE)
              && (b in c.free ==> c.blocks[b].filled == 0)
  {
    Disjoint(c);
    UniverseCount(|c.blocks|);
    forall b: nat | b < |c.blocks|
      ensures c.blocks[b].refCount == |Holders(c, b)| <= 1
      ensures b in c.free <==> Holders(c, b) == {}
      ensures b in c.free <==> c.blocks[b].status == FREE
    {
      HeldMember(c.tables, c.order, b);
      assert b in multiset(c.free) || b in Held(c.tables, c.order) by {
        assert Universe(|c.blocks|)[b] == 1;
      }
      if b in c.free {
        assert Holders(c, b) == {};
      } else {
        var id :| id in c.order && id in c.tables && b in c.tables[id];
        assert Holders(c, b) == {id};
      }
    }
  }

  /** Free blocks plus held blocks are the whole pool. */
  lemma {:induction false} BlockCount(c: Cache)
    requires Inv(c)
    ensures |c.free| + |Held(c.tables, c.order)| == |c.blocks|
    ensures c.order == [] ==> c.tables == map[] && |c.free| == |c.blocks|
  {
    UniverseCount(|c.blocks|);
    assert |multiset(c.free) + Held(c.tables, c.order)| == |c.blocks|;
    if c.order == [] {
      assert forall id :: id !in c.tables;
    }
  }

  // ----- arithmetic of blocks -----

  lemma {:induction false} QuotientIs(x: int, d: Pos, q: int)
    requires q * d <= x < q * d + d
    ensures x / d == q && x % d == x - q * d
  {
    var q', r' := x / d, x % d;
    assert x == q' * d + r';
    assert q' < q ==> (q' + 1) * d <= q * d;
    assert q' > q ==> (q + 1) * d <= q' * d;
  }

  /** The ceiling division of the code. */
  lemma {:induction false} TokensToBlocksFormula(n: nat, d: Pos)
    ensures TokensToBlocks(n, d) == (n + d - 1) / d
  {
    if n == 0 {
      QuotientIs(d - 1, d, 0);
    } else if n <= d {
      QuotientIs(n + d - 1, d, 1);
    } else {
      TokensToBlocksFormula(n - d, d);
      var q := (n - 1) / d;
      assert (q + 1) * d == q * d + d;
      QuotientIs(n + d - 1, d, q + 1);
    }
  }

  // ----- filled counts -----

  /** Tokens stored in a table: the filled counts of its blocks added up. */
  ghost function FilledSum(blocks: seq<Block>, table: seq<nat>): nat
    requires InPool(table, |blocks|)
  {
    if table == [] then 0 else blocks[table[0]].filled + FilledSum(blocks, table[1..])
  }

  lemma {:induction false} FilledFrame(blocks: seq<Block>, blocks': seq<Block>, blockSize: Pos, table: seq<nat>)
    requires InPool(table, |blocks|) && |blocks'| == |blocks|
    requires forall b | b in table :: blocks'[b] == blocks[b]
    ensures FilledSum(blocks', table) == FilledSum(blocks, table)
    ensures TableOk(blocks, blockSize, table) ==> TableOk(blocks', blockSize, table)
  {
    if table != [] {
      assert forall b | b in table[1..] :: b in table;
      FilledFrame(blocks, blocks', blockSize, table[1..]);
    }
    assert forall i | 0 <= i < |table| :: table[i] in table;
  }

  lemma {:induction false} FilledConcat(blocks: seq<Block>, s: seq<nat>, t: seq<nat>)
    requires InPool(s, |blocks|) && InPool(t, |blocks|)
    ensures FilledSum(blocks, s + t) == FilledSum(blocks, s) + FilledSum(blocks, t)
  {
    if s == [] {
      assert s + t == t;
    } else {
      assert (s + t)[1..] == s[1..] + t;
      FilledConcat(blocks, s[1..], t);
    }
  }
}
