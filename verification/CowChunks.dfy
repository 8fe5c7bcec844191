/** Chunk tables: a long sequence kept in fixed-size pieces behind references.
    `Cells` relates a table to the flat sequence it stands for.
 */
module CowChunks {
  import opened Arith

  /** A piece of the pool or the ladder, stamped with the generation it was made in. */
  class Chunk<T> {
    const born: nat
    var items: seq<T>

    constructor (born: nat, items: seq<T>)
      ensures this.born == born && this.items == items
    {
      this.born := born;
      this.items := items;
    }
  }

  ghost predicate CellIs<T>(table: seq<Chunk<T>>, size: nat, i: nat, x: T)
    requires size > 0
    reads table
  {
    i / size < |table| && i % size < |table[i / size].items| && table[i / size].items[i % size] == x
  }

  /** `table` holds exactly the sequence `flat`, `size` items to a chunk. */
  ghost predicate Cells<T>(table: seq<Chunk<T>>, size: nat, flat: seq<T>)
    requires size > 0
    reads table
  {
    forall i :: 0 <= i < |flat| ==> CellIs(table, size, i, flat[i])
  }

  predicate Differ<T>(t1: seq<Chunk<T>>, i: nat, t2: seq<Chunk<T>>, j: nat)
    requires i < |t1| && j < |t2|
  {
    t1[i] != t2[j]
  }

  /** No chunk object appears in two cells. */
  ghost predicate Distinct<T>(table: seq<Chunk<T>>) {
    forall a, b :: 0 <= a < |table| && 0 <= b < |table| && a != b ==> Differ(table, a, table, b)
  }

  /** The two tables share no chunk. */
  ghost predicate Disjoint<T>(t1: seq<Chunk<T>>, t2: seq<Chunk<T>>) {
    forall i, j :: 0 <= i < |t1| && 0 <= j < |t2| ==> Differ(t1, i, t2, j)
  }

  ghost predicate Stamped<T>(table: seq<Chunk<T>>, ci: nat, gen: nat, own: set<object>)
    requires ci < |table|
  {
    table[ci].born <= gen && (table[ci].born == gen ==> table[ci] as object in own)
  }

  /** No chunk is younger than `gen`, and those of generation `gen` are the writer's own. */
  ghost predicate BornBy<T>(table: seq<Chunk<T>>, gen: nat, own: set<object>) {
    forall ci :: 0 <= ci < |table| ==> Stamped(table, ci, gen, own)
  }

  /** Every chunk of the table was made before generation `gen`. */
  ghost predicate BornBefore<T>(table: seq<Chunk<T>>, gen: nat) {
    forall ci :: 0 <= ci < |table| ==> table[ci].born < gen
  }

  lemma BornByMore<T>(table: seq<Chunk<T>>, gen: nat, own: set<object>, own': set<object>)
    requires BornBy(table, gen, own) && own <= own'
    ensures BornBy(table, gen, own')
  {
    forall ci | 0 <= ci < |table| ensures Stamped(table, ci, gen, own') {
      assert Stamped(table, ci, gen, own);
    }
  }

  /** After the generation moves on, every chunk of the table is frozen and none is the writer's. */
  lemma Freeze<T>(table: seq<Chunk<T>>, gen: nat, own: set<object>)
    requires BornBy(table, gen, own)
    ensures BornBy(table, gen + 1, {}) && BornBefore(table, gen + 1)
  {
    forall ci | 0 <= ci < |table| ensures Stamped(table, ci, gen + 1, {}) && table[ci].born < gen + 1 {
      assert Stamped(table, ci, gen, own);
    }
  }

  /** Position and offset determine the index. */
  lemma SameCell(size: nat, i: nat, j: nat)
    requires size > 0 && i / size == j / size && i % size == j % size
    ensures i == j
  {
    assert i == size * (i / size) + i % size;
  }

  /** A chunk copied into its cell shows the same items. */
  lemma ReplaceCell<T>(table: seq<Chunk<T>>, size: nat, flat: seq<T>, ci: nat, c: Chunk<T>)
    requires size > 0 && ci < |table| && c.items == table[ci].items && Cells(table, size, flat)
    ensures Cells(table[ci := c], size, flat)
  {
    forall i | 0 <= i < |flat| ensures CellIs(table[ci := c], size, i, flat[i]) {
      assert CellIs(table, size, i, flat[i]);
    }
  }

  /** Chunks needed for `cap` items. */
  function CellsFor(cap: nat, size: nat): nat
    requires size > 0
  {
    (cap + size - 1) / size
  }

  lemma Locate(cap: nat, size: nat, i: nat)
    requires size > 0 && i < cap
    ensures i / size < CellsFor(cap, size)
    ensures i % size < cap - (i / size) * size
  {
    assert i == size * (i / size) + i % size;
    var n := CellsFor(cap, size);
    assert cap + size - 1 == size * n + (cap + size - 1) % size;
    if n <= i / size { MulMono(size, n, i / size); }
  }

  ghost predicate Filled<T>(c: Chunk<T>, len: nat, x: T)
    reads c
  {
    |c.items| == len && forall j :: 0 <= j < len ==> c.items[j] == x
  }

  lemma InChunk(cap: nat, size: nat, i: nat)
    requires size > 0 && i < cap
    ensures i / size < CellsFor(cap, size) && i % size < ChunkLen(cap, size, i / size)
  {
    Locate(cap, size, i);
  }

  lemma FilledAt<T>(table: seq<Chunk<T>>, size: nat, i: nat, len: nat, x: T)
    requires size > 0 && i / size < |table| && i % size < len && Filled(table[i / size], len, x)
    ensures CellIs(table, size, i, x)
  {
  }

  lemma FilledCell<T>(table: seq<Chunk<T>>, cap: nat, size: nat, x: T, i: nat)
    requires size > 0 && |table| == CellsFor(cap, size) && i < cap
    requires forall k :: 0 <= k < |table| ==> Filled(table[k], ChunkLen(cap, size, k), x)
    ensures CellIs(table, size, i, x)
  {
    InChunk(cap, size, i);
    FilledAt(table, size, i, ChunkLen(cap, size, i / size), x);
  }

  lemma FilledCells<T>(table: seq<Chunk<T>>, cap: nat, size: nat, x: T)
    requires size > 0 && |table| == CellsFor(cap, size)
    requires forall k :: 0 <= k < |table| ==> Filled(table[k], ChunkLen(cap, size, k), x)
    ensures Cells(table, size, seq(cap, _ => x))
  {
    forall i | 0 <= i < cap ensures CellIs(table, size, i, x) { FilledCell(table, cap, size, x, i); }
  }

  /** The chunk objects of a table. */
  ghost function Objects<T>(table: seq<Chunk<T>>): set<object> {
    set ci | 0 <= ci < |table| :: table[ci] as object
  }

  /** A table of `cap` copies of `x`, the last chunk possibly shorter. */
  method NewTable<T>(cap: nat, size: nat, born: nat, x: T) returns (table: seq<Chunk<T>>)
    requires size > 0
    ensures Cells(table, size, seq(cap, _ => x)) && Distinct(table)
    ensures fresh(Objects(table)) && forall ci :: 0 <= ci < |table| ==> fresh(table[ci]) && table[ci].born == born
    ensures forall own :: Objects(table) <= own ==> BornBy(table, born, own)
  {
    table := [];
    var n := CellsFor(cap, size);
    while |table| < n
      invariant |table| <= n && Distinct(table)
      invariant forall k :: 0 <= k < |table| ==> fresh(table[k]) && table[k].born == born
      invariant forall k :: 0 <= k < |table| ==> Filled(table[k], ChunkLen(cap, size, k), x)
    {
      var len := ChunkLen(cap, size, |table|);
      var c := new Chunk(born, seq(len, _ => x));
      forall a, b | 0 <= a < |table| + 1 && 0 <= b < |table| + 1 && a != b
        ensures Differ(table + [c], a, table + [c], b)
      {
        if a < |table| && b < |table| { assert Differ(table, a, table, b); }
      }
      table := table + [c];
    }
    FilledCells(table, cap, size, x);
    forall own, ci | Objects(table) <= own && 0 <= ci < |table| ensures Stamped(table, ci, born, own) {
      assert table[ci] as object in Objects(table);
    }
  }

  function ChunkLen(cap: nat, size: nat, ci: nat): nat {
    if cap - ci * size < 0 then 0 else if size < cap - ci * size then size else cap - ci * size
  }

  /** From `t` to `t'` cell `ci` got another chunk if its own was older than `gen`, and nothing else changed. */
  ghost predicate CopiedAt<T>(t: seq<Chunk<T>>, t': seq<Chunk<T>>, ci: nat, gen: nat) {
    && ci < |t| == |t'|
    && (t[ci].born == gen ==> t' == t)
    && (t[ci].born < gen ==> t'[ci] != t[ci] && t' == t[ci := t'[ci]])
  }

  /** Make cell `ci` writable in generation `gen`: copy the chunk if it is older, and only then. */
  method Own<T>(table: seq<Chunk<T>>, size: nat, ghost flat: seq<T>, ci: nat, gen: nat, ghost own: set<object>)
    returns (table': seq<Chunk<T>>, ghost own': set<object>)
    requires size > 0 && ci < |table| && Cells(table, size, flat) && Distinct(table) && BornBy(table, gen, own)
    ensures Cells(table', size, flat) && Distinct(table') && BornBy(table', gen, own')
    ensures |table'| == |table| && table'[ci].born == gen && table'[ci] as object in own'
    ensures own <= own' && fresh(own' - own) && own' == own + {table'[ci]}
    ensures forall j :: 0 <= j < |table| ==> table'[j] == table[j] || fresh(table'[j])
    ensures CopiedAt(table, table', ci, gen)
  {
    table', own' := table, own;
    assert Stamped(table, ci, gen, own);
    if table[ci].born < gen {
      var c := new Chunk(gen, table[ci].items);
      ReplaceCell(table, size, flat, ci, c);
      table' := table[ci := c];
      own' := own + {c};
      forall a, b | 0 <= a < |table'| && 0 <= b < |table'| && a != b ensures Differ(table', a, table', b) {
        assert Differ(table, a, table, b);
      }
      forall j | 0 <= j < |table'| ensures Stamped(table', j, gen, own') {
        assert Stamped(table, j, gen, own);
      }
    }
  }

  /** Write one item through a cell the writer owns. */
  method Write<T>(table: seq<Chunk<T>>, size: nat, ghost flat: seq<T>, i: nat, x: T, gen: nat)
    requires size > 0 && i < |flat| && Cells(table, size, flat) && Distinct(table)
    requires i / size < |table| && table[i / size].born == gen
    modifies table[i / size]
    ensures Cells(table, size, flat[i := x])
  {
    assert CellIs(table, size, i, flat[i]);
    var c := table[i / size];
    c.items := c.items[i % size := x];
    ghost var flat' := flat[i := x];
    forall j | 0 <= j < |flat'| ensures CellIs(table, size, j, flat'[j]) {
      assert old(CellIs(table, size, j, flat[j]));
      if j / size != i / size {
        assert Differ(table, j / size, table, i / size);
      } else if j % size == i % size {
        SameCell(size, i, j);
      }
    }
  }
}
