/** The allocator's bookkeeping record together with the memory it manages. */
module State {
  import opened BinMaps
  import opened Rings
  import opened Trie

  /** How a chunk is used. */
  datatype Use = Live | Free | Top | Record | Fence | Trailer

  datatype Chunk = Chunk(size: int, use: Use)

  type Chunks = map<int, Chunk>

  /** A stretch of memory from the system: where its record is kept, where it begins and ends. */
  datatype Seg = Seg(rec: int, base: int, end: int)

  class Mstate {
    // malloc_state
    var smallmap: Binmap
    var treemap: Binmap
    var dvsize: int
    var topsize: int
    var leastAddr: int
    var dv: int
    var top: int
    var trimCheck: int
    var treebins: seq<int>
    var footprint: int
    var maxFootprint: int

    // memory, one map per chunk word
    var head: Heads
    var foot: Field
    var fd: Field
    var bk: Field
    var child0: Field
    var child1: Field
    var parent: Field
    var index: Field

    // memory of the segment records
    var segBase: Field
    var segSize: Field
    var segNext: Field

    // malloc_params
    const granularity: int
    const trimThreshold: int

    // the system's answers, in order: whether it unmaps a region, and whether check_segment_merge lets one extend a segment
    const system: nat -> bool
    var asked: nat

    // what the memory stands for
    ghost var heap: Chunks
    ghost var small: seq<seq<int>>
    ghost var nodes: Nodes
    ghost var segs: seq<Seg>

    /** The static bookkeeping structure before its first use: all zero. */
    constructor (granularity: int, trimThreshold: int, system: nat -> bool)
      ensures smallmap == 0 && treemap == 0 && dvsize == 0 && topsize == 0 && leastAddr == 0 && dv == 0 && top == 0
      ensures trimCheck == 0 && treebins == seq(32, i => 0) && footprint == 0 && maxFootprint == 0
      ensures head == map[] && foot == map[] && fd == map[] && bk == map[] && child0 == map[] && child1 == map[]
      ensures parent == map[] && index == map[] && segBase == map[] && segSize == map[] && segNext == map[]
      ensures this.granularity == granularity && this.trimThreshold == trimThreshold && this.system == system
      ensures heap == map[] && small == seq(32, i => []) && nodes == map[] && segs == []
    {
      this.granularity, this.trimThreshold, this.system, asked := granularity, trimThreshold, system, 0;
      smallmap, treemap, dvsize, topsize, leastAddr, dv, top, trimCheck, footprint, maxFootprint := 0, 0, 0, 0, 0, 0, 0, 0, 0, 0;
      treebins := seq(32, i => 0);
      head, foot, fd, bk, child0, child1, parent, index := map[], map[], map[], map[], map[], map[], map[], map[];
      segBase, segSize, segNext := map[], map[], map[];
      heap, small, nodes, segs := map[], seq(32, i => []), map[], [];
    }
  }

  /** ok_address. */
  predicate OkAddress(m: Mstate, a: int)
    reads m`leastAddr
  {
    a >= m.leastAddr
  }

  function TreeOf(m: Mstate): Tree
    reads m`head, m`child0, m`child1, m`parent, m`treebins, m`treemap
  {
    Tree(m.head, m.child0, m.child1, m.parent, m.treebins, m.treemap)
  }

  /** The six link words of the chunk at an address. */
  datatype Links = Links(fd: int, bk: int, child0: int, child1: int, parent: int, index: int)

  function LinksAt(m: Mstate, q: int): Links
    reads m`fd, m`bk, m`child0, m`child1, m`parent, m`index
  {
    Links(At(m.fd, q), At(m.bk, q), At(m.child0, q), At(m.child1, q), At(m.parent, q), At(m.index, q))
  }

  /** All of the memory the allocator writes. */
  datatype Memory = Memory(head: Heads, foot: Field, fd: Field, bk: Field, child0: Field, child1: Field,
                           parent: Field, index: Field, segBase: Field, segSize: Field, segNext: Field)

  function MemoryOf(m: Mstate): Memory
    reads m
  {
    Memory(m.head, m.foot, m.fd, m.bk, m.child0, m.child1, m.parent, m.index, m.segBase, m.segSize, m.segNext)
  }
}
