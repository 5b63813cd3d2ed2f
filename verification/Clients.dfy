/** Clients: the allocator as they see it, and whole runs. */
module Clients {
  import opened Words
  import opened BinIndex
  import opened BinMaps
  import opened Rings
  import opened Trie
  import opened TriePaths
  import opened State
  import opened TreeBins
  import opened SmallBins
  import opened Index
  import opened Heap
  import opened Payload
  import opened Plans
  import opened Invariant
  import opened Taking
  import opened InOut
  import opened Tmalloc
  import opened Freeing
  import opened Regions
  import opened Segments
  import opened FromSystem
  import opened Malloc
  import opened Trimming
  import opened Free
  import opened Scribbles
  import opened Resizing
  import opened Realloc
  import opened Alignment
  import opened Memalign
  import opened Ialloc

  // ---- what a client sees

  /** A block as its owner knows it: how many bytes were asked for, and those bytes that have been written. */
  datatype Block = Block(bytes: int, data: map<int, int>)

  /** The blocks a client owns, by pointer. */
  type Table = map<int, Block>

  type Size = x: int | 0 <= x < W64

  datatype Op =
    | Malloc(bytes: Size)
    | Calloc(n: Size, elem: Size)
    | Memalign(alignment: Size, bytes: Size)
    | Realloc(mem: int, bytes: Size)
    | Free(mem: int)
    | Independent(sizes: seq<Size>, clear: bool, chunks: int)
    | Store(mem: int, off: int, x: int)
    | Trim(pad: Size)

  /** What a call returned; `ptrs` is the array of independent_calloc. */
  datatype Answer = Answer(mem: int, ptrs: seq<int>)

  function Zeros(n: int): (z: map<int, int>)
    ensures forall o :: o in z <==> 0 <= o < n
    ensures forall o :: o in z ==> z[o] == 0
  {
    if n <= 0 then map[] else Zeros(n - 1)[n - 1 := 0]
  }

  function Upto(data: map<int, int>, n: int): map<int, int> {
    map o | o in data && o < n :: data[o]
  }

  /** The bytes of an array of pointers. */
  function PointerData(ptrs: seq<int>): (z: map<int, int>)
    ensures forall o :: o in z <==> 0 <= o < 8 * |ptrs|
  {
    map o: int | 0 <= o < 8 * |ptrs| :: ByteOf(if ptrs[o / 8] >= 0 then ptrs[o / 8] else 0, o % 8)
  }

  function AddAll(t: Table, ptrs: seq<int>, sizes: seq<Size>, clear: bool): Table
    requires |ptrs| == |sizes|
  {
    if ptrs == [] then t
    else
      var k := |ptrs| - 1;
      AddAll(t, ptrs[..k], sizes[..k], clear)[ptrs[k] := NewElement(sizes[k], clear)]
  }

  /** Calls a client may make: pointers it passes are its own, writes stay inside its blocks, and no size
      it computes overflows. */
  predicate Allowed(t: Table, op: Op) {
    match op
    case Malloc(_) => true
    case Calloc(_, _) => true
    case Memalign(alignment, _) => alignment <= 0x8000_0000_0000_0000
    case Realloc(mem, _) => mem == 0 || mem in t
    case Free(mem) => mem == 0 || mem in t
    case Independent(sizes, _, chunks) =>
      && AggregateSize(Requests(|sizes|, sizes, false), chunks) < W64
      && (chunks == 0 || (chunks in t && 8 * |sizes| <= t[chunks].bytes))
    case Store(mem, off, _) => mem in t && 0 <= off < t[mem].bytes
    case Trim(_) => true
  }

  /** The pointers are in the array: a block of its own, or the one the caller has brought. */
  function AddArray(t: Table, b: Block, a: Answer): Table {
    t[a.mem := b.(data := b.data + PointerData(a.ptrs))]
  }

  /** The client's table after a call that returned `a`: this is all a client has to know of the allocator. */
  function After(t: Table, op: Op, a: Answer): Table
    requires Allowed(t, op)
  {
    match op
    case Malloc(bytes) => if a.mem == 0 then t else t[a.mem := Block(bytes, map[])]
    case Calloc(n, elem) => if a.mem == 0 then t else t[a.mem := Block(n * elem, Zeros(n * elem))]
    case Memalign(_, bytes) => if a.mem == 0 then t else t[a.mem := Block(bytes, map[])]
    case Realloc(mem, bytes) =>
      if a.mem == 0 then t
      else if mem == 0 then t[a.mem := Block(bytes, map[])]
      else (t - {mem})[a.mem := Block(bytes, Upto(t[mem].data, bytes))]
    case Free(mem) => t - {mem}
    case Independent(sizes, clear, chunks) =>
      if a.mem == 0 || |a.ptrs| != |sizes| then t
      else AddArray(AddAll(t, a.ptrs, sizes, clear), if chunks == 0 then Block(8 * |sizes|, map[]) else t[chunks], a)
    case Store(mem, off, x) => t[mem := t[mem].(data := t[mem].data[off := x])]
    case Trim(_) => t
  }

  // ---- how the table and the heap agree

  ghost predicate BlockHeld(live: Blocks, f: Field, mem: int, b: Block) {
    && mem - 16 in live && 0 <= b.bytes && b.bytes + 8 <= live[mem - 16]
    && forall o {:trigger b.data[o]} :: o in b.data ==> 0 <= o < b.bytes && At(f, mem + o) == b.data[o]
  }

  /** The client's blocks are exactly the live blocks; each has room for what was asked, and holds what was
      written. */
  ghost predicate Holds(live: Blocks, f: Field, t: Table) {
    && (forall mem {:trigger t[mem]} :: mem in t ==> BlockHeld(live, f, mem, t[mem]))
    && (forall y {:trigger y in live} :: y in live ==> y + 16 in t)
  }

  lemma HeldKeys(live: Blocks, f: Field, t: Table, mem: int)
    requires Holds(live, f, t)
    ensures mem in t <==> mem - 16 in live
  {
    if mem in t {
      assert BlockHeld(live, f, mem, t[mem]);
    }
    if mem - 16 in live {
      assert mem - 16 + 16 in t;
    }
  }

  lemma HoldsAdded(live: Blocks, f: Field, t: Table, mem: int, b: Block, s: int)
    requires Holds(live, f, t) && mem - 16 !in live && BlockHeld(live[mem - 16 := s], f, mem, b)
    ensures mem !in t && Holds(live[mem - 16 := s], f, t[mem := b])
  {
    HeldKeys(live, f, t, mem);
    var live', t' := live[mem - 16 := s], t[mem := b];
    forall p {:trigger t'[p]} | p in t'
      ensures BlockHeld(live', f, p, t'[p])
    {
      if p != mem {
        assert BlockHeld(live, f, p, t[p]);
      }
    }
  }

  lemma HoldsRemoved(live: Blocks, f: Field, t: Table, mem: int)
    requires Holds(live, f, t)
    ensures Holds(live - {mem - 16}, f, t - {mem})
  {
    var live', t' := live - {mem - 16}, t - {mem};
    forall p {:trigger t'[p]} | p in t'
      ensures BlockHeld(live', f, p, t'[p])
    {
      assert BlockHeld(live, f, p, t[p]);
    }
  }

  /** A block without data. */
  lemma EmptyHeld(live: Blocks, f: Field, mem: int, bytes: int)
    requires mem - 16 in live && 0 <= bytes && bytes + 8 <= live[mem - 16]
    ensures BlockHeld(live, f, mem, Block(bytes, map[]))
  {}

  /** Writes inside one block leave the data of the others alone. */
  lemma HoldsWritten(m: Mstate, f: Field, f': Field, t: Table, mem: int, b: Block)
    requires Valid(m) && Holds(Lives(m.heap), f, t) && mem in t && BlockHeld(Lives(m.heap), f', mem, b)
    requires forall w {:trigger At(f', w)} :: !(mem <= w < mem + b.bytes) ==> At(f', w) == At(f, w)
    ensures Holds(Lives(m.heap), f', t[mem := b])
  {
    hide Valid, Lives;
    var live, t' := Lives(m.heap), t[mem := b];
    forall p {:trigger t'[p]} | p in t'
      ensures BlockHeld(live, f', p, t'[p])
    {
      if p != mem {
        assert BlockHeld(live, f, p, t[p]);
        BlocksApart(m, p - 16, mem - 16);
        assert t'[p] == t[p];
      }
    }
  }

  /** The blocks of a client are aligned, in memory, and apart from each other. */
  ghost predicate Sound(t: Table) {
    && (forall p {:trigger t[p]} :: p in t ==> p % 8 == 0 && 0 < p && 0 <= t[p].bytes && p + t[p].bytes < W64)
    && (forall p, q {:trigger t[p], t[q]} :: p in t && q in t && p < q ==> p + t[p].bytes <= q - 8)
  }

  /** A payload ends before the end of memory. */
  lemma PayloadInMemory(m: Mstate, p: int)
    requires Valid(m) && p in Lives(m.heap)
    ensures p > 0 && p % 8 == 0 && p + Lives(m.heap)[p] + 8 < W64
  {
    hide BinsInv, ViewsExcept, BooksInv;
    BlockPlace(m, p);
    BlockEnd(WorldOf(m), {}, p);
    var n := p + m.heap[p].size;
    ChunkAddress(m, {}, n);
    Extents(WorldOf(m), n);
  }

  lemma Extents(w: World, n: int)
    requires ViewsExcept(w, {}) && n in w.heap
    ensures w.heap[n].size >= 8
  {
    hide IndexExcept, SegsInv, TopInv;
    assert ChunkOk(w.head, w.foot, w.heap, n);
  }

  lemma HeldIsSound(m: Mstate, f: Field, t: Table)
    requires Valid(m) && Holds(Lives(m.heap), f, t)
    ensures Sound(t)
  {
    hide Valid, Lives;
    forall p | p in t
      ensures p % 8 == 0 && 0 < p && 0 <= t[p].bytes && p + t[p].bytes < W64
    {
      assert BlockHeld(Lives(m.heap), f, p, t[p]);
      PayloadInMemory(m, p - 16);
    }
    forall p, q | p in t && q in t && p < q
      ensures p + t[p].bytes <= q - 8
    {
      assert BlockHeld(Lives(m.heap), f, p, t[p]) && BlockHeld(Lives(m.heap), f, q, t[q]);
      BlocksApart(m, p - 16, q - 16);
    }
  }

  // ---- the system's answers

  /** The list of segment records, read from memory. */
  method ReadSegments(m: Mstate) returns (segs: seq<Seg>)
    requires Valid(m)
    ensures segs == m.segs
  {
    hide Valid;
    segs := [];
    SegmentsListed(m);
    if m.top != 0 {
      ghost var k := 0;
      var sp := SEG_HEAD;
      while sp != 0
        invariant RecordOf(m.segs, sp, k) && segs == m.segs[..k]
        decreases |m.segs| - k
      {
        WalkStep(m, m.segs, sp, k);
        segs := segs + [Seg(sp, At(m.segBase, sp), At(m.segBase, sp) + At(m.segSize, sp))];
        sp := At(m.segNext, sp);
        k := k + 1;
      }
    }
  }

  lemma SegmentsListed(m: Mstate)
    requires Valid(m)
    ensures m.top == 0 ==> m.segs == []
    ensures m.top != 0 ==> RecordsOk(m.segBase, m.segSize, m.segNext, m.segs) && RecordOf(m.segs, SEG_HEAD, 0)
  {
    hide BinsInv, RecordsOk;
    if m.top != 0 {
      SegsBasics(m.head, m.heap, m.segs, m.top, m.topsize);
      RecordReads(m.segBase, m.segSize, m.segNext, m.segs, 0);
    }
  }

  /** What the system maps when it would like to map at `offer`: nothing if that is in use or out of memory. */
  function Offered(segs: seq<Seg>, offer: int, size: int): (mp: int)
    ensures mp == CMFAIL || Fresh(segs, mp, mp + size)
  {
    if Fresh(segs, offer, offer + size) then offer else CMFAIL
  }

  method MapPages(m: Mstate, size: int, offer: int) returns (mp: int)
    requires Valid(m)
    ensures mp == Offered(m.segs, offer, size)
  {
    hide Valid;
    var segs := ReadSegments(m);
    mp := Offered(segs, offer, size);
  }

  // ---- the calls

  /** No room for a chunk of `nb` bytes in the heap `w`, and none from the system that offers the address `offer`. */
  ghost predicate NoRoom(w: World, g: int, nb: int, offer: int)
    requires GranularityOk(g) && IsWord(nb)
  {
    Refused(w.heap, w.topsize, g, nb, Offered(w.segs, offer, SysRequest(g, nb)))
  }

  /** When a call that allocates must answer null; the others always do. */
  ghost predicate Denied(op: Op, w: World, g: int, offer: int)
    requires GranularityOk(g)
  {
    match op
    case Malloc(bytes) => NoRoom(w, g, ChunkSize(bytes), offer)
    case Calloc(n, elem) => NoRoom(w, g, ChunkSize(CallocAsk(n, elem)), offer)
    case Memalign(alignment, bytes) =>
      if alignment <= 8 then NoRoom(w, g, ChunkSize(bytes), offer)
      else exists al: nat :: Rounded(alignment, al) && NoRoom(w, g, ChunkSize(AlignRequest(bytes, al)), offer)
    case Realloc(mem, bytes) =>
      if mem == 0 then NoRoom(w, g, ChunkSize(bytes), offer)
      else mem - 16 in Lives(w.heap)
           && ReallocRefused(w.heap, w.top, w.topsize, g, mem - 16, bytes, Offered(w.segs, offer, SysRequest(g, ChunkSize(bytes))))
    case Independent(sizes, _, chunks) =>
      var asked := AskedSize(|sizes|, sizes, false, chunks);
      (sizes != [] || chunks == 0) && IsWord(asked) && NoRoom(w, g, ChunkSize(asked), offer)
    case _ => true
  }

  /** What the answer to a call promises besides the table: null exactly when there is no room, and new blocks are new. */
  ghost predicate Meets(t: Table, op: Op, a: Answer, w: World, g: int, offer: int)
    requires GranularityOk(g)
  {
    && (a.mem == 0 <==> Denied(op, w, g, offer))
    && (a.mem != 0 ==>
        match op
        case Malloc(_) => a.mem !in t
        case Calloc(n, elem) => a.mem !in t && n * elem < W64
        case Memalign(alignment, _) => a.mem !in t && AlignedFor(alignment, a.mem)
        case Realloc(mem, _) => a.mem == mem || a.mem !in t
        case Independent(sizes, _, chunks) =>
          && |a.ptrs| == |sizes| && Distinct(a.ptrs) && (if chunks != 0 then a.mem == chunks else a.mem !in t)
          && forall k {:trigger a.ptrs[k]} :: 0 <= k < |sizes| ==> a.ptrs[k] !in t
        case _ => true)
  }

  /** `mem` is a multiple of the alignment that a request for `alignment` amounts to. */
  ghost predicate AlignedFor(alignment: int, mem: int) {
    if alignment <= 8 then mem % 8 == 0 else exists al :: Rounded(alignment, al) && al > 0 && mem % al == 0
  }

  lemma HoldsServed(c: Chunks, c': Chunks, f: Field, t: Table, mem: int, bytes: int, nb: int)
    requires Holds(Lives(c), f, t) && Served(c, c', mem - 16, nb) && 0 <= bytes <= nb - 8
    ensures mem !in t && Holds(Lives(c'), f, t[mem := Block(bytes, map[])])
  {
    hide Lives, Holds;
    EmptyHeld(Lives(c'), f, mem, bytes);
    HoldsAdded(Lives(c), f, t, mem, Block(bytes, map[]), Lives(c')[mem - 16]);
  }

  method CallMalloc(m: Mstate, d: Bytes, ghost t: Table, bytes: Size, offer: int) returns (mem: int)
    requires Valid(m) && Holds(Lives(m.heap), d.at, t)
    modifies m
    ensures Valid(m) && (mem == 0 || mem !in t) && (mem == 0 ==> unchanged(m))
    ensures GranularityOk(m.granularity) && (mem == 0 <==> NoRoom(old(WorldOf(m)), m.granularity, ChunkSize(bytes), offer))
    ensures Holds(Lives(m.heap), d.at, if mem == 0 then t else t[mem := Block(bytes, map[])])
  {
    hide Valid, Quiet, Lives, Served, Chosen, Refused, SysRequest, NoFit, Fresh, Holds, ChunkSize, Offered;
    GranuleOk(m);
    var mp := MapPages(m, SysRequest(m.granularity, ChunkSize(bytes)), offer);
    ghost var c := m.heap;
    mem := Dlmalloc(m, bytes, mp);
    if mem != 0 {
      ServedRoom(m, c, mem - 16, bytes);
      HoldsServed(c, m.heap, d.at, t, mem, bytes, ChunkSize(bytes));
    }
  }

  lemma GranuleOk(m: Mstate)
    requires Valid(m)
    ensures GranularityOk(m.granularity)
  {
    hide BinsInv, ViewsExcept;
  }

  /** What has been served has room for the request. */
  lemma ServedRoom(m: Mstate, c: Chunks, p: int, bytes: int)
    requires Valid(m) && IsWord(bytes) && Served(c, m.heap, p, ChunkSize(bytes))
    ensures bytes <= ChunkSize(bytes) - 8
  {
    hide Valid;
    ServedIsSmaller(m, c, p, ChunkSize(bytes));
  }

  lemma ServedRoomAt(m: Mstate, p: int, bytes: int, s: int)
    requires Valid(m) && IsWord(bytes) && p in Lives(m.heap) && s == Lives(m.heap)[p] && ChunkSize(bytes) <= s
    ensures bytes <= s - 8
  {
    hide Valid, Lives;
    PayloadInMemory(m, p);
  }

  method CallFree(m: Mstate, d: Bytes, ghost t: Table, mem: int)
    requires Valid(m) && Holds(Lives(m.heap), d.at, t) && (mem == 0 || mem in t)
    modifies m
    ensures Valid(m) && Holds(Lives(m.heap), d.at, t - {mem})
  {
    hide Valid, Quiet, Lives, Holds;
    HeldKeys(Lives(m.heap), d.at, t, mem);
    if mem == 0 {
      NullNotHeld(m, d.at, t);
      assert t - {mem} == t;
    } else {
      HoldsRemoved(Lives(m.heap), d.at, t, mem);
    }
    Dlfree(m, mem);
  }

  lemma NullNotHeld(m: Mstate, f: Field, t: Table)
    requires Valid(m) && Holds(Lives(m.heap), f, t)
    ensures 0 !in t
  {
    hide Valid, Lives;
    if 0 in t {
      HeldKeys(Lives(m.heap), f, t, 0);
      BlockPlace(m, -16);
    }
  }

  method CallStore(m: Mstate, d: Bytes, ghost t: Table, mem: int, off: int, x: int)
    requires Valid(m) && Holds(Lives(m.heap), d.at, t) && mem in t && 0 <= off < t[mem].bytes
    modifies m, d
    ensures Valid(m) && Holds(Lives(m.heap), d.at, t[mem := t[mem].(data := t[mem].data[off := x])])
  {
    hide Valid, Quiet, Lives, Scribbled;
    ghost var f, b := d.at, t[mem].(data := t[mem].data[off := x]);
    assert BlockHeld(Lives(m.heap), f, mem, t[mem]);
    StoreByte(m, d, mem + off, x, mem - 16);
    HoldsWritten(m, f, d.at, t, mem, b);
  }

  method CallTrim(m: Mstate, d: Bytes, ghost t: Table, pad: Size)
    requires Valid(m) && Holds(Lives(m.heap), d.at, t)
    modifies m
    ensures Valid(m) && Holds(Lives(m.heap), d.at, t)
  {
    hide Valid, Quiet, Lives, Holds;
    var _ := SysTrim(m, pad);
  }

  method CallCalloc(m: Mstate, d: Bytes, ghost t: Table, n: Size, elem: Size, offer: int) returns (mem: int)
    requires Valid(m) && Holds(Lives(m.heap), d.at, t)
    modifies m, d
    ensures Valid(m) && (mem == 0 || mem !in t) && (n * elem >= W64 ==> mem == 0) && (mem == 0 ==> unchanged(m))
    ensures GranularityOk(m.granularity) && (mem == 0 <==> NoRoom(old(WorldOf(m)), m.granularity, ChunkSize(CallocAsk(n, elem)), offer))
    ensures Holds(Lives(m.heap), d.at, if mem == 0 then t else t[mem := Block(n * elem, Zeros(n * elem))])
  {
    hide Valid, Quiet, Lives, Served, Chosen, Refused, SysRequest, NoFit, Fresh, Holds, Offered, PlanOf, Malloced, Picks;
    GranuleOk(m);
    ProductWord(n, elem);
    ghost var req := CallocAsk(n, elem);
    var r := CallocRequest(n, elem);
    var mp := MapPages(m, SysRequest(m.granularity, ChunkSize(r)), offer);
    ghost var c, f := m.heap, d.at;
    mem := Dlcalloc(m, d, n, elem, mp);
    if mem != 0 {
      ServedRoom(m, c, mem - 16, req);
      HoldsServed(c, m.heap, f, t, mem, req, ChunkSize(req));
      ClearHeld(m, c, f, d.at, mem, req);
      HoldsWritten(m, f, d.at, t[mem := Block(req, map[])], mem, Block(req, Zeros(req)));
      assert t[mem := Block(req, map[])][mem := Block(req, Zeros(req))] == t[mem := Block(req, Zeros(req))];
    }
  }

  lemma ProductWord(n: Size, elem: Size)
    ensures 0 <= n * elem
  {}

  lemma ClearHeld(m: Mstate, c: Chunks, f: Field, f': Field, mem: int, req: int)
    requires IsWord(req) && Served(c, m.heap, mem - 16, ChunkSize(req)) && req <= ChunkSize(req) - 8
    requires forall w {:trigger At(f', w)} :: At(f', w) == if mem <= w < mem + req then 0 else At(f, w)
    ensures BlockHeld(Lives(m.heap), f', mem, Block(req, Zeros(req)))
  {
    hide Lives, ChunkSize, Zeros;
  }

  method CallMemalign(m: Mstate, d: Bytes, ghost t: Table, alignment: Size, bytes: Size, offer: int) returns (mem: int)
    requires Valid(m) && Holds(Lives(m.heap), d.at, t) && alignment <= 0x8000_0000_0000_0000
    modifies m
    ensures Valid(m) && (mem == 0 || (mem !in t && AlignedFor(alignment, mem))) && (mem == 0 ==> unchanged(m))
    ensures GranularityOk(m.granularity) && (mem == 0 <==> Denied(Memalign(alignment, bytes), old(WorldOf(m)), m.granularity, offer))
    ensures Holds(Lives(m.heap), d.at, if mem == 0 then t else t[mem := Block(bytes, map[])])
  {
    hide Valid, Quiet, Lives, ServedAligned, SysRequest, Fresh, FreshFor, Rounded, Holds, AlignedFor, Denied, NoRoom, Refused, ChunkSize, Offered;
    GranuleOk(m);
    ghost var c, w := m.heap, WorldOf(m);
    var mp := MapForAlign(m, alignment, bytes, offer);
    ghost var al;
    mem, al := Dlmemalign(m, alignment, bytes, mp);
    AlignDenied(w, m.granularity, alignment, al, bytes, offer, mp, mem);
    if mem != 0 {
      AlignedServed(m, c, d.at, t, mem, bytes, alignment, al);
    }
  }

  /** The system's answer to the request that dlmemalign will make, if it makes one. */
  method MapForAlign(m: Mstate, alignment: Size, bytes: Size, offer: int) returns (mp: int)
    requires Valid(m) && alignment <= 0x8000_0000_0000_0000 && GranularityOk(m.granularity)
    ensures mp == CMFAIL
      || (if alignment <= 8 then Fresh(m.segs, mp, mp + SysRequest(m.granularity, ChunkSize(bytes)))
          else FreshFor(m, alignment, bytes, mp))
    ensures alignment <= 8 ==> mp == Offered(m.segs, offer, SysRequest(m.granularity, ChunkSize(bytes)))
    ensures alignment > 8 ==> forall al: nat {:trigger Rounded(alignment, al)} :: Rounded(alignment, al) ==>
      mp == Offered(m.segs, offer, SysRequest(m.granularity, ChunkSize(AlignRequest(bytes, al))))
  {
    hide Valid, SysRequest, Fresh, Rounded, Offered, ChunkSize, AlignRequest;
    if alignment <= 8 {
      mp := MapPages(m, SysRequest(m.granularity, ChunkSize(bytes)), offer);
    } else {
      var al := RoundAlignment(alignment);
      RoundedRange(alignment, al);
      RoundedOnce(alignment, al);
      mp := MapPages(m, SysRequest(m.granularity, ChunkSize(AlignRequest(bytes, al))), offer);
    }
  }

  lemma AlignDenied(w: World, g: int, alignment: Size, al: int, bytes: Size, offer: int, mp: int, mem: int)
    requires GranularityOk(g) && al >= 0 && (alignment > 8 ==> Rounded(alignment, al))
    requires mp == Offered(w.segs, offer, SysRequest(g, ChunkSize(if alignment <= 8 then bytes else AlignRequest(bytes, al))))
    requires mem == 0 <==> Refused(w.heap, w.topsize, g, ChunkSize(if alignment <= 8 then bytes else AlignRequest(bytes, al)), mp)
    ensures mem == 0 <==> Denied(Memalign(alignment, bytes), w, g, offer)
  {
    hide Rounded, Refused, ChunkSize, AlignRequest, SysRequest, Offered;
    if alignment > 8 {
      RoundedOnce(alignment, al);
    }
  }

  /** The rounded alignment is unique. */
  lemma RoundedOnce(alignment: int, al: int)
    requires Rounded(alignment, al)
    ensures forall b :: Rounded(alignment, b) ==> b == al
  {
    forall b | Rounded(alignment, b)
      ensures b == al
    {
      if al < b {
        PowersApart(al, b);
      } else if b < al {
        PowersApart(b, al);
      }
    }
  }

  lemma PowersApart(a: int, b: int)
    requires PowerOfTwo(a) && PowerOfTwo(b) && a < b
    ensures 2 * a <= b
  {
    var i: nat :| i < 64 && a == Pow2(i);
    var j: nat :| j < 64 && b == Pow2(j);
    if j <= i {
      Pow2Monotone(j, i);
    } else {
      Pow2Monotone(i + 1, j);
    }
  }

  lemma AlignedServed(m: Mstate, c: Chunks, f: Field, t: Table, mem: int, bytes: Size, alignment: int, al: int)
    requires Valid(m) && Holds(Lives(c), f, t) && ServedAligned(c, m.heap, mem - 16, ChunkSize(bytes), al)
    requires if alignment <= 8 then al == 8 else Rounded(alignment, al)
    ensures mem !in t && AlignedFor(alignment, mem) && Holds(Lives(m.heap), f, t[mem := Block(bytes, map[])])
  {
    hide Valid, Lives, Holds, Rounded;
    var q, s := mem - 16, Lives(m.heap)[mem - 16];
    assert q + 16 == mem && mem % al == 0;
    if alignment > 8 {
      RoundedRange(alignment, al);
    }
    OldBlock(m, q);
    ServedRoomAt(m, q, bytes, s);
    EmptyHeld(Lives(m.heap), f, mem, bytes);
    HoldsAdded(Lives(c), f, t, mem, Block(bytes, map[]), s);
  }

  // ---- realloc

  ghost function ByteAt(f: Field, mem: int, o: int): int {
    At(f, mem + o)
  }

  /** The first bytes of a block are those of another one before. */
  ghost predicate Carried(f: Field, f': Field, mem: int, mem': int, had: int, bytes: int) {
    forall o {:trigger ByteAt(f', mem', o)} :: 0 <= o < had && o < bytes ==> ByteAt(f', mem', o) == ByteAt(f, mem, o)
  }

  /** The data of a block that has moved or changed size in place. */
  lemma ResizedHeld(live: Blocks, f: Field, live': Blocks, f': Field, mem: int, b: Block, mem': int, bytes: int)
    requires BlockHeld(live, f, mem, b) && mem' - 16 in live' && 0 <= bytes <= live'[mem' - 16] - 8
    requires Carried(f, f', mem, mem', b.bytes, bytes)
    ensures BlockHeld(live', f', mem', Block(bytes, Upto(b.data, bytes)))
  {
    forall o | o in Upto(b.data, bytes)
      ensures At(f', mem' + o) == b.data[o]
    {
      assert b.data[o] == At(f, mem + o) && 0 <= o < b.bytes;
      assert ByteAt(f', mem', o) == ByteAt(f, mem, o);
    }
  }

  /** Resized where it is. */
  lemma HoldsInPlace(c: Chunks, c': Chunks, f: Field, t: Table, mem: int, bytes: int, nb: int)
    requires Holds(Lives(c), f, t) && mem in t && Resized(c, c', mem - 16, mem - 16, nb) && 0 <= bytes <= nb - 8
    ensures Holds(Lives(c'), f, (t - {mem})[mem := Block(bytes, Upto(t[mem].data, bytes))])
  {
    hide Lives, Holds;
    var live, live' := Lives(c), Lives(c');
    HoldsFor(live, f, t, mem);
    HoldsRemoved(live, f, t, mem);
    ResizedHeld(live, f, live', f, mem, t[mem], mem, bytes);
    assert live' == (live - {mem - 16})[mem - 16 := live'[mem - 16]];
    HoldsAdded(live - {mem - 16}, f, t - {mem}, mem, Block(bytes, Upto(t[mem].data, bytes)), live'[mem - 16]);
  }

  lemma HoldsFor(live: Blocks, f: Field, t: Table, mem: int)
    requires Holds(live, f, t) && mem in t
    ensures BlockHeld(live, f, mem, t[mem]) && mem - 16 in live
  {}

  /** Resized by moving: first an empty block, then the copy. */
  lemma HoldsMoved(m: Mstate, c: Chunks, f: Field, f': Field, t: Table, mem: int, mem': int, bytes: int, nb: int)
    requires Valid(m) && Holds(Lives(c), f, t) && mem in t && mem' != mem && Resized(c, m.heap, mem - 16, mem' - 16, nb)
    requires 0 <= bytes <= nb - 8 && Moved(f, f', mem - 16, mem' - 16, Lives(c)[mem - 16], bytes)
    ensures mem' !in t && Holds(Lives(m.heap), f', (t - {mem})[mem' := Block(bytes, Upto(t[mem].data, bytes))])
  {
    hide Lives, Holds, Valid, Moved;
    var live, live', s := Lives(c), Lives(m.heap), Lives(c)[mem - 16];
    HoldsFor(live, f, t, mem);
    HoldsRemoved(live, f, t, mem);
    EmptyHeld(live', f, mem', bytes);
    HoldsAdded(live - {mem - 16}, f, t - {mem}, mem', Block(bytes, map[]), live'[mem' - 16]);
    assert t[mem].bytes <= s - 8;
    MovedBytes(f, f', mem, mem', s, t[mem].bytes, bytes);
    ResizedHeld(live, f, live', f', mem, t[mem], mem', bytes);
    HoldsWritten(m, f, f', (t - {mem})[mem' := Block(bytes, map[])], mem', Block(bytes, Upto(t[mem].data, bytes)));
    assert (t - {mem})[mem' := Block(bytes, map[])][mem' := Block(bytes, Upto(t[mem].data, bytes))]
        == (t - {mem})[mem' := Block(bytes, Upto(t[mem].data, bytes))];
  }

  lemma MovedBytes(f: Field, f': Field, mem: int, mem': int, s: int, had: int, bytes: int)
    requires Moved(f, f', mem - 16, mem' - 16, s, bytes) && had <= s - 8
    ensures forall w {:trigger At(f', w)} :: !(mem' <= w < mem' + bytes) ==> At(f', w) == At(f, w)
    ensures Carried(f, f', mem, mem', had, bytes)
  {
    var n := Min(s - 8, bytes);
    assert mem' - 16 + 16 == mem' && mem - 16 + 16 == mem;
    forall w {:trigger At(f', w)}
      ensures At(f', w) == if mem' <= w < mem' + n then At(f, mem + (w - mem')) else At(f, w)
    {
      CopyOfAt(f, mem', mem, n, w);
    }
  }

  method CallRealloc(m: Mstate, d: Bytes, ghost t: Table, mem: int, bytes: Size, offer: int) returns (r: int)
    requires Valid(m) && Holds(Lives(m.heap), d.at, t) && (mem == 0 || mem in t)
    modifies m, d
    ensures Valid(m) && (r == 0 || r == mem || r !in t) && (r == 0 ==> unchanged(m))
    ensures GranularityOk(m.granularity) && (r == 0 <==> Denied(Realloc(mem, bytes), old(WorldOf(m)), m.granularity, offer))
    ensures Holds(Lives(m.heap), d.at,
      if r == 0 then t else if mem == 0 then t[r := Block(bytes, map[])]
      else (t - {mem})[r := Block(bytes, Upto(t[mem].data, bytes))])
  {
    hide Valid, Quiet, Lives, Served, Resized, Bystanders, Moved, SysRequest, Fresh, Holds, Refused, ReallocRefused, ChunkSize, Offered, Malloced, Realloced, SizeIn, MemoryOf, PlanOf;
    GranuleOk(m);
    HeldKeys(Lives(m.heap), d.at, t, mem);
    var mp := MapPages(m, SysRequest(m.granularity, ChunkSize(bytes)), offer);
    ghost var c, f := m.heap, d.at;
    if mem != 0 {
      NullNotHeld(m, f, t);
    }
    r := Dlrealloc(m, d, mem, bytes, mp);
    if r != 0 {
      if mem == 0 {
        ServedRoom(m, c, r - 16, bytes);
        HoldsServed(c, m.heap, f, t, r, bytes, ChunkSize(bytes));
      } else {
        ResizedRoom(m, c, mem - 16, r - 16, bytes);
        if r == mem {
          HoldsInPlace(c, m.heap, f, t, mem, bytes, ChunkSize(bytes));
        } else {
          LiveSizeIn(c, mem - 16);
          HoldsMoved(m, c, f, d.at, t, mem, r, bytes, ChunkSize(bytes));
        }
      }
    }
  }

  lemma ResizedRoom(m: Mstate, c: Chunks, p: int, q: int, bytes: int)
    requires Valid(m) && IsWord(bytes) && Resized(c, m.heap, p, q, ChunkSize(bytes))
    ensures bytes <= ChunkSize(bytes) - 8
  {
    hide Valid;
    PayloadInMemory(m, q);
  }

  // ---- independent_calloc and independent_comalloc

  /** A new element's block. */
  function NewElement(bytes: Size, clear: bool): Block {
    Block(bytes, if clear then Zeros(bytes) else map[])
  }

  /** Table `t'` has the elements besides what is in `t`. */
  ghost predicate AllAdded(t: Table, t': Table, ptrs: seq<int>, sizes: seq<Size>, clear: bool)
    requires |ptrs| == |sizes|
  {
    && (forall p {:trigger p in t'} :: p in t' <==> p in t || p in ptrs)
    && (forall p {:trigger t'[p]} :: p in t && p !in ptrs ==> t'[p] == t[p])
    && (forall k {:trigger ptrs[k]} :: 0 <= k < |ptrs| ==> ptrs[k] in t' && t'[ptrs[k]] == NewElement(sizes[k], clear))
  }

  lemma AddedOne(t: Table, t': Table, ptrs: seq<int>, sizes: seq<Size>, clear: bool, ptr: int, bytes: Size)
    requires |ptrs| == |sizes| && AllAdded(t, t', ptrs, sizes, clear) && ptr !in ptrs
    ensures AllAdded(t, t'[ptr := NewElement(bytes, clear)], ptrs + [ptr], sizes + [bytes], clear)
  {
    hide NewElement;
    var all, t2 := ptrs + [ptr], t'[ptr := NewElement(bytes, clear)];
    forall k {:trigger all[k]} | 0 <= k < |all|
      ensures all[k] in t2 && t2[all[k]] == NewElement((sizes + [bytes])[k], clear)
    {
      if k < |ptrs| {
        assert all[k] == ptrs[k] && ptrs[k] in ptrs;
      }
    }
  }

  lemma {:induction false} AddAllAt(t: Table, ptrs: seq<int>, sizes: seq<Size>, clear: bool)
    requires |ptrs| == |sizes| && Distinct(ptrs)
    ensures AllAdded(t, AddAll(t, ptrs, sizes, clear), ptrs, sizes, clear)
  {
    if ptrs != [] {
      hide AllAdded;
      var k := |ptrs| - 1;
      AddAllAt(t, ptrs[..k], sizes[..k], clear);
      assert ptrs == ptrs[..k] + [ptrs[k]] && sizes == sizes[..k] + [sizes[k]];
      LastIsNew(ptrs);
      AddedOne(t, AddAll(t, ptrs[..k], sizes[..k], clear), ptrs[..k], sizes[..k], clear, ptrs[k], sizes[k]);
    }
  }

  lemma LastIsNew(ptrs: seq<int>)
    requires Distinct(ptrs) && ptrs != []
    ensures ptrs[|ptrs| - 1] !in ptrs[..|ptrs| - 1] && Distinct(ptrs[..|ptrs| - 1])
  {}

  /** Elements that lie one after the other are different. */
  lemma TiledDistinct(live: Blocks, ptrs: seq<int>, reqs: seq<int>, p: int, end: int)
    requires Tiled(live, ptrs, reqs, p, end) && ChunkSizes(reqs)
    ensures Distinct(ptrs)
  {
    forall i, j | 0 <= i < j < |ptrs|
      ensures ptrs[i] < ptrs[j]
    {
      PartialSum(reqs, i);
      SumsGrow(reqs, i + 1, j);
    }
  }

  lemma {:induction false} SumsGrow(s: seq<int>, i: nat, j: nat)
    requires ChunkSizes(s) && i <= j < |s|
    ensures Sum(s[..i]) <= Sum(s[..j])
    decreases j
  {
    if i < j {
      SumsGrow(s, i, j - 1);
      PartialSum(s, j - 1);
    }
  }

  /** What the aggregate means for each element. */
  ghost predicate ElementsHeld(live: Blocks, f: Field, ptrs: seq<int>, sizes: seq<Size>, clear: bool) {
    && |ptrs| == |sizes| && Distinct(ptrs)
    && forall k {:trigger ptrs[k]} :: 0 <= k < |ptrs| ==>
         BlockHeld(live, f, ptrs[k], NewElement(sizes[k], clear))
  }

  lemma ElementsAreHeld(live: Blocks, f: Field, ptrs: seq<int>, sizes: seq<Size>, clear: bool, reqs: seq<int>, p: int, end: int)
    requires Tiled(live, ptrs, reqs, p, end) && reqs == Requests(|sizes|, sizes, false)
    requires clear ==> ElementsClear(f, live, ptrs)
    ensures ElementsHeld(live, f, ptrs, sizes, clear)
  {
    RequestsAreChunks(|sizes|, sizes, false);
    TiledDistinct(live, ptrs, reqs, p, end);
    forall k | 0 <= k < |ptrs|
      ensures BlockHeld(live, f, ptrs[k], NewElement(sizes[k], clear))
    {
      ElementRoom(live, ptrs, reqs, p, end, k);
      RequestIsChunk(sizes[k]);
      if clear {
        ElementZero(live, f, ptrs, k, sizes[k]);
      }
    }
  }

  lemma ElementRoom(live: Blocks, ptrs: seq<int>, reqs: seq<int>, p: int, end: int, k: int)
    requires Tiled(live, ptrs, reqs, p, end) && 0 <= k < |ptrs|
    ensures ptrs[k] - 16 in live && reqs[k] <= live[ptrs[k] - 16]
  {}

  lemma ElementZero(live: Blocks, f: Field, ptrs: seq<int>, k: int, bytes: Size)
    requires ElementsClear(f, live, ptrs) && 0 <= k < |ptrs| && ptrs[k] - 16 in live && bytes + 8 <= live[ptrs[k] - 16]
    ensures BlockHeld(live, f, ptrs[k], Block(bytes, Zeros(bytes)))
  {
    var mine := map[ptrs[k] - 16 := live[ptrs[k] - 16]];
    var z := Zeros(bytes);
    forall o | o in z
      ensures At(f, ptrs[k] + o) == z[o]
    {
      assert ptrs[k] - 16 in mine && InPayload(mine, ptrs[k] + o);
    }
  }

  /** The table with the elements and, unless the caller has brought an array, an empty one. */
  ghost function WithElements(t: Table, ptrs: seq<int>, sizes: seq<Size>, clear: bool, chunks: int, marray: int): Table
    requires |ptrs| == |sizes|
  {
    if chunks != 0 then AddAll(t, ptrs, sizes, clear) else AddAll(t, ptrs, sizes, clear)[marray := Block(8 * |sizes|, map[])]
  }

  lemma HoldsCarved(c: Chunks, c': Chunks, f: Field, f': Field, t: Table, sizes: seq<Size>, clear: bool, chunks: int, marray: int, ptrs: seq<int>)
    requires Holds(Lives(c), f, t) && Carved(c, c', Requests(|sizes|, sizes, false), chunks, marray, ptrs)
    requires SameBytes(f, f', Lives(c)) && (clear ==> ElementsClear(f', Lives(c'), ptrs))
    ensures |ptrs| == |sizes| && Distinct(ptrs) && (chunks == 0 ==> marray !in t)
    ensures forall k {:trigger ptrs[k]} :: 0 <= k < |ptrs| ==> ptrs[k] !in t
    ensures Holds(Lives(c'), f', WithElements(t, ptrs, sizes, clear, chunks, marray))
  {
    var reqs := Requests(|sizes|, sizes, false);
    var live, live' := Lives(c), Lives(c');
    var end := if chunks != 0 then
      var e :| Tiled(live', ptrs, reqs, ptrs[0] - 16, e); e else ptrs[0] - 16 + Sum(reqs);
    ElementsAreHeld(live', f', ptrs, sizes, clear, reqs, ptrs[0] - 16, end);
    RequestIsChunk(8 * |sizes|);
    if chunks == 0 {
      EmptyHeld(live', f', marray, 8 * |sizes|);
    }
    CarvedFresh(c, c', reqs, chunks, marray, ptrs, f, t);
    hide Lives, Holds, Beside, Carved, Tiled, ElementsClear, SameBytes;
    AddAllAt(t, ptrs, sizes, clear);
    OldBlocksHeld(live, live', f, f', t);
    hide BlockHeld, AddAll;
    HoldsAll(live', f', t, ptrs, sizes, clear, chunks, marray);
  }

  /** The new blocks are new, the old ones still there. */
  lemma CarvedFresh(c: Chunks, c': Chunks, reqs: seq<int>, chunks: int, marray: int, ptrs: seq<int>, f: Field, t: Table)
    requires Holds(Lives(c), f, t) && Carved(c, c', reqs, chunks, marray, ptrs)
    ensures (chunks == 0 ==> marray !in t) && forall k {:trigger ptrs[k]} :: 0 <= k < |ptrs| ==> ptrs[k] !in t
    ensures Keeps(Lives(c), Lives(c'))
    ensures forall y {:trigger y in Lives(c')} :: y in Lives(c') ==> y + 16 in t || (chunks == 0 && y + 16 == marray) || y + 16 in ptrs
  {
    hide Lives, Tiled;
    var mine := Starts(ptrs) + (if chunks != 0 then {} else {marray - 16});
    assert chunks != 0 ==> mine == Starts(ptrs);
    if chunks == 0 {
      HeldKeys(Lives(c), f, t, marray);
      assert marray - 16 in mine;
    }
    forall k {:trigger ptrs[k]} | 0 <= k < |ptrs|
      ensures ptrs[k] !in t
    {
      HeldKeys(Lives(c), f, t, ptrs[k]);
      assert ptrs[k] - 16 in mine;
    }
    forall y {:trigger y in Lives(c')} | y in Lives(c')
      ensures y + 16 in t || (chunks == 0 && y + 16 == marray) || y + 16 in ptrs
    {
      if y in Lives(c) {
        HeldKeys(Lives(c), f, t, y + 16);
      } else if y in Starts(ptrs) {
        var k :| 0 <= k < |ptrs| && y == ptrs[k] - 16;
        assert ptrs[k] in ptrs;
      }
    }
  }

  ghost predicate Keeps(live: Blocks, live': Blocks) {
    forall y {:trigger live[y]} :: y in live ==> y in live' && live'[y] == live[y]
  }

  lemma OldBlocksHeld(live: Blocks, live': Blocks, f: Field, f': Field, t: Table)
    requires Holds(live, f, t) && SameBytes(f, f', live) && Keeps(live, live')
    ensures forall p {:trigger t[p]} :: p in t ==> BlockHeld(live', f', p, t[p])
  {
    forall p {:trigger t[p]} | p in t
      ensures BlockHeld(live', f', p, t[p])
    {
      var b := t[p];
      assert BlockHeld(live, f, p, b) && live'[p - 16] == live[p - 16];
      forall o | o in b.data
        ensures At(f', p + o) == b.data[o]
      {
        assert b.data[o] == At(f, p + o) && InPayload(live, p + o);
      }
    }
  }

  lemma HoldsAll(live: Blocks, f: Field, t: Table, ptrs: seq<int>, sizes: seq<Size>, clear: bool, chunks: int, marray: int)
    requires ElementsHeld(live, f, ptrs, sizes, clear)
    requires chunks == 0 ==> BlockHeld(live, f, marray, Block(8 * |sizes|, map[]))
    requires forall p {:trigger t[p]} :: p in t ==> BlockHeld(live, f, p, t[p])
    requires forall y {:trigger y in live} :: y in live ==> y + 16 in t || (chunks == 0 && y + 16 == marray) || y + 16 in ptrs
    ensures Holds(live, f, WithElements(t, ptrs, sizes, clear, chunks, marray))
  {
    hide BlockHeld, AddAll;
    var t1 := AddAll(t, ptrs, sizes, clear);
    AddAllAt(t, ptrs, sizes, clear);
    var t' := WithElements(t, ptrs, sizes, clear, chunks, marray);
    forall p {:trigger t'[p]} | p in t'
      ensures BlockHeld(live, f, p, t'[p])
    {
      if chunks != 0 || p != marray {
        if p in ptrs {
          var k :| 0 <= k < |ptrs| && ptrs[k] == p;
        } else {
          assert t'[p] == t1[p] == t[p];
        }
      }
    }
  }

  /** The array holds the pointers, and what else was there. */
  lemma PointersHeld(live: Blocks, f: Field, f': Field, marray: int, b: Block, ptrs: seq<int>)
    requires BlockHeld(live, f, marray, b) && 8 * |ptrs| <= b.bytes
    requires Spelled(f', marray, ptrs, |ptrs|) && OnlyThere(f, f', marray, 8 * |ptrs|)
    ensures BlockHeld(live, f', marray, b.(data := b.data + PointerData(ptrs)))
  {
    var z := PointerData(ptrs);
    var data := b.data + z;
    forall o {:trigger data[o]} | o in data
      ensures 0 <= o < b.bytes && At(f', marray + o) == data[o]
    {
      if o in z {
        PointerByte(f', marray, ptrs, o);
      } else {
        assert data[o] == b.data[o];
        assert At(f', marray + o) == At(f, marray + o);
      }
    }
  }

  lemma PointerByte(f: Field, marray: int, ptrs: seq<int>, o: int)
    requires Spelled(f, marray, ptrs, |ptrs|) && 0 <= o < 8 * |ptrs|
    ensures o in PointerData(ptrs) && At(f, marray + o) == PointerData(ptrs)[o]
  {
    hide ByteOf;
    var i, k := o / 8, o % 8;
    assert Holding(f, marray + 8 * i, ptrs[i], 8) && ptrs[i] >= 0;
    assert At(f, marray + 8 * i + k) == ByteOf(ptrs[i], k);
  }

  /** The pointers have been stored. */
  lemma HoldsPointers(m: Mstate, f: Field, f': Field, t: Table, sizes: seq<Size>, clear: bool, chunks: int, marray: int, ptrs: seq<int>)
    requires Valid(m) && |ptrs| == |sizes| && Distinct(ptrs) && Holds(Lives(m.heap), f, WithElements(t, ptrs, sizes, clear, chunks, marray))
    requires forall k {:trigger ptrs[k]} :: 0 <= k < |ptrs| ==> ptrs[k] !in t
    requires chunks != 0 ==> marray == chunks && chunks in t && 8 * |sizes| <= t[chunks].bytes
    requires Spelled(f', marray, ptrs, |ptrs|) && OnlyThere(f, f', marray, 8 * |ptrs|)
    ensures Holds(Lives(m.heap), f', AddArray(AddAll(t, ptrs, sizes, clear), if chunks == 0 then Block(8 * |sizes|, map[]) else t[chunks],
                                              Answer(marray, ptrs)))
  {
    hide Valid, Lives, Holds, AddAll, BlockHeld, Spelled, PointerData, OnlyThere;
    var t1, b := WithElements(t, ptrs, sizes, clear, chunks, marray), if chunks == 0 then Block(8 * |sizes|, map[]) else t[chunks];
    var b' := b.(data := b.data + PointerData(ptrs));
    AddAllAt(t, ptrs, sizes, clear);
    assert marray in t1 && t1[marray] == b;
    HoldsFor(Lives(m.heap), f, t1, marray);
    PointersHeld(Lives(m.heap), f, f', marray, b, ptrs);
    OnlyInBlock(f, f', marray, 8 * |ptrs|, b.bytes);
    HoldsWritten(m, f, f', t1, marray, b');
    assert t1[marray := b'] == AddAll(t, ptrs, sizes, clear)[marray := b'];
  }

  lemma OnlyInBlock(f: Field, f': Field, dst: int, len: int, bytes: int)
    requires OnlyThere(f, f', dst, len) && len <= bytes
    ensures forall w {:trigger At(f', w)} :: !(dst <= w < dst + bytes) ==> At(f', w) == At(f, w)
  {}

  lemma NoneAdded(t: Table, clear: bool, chunks: int, mem: int)
    requires chunks == 0 || (chunks in t && mem == chunks)
    ensures AddArray(AddAll(t, [], [], clear), if chunks == 0 then Block(0, map[]) else t[chunks], Answer(mem, []))
         == if chunks == 0 then t[mem := Block(0, map[])] else t
  {
    assert PointerData([]) == map[];
    if chunks != 0 {
      assert t[chunks].data + map[] == t[chunks].data;
      assert t[chunks := t[chunks]] == t;
    }
  }

  /** No elements: an empty array, or nothing at all. */
  method CallNone(m: Mstate, d: Bytes, ghost t: Table, clear: bool, chunks: int, offer: int) returns (mem: int)
    requires Valid(m) && Holds(Lives(m.heap), d.at, t) && (chunks == 0 || chunks in t)
    modifies m, d
    ensures Valid(m) && (mem == 0 ==> unchanged(m)) && (chunks == 0 && mem != 0 ==> mem !in t) && (chunks != 0 ==> mem == chunks)
    ensures GranularityOk(m.granularity) && (mem == 0 <==> Denied(Independent([], clear, chunks), old(WorldOf(m)), m.granularity, offer))
    ensures Holds(Lives(m.heap), d.at,
      if mem == 0 then t else AddArray(AddAll(t, [], [], clear), if chunks == 0 then Block(0, map[]) else t[chunks], Answer(mem, [])))
  {
    hide Valid, Quiet, Lives, Carved, Refused, SysRequest, Fresh, Holds, SameBytes, ElementsClear, AggregateSize, Offered,
         AddArray;
    GranuleOk(m);
    var mp := MapPages(m, SysRequest(m.granularity, ChunkSize(0)), offer);
    ghost var c := m.heap;
    ghost var bytes;
    var ptrs;
    mem, ptrs, bytes := Ialloc.Ialloc(m, d, 0, [], false, clear, chunks, false, mp);
    NoneAdded(t, clear, chunks, mem);
    if chunks == 0 && mem != 0 {
      HoldsServed(c, m.heap, d.at, t, mem, 0, MIN_CHUNK_SIZE);
    }
  }

  method CallIndependent(m: Mstate, d: Bytes, ghost t: Table, sizes: seq<Size>, clear: bool, chunks: int, offer: int)
      returns (mem: int, ptrs: seq<int>)
    requires Valid(m) && Holds(Lives(m.heap), d.at, t) && sizes != [] && Allowed(t, Independent(sizes, clear, chunks))
    modifies m, d
    ensures Valid(m) && (mem == 0 ==> unchanged(m))
    ensures mem != 0 ==>
      && |ptrs| == |sizes| && Distinct(ptrs) && (if chunks != 0 then mem == chunks else mem !in t)
      && forall k {:trigger ptrs[k]} :: 0 <= k < |sizes| ==> ptrs[k] !in t
    ensures GranularityOk(m.granularity) && (mem == 0 <==> Denied(Independent(sizes, clear, chunks), old(WorldOf(m)), m.granularity, offer))
    ensures Holds(Lives(m.heap), d.at,
      if mem == 0 || |ptrs| != |sizes| then t
      else AddArray(AddAll(t, ptrs, sizes, clear), if chunks == 0 then Block(8 * |sizes|, map[]) else t[chunks], Answer(mem, ptrs)))
  {
    hide Valid, Quiet, Lives, Carved, Refused, SysRequest, Fresh, Holds, SameBytes, ElementsClear, AddAll, AggregateSize, Offered,
         Spelled, OnlyThere, PointerData, Requests, AddArray, ChunkSize, PlanOf, Malloced, Picks, SplitUp;
    GranuleOk(m);
    Aggregate(|sizes|, sizes, false, chunks);
    AskedIs(|sizes|, sizes, false, chunks);
    OwnArray(m, d.at, t, |sizes|, chunks);
    var asked := AggregateSize(Requests(|sizes|, sizes, false), chunks) - 8;
    var mp := MapPages(m, SysRequest(m.granularity, ChunkSize(asked)), offer);
    ghost var c, f := m.heap, d.at;
    ghost var bytes;
    mem, ptrs, bytes := Ialloc.Ialloc(m, d, |sizes|, sizes, false, clear, chunks, true, mp);
    if mem != 0 {
      ArrayIs(c, m.heap, Requests(|sizes|, sizes, false), chunks, mem, ptrs);
      HoldsCarved(c, m.heap, f, bytes, t, sizes, clear, chunks, mem, ptrs);
      HoldsPointers(m, bytes, d.at, t, sizes, clear, chunks, mem, ptrs);
    }
  }

  lemma ArrayIs(c: Chunks, c': Chunks, reqs: seq<int>, chunks: int, marray: int, ptrs: seq<int>)
    requires Carved(c, c', reqs, chunks, marray, ptrs)
    ensures chunks != 0 ==> marray == chunks
  {}

  /** A client's array is a block with room for the pointers. */
  lemma OwnArray(m: Mstate, f: Field, t: Table, n: nat, chunks: int)
    requires Valid(m) && Holds(Lives(m.heap), f, t) && (chunks == 0 || (chunks in t && 8 * n <= t[chunks].bytes))
    ensures chunks != 0 ==> chunks - 16 in Lives(m.heap) && 8 * n <= Lives(m.heap)[chunks - 16] - 8
  {
    hide Valid, Lives;
    if chunks != 0 {
      HoldsFor(Lives(m.heap), f, t, chunks);
    }
  }

  // ---- runs

  /** Calls that may allocate. */
  predicate Allocates(op: Op) {
    op.Malloc? || op.Calloc? || op.Memalign? || op.Realloc? || op.Independent?
  }

  /** One call; `offer` is where the system would like to map memory. */
  method Call(m: Mstate, d: Bytes, ghost t: Table, op: Op, offer: int) returns (a: Answer)
    requires Valid(m) && Holds(Lives(m.heap), d.at, t) && Allowed(t, op)
    modifies m, d
    ensures Valid(m) && Holds(Lives(m.heap), d.at, After(t, op, a))
    ensures GranularityOk(m.granularity) && Meets(t, op, a, old(WorldOf(m)), m.granularity, offer)
    ensures Allocates(op) && a.mem == 0 ==> WorldOf(m) == old(WorldOf(m))
  {
    hide Valid, Holds, Lives, AlignedFor, AddAll, AggregateSize, NoRoom, ReallocRefused, PointerData, AddArray, ChunkSize;
    var mem, ptrs := 0, [];
    GranuleOk(m);
    match op {
      case Malloc(bytes) => mem := CallMalloc(m, d, t, bytes, offer);
      case Calloc(n, elem) => mem := CallCalloc(m, d, t, n, elem, offer);
      case Memalign(alignment, bytes) => mem := CallMemalign(m, d, t, alignment, bytes, offer);
      case Realloc(p, bytes) => mem := CallRealloc(m, d, t, p, bytes, offer);
      case Free(p) => CallFree(m, d, t, p);
      case Independent(sizes, clear, chunks) =>
        if sizes == [] {
          mem := CallNone(m, d, t, clear, chunks, offer);
        } else {
          mem, ptrs := CallIndependent(m, d, t, sizes, clear, chunks, offer);
        }
      case Store(p, off, x) => CallStore(m, d, t, p, off, x);
      case Trim(pad) => CallTrim(m, d, t, pad);
    }
    a := Answer(mem, ptrs);
  }

  datatype Event = Event(op: Op, answer: Answer)

  /** The table after the calls of a log. */
  function Replay(log: seq<Event>): Table {
    if log == [] then map[]
    else
      var k := |log| - 1;
      var t := Replay(log[..k]);
      if Allowed(t, log[k].op) then After(t, log[k].op, log[k].answer) else t
  }

  /** Step `i` of a run: the blocks in the heap were those of the client; the call, if it was allowed, was answered as
      promised, and null left the heap as it was; a call that was not allowed was not made. */
  ghost predicate Explained(log: seq<Event>, worlds: seq<World>, g: int, offers: seq<int>, i: nat)
    requires GranularityOk(g)
  {
    && i < |log| && i < |offers| && i + 1 < |worlds|
    && var t, e := Replay(log[..i]), log[i];
      && ViewsExcept(worlds[i], {}) && Owning(t, worlds[i].heap)
      && (if Allowed(t, e.op) then Meets(t, e.op, e.answer, worlds[i], g, offers[i]) else e.answer == Answer(0, []))
      && (e.answer.mem == 0 && (Allocates(e.op) || !Allowed(t, e.op)) ==> worlds[i + 1] == worlds[i])
  }

  /** The blocks in the heap are those in the table. */
  ghost predicate Owning(t: Table, c: Chunks) {
    forall mem {:trigger mem in t} :: mem in t <==> mem - 16 in Lives(c)
  }

  lemma HeldOwning(m: Mstate, f: Field, t: Table)
    requires Valid(m) && Holds(Lives(m.heap), f, t)
    ensures Owning(t, m.heap) && ViewsExcept(WorldOf(m), {}) && WorldOf(m).heap == m.heap
  {
    forall mem
      ensures mem in t <==> mem - 16 in Lives(m.heap)
    {
      HeldKeys(Lives(m.heap), f, t, mem);
    }
    hide ViewsExcept, BinsInv, BooksInv, Lives, Holds;
  }

  lemma ReplayStep(log: seq<Event>, e: Event)
    ensures Replay(log + [e]) == if Allowed(Replay(log), e.op) then After(Replay(log), e.op, e.answer) else Replay(log)
  {
    hide Allowed, After;
    assert (log + [e])[..|log|] == log && (log + [e])[|log|] == e;
  }

  /** Later steps do not change what was said of the earlier ones. */
  lemma ExplainedStill(log: seq<Event>, e: Event, worlds: seq<World>, w: World, g: int, offers: seq<int>, i: nat)
    requires GranularityOk(g) && Explained(log, worlds, g, offers, i)
    ensures Explained(log + [e], worlds + [w], g, offers, i)
  {
    hide Allowed, Meets, Replay, ViewsExcept, Owning;
    assert (log + [e])[..i] == log[..i] && (log + [e])[i] == log[i];
  }

  lemma ExplainedNow(log: seq<Event>, e: Event, worlds: seq<World>, w: World, g: int, offers: seq<int>, t: Table)
    requires GranularityOk(g) && |worlds| == |log| + 1 && |log| < |offers| && t == Replay(log)
    requires var w0 := worlds[|log|];
      && ViewsExcept(w0, {}) && Owning(t, w0.heap)
      && (if Allowed(t, e.op) then Meets(t, e.op, e.answer, w0, g, offers[|log|]) else e.answer == Answer(0, []))
      && (e.answer.mem == 0 && (Allocates(e.op) || !Allowed(t, e.op)) ==> w == w0)
    ensures Explained(log + [e], worlds + [w], g, offers, |log|)
  {
    hide Allowed, Meets, Replay, ViewsExcept, Owning;
    assert (log + [e])[..|log|] == log && (log + [e])[|log|] == e;
  }

  /** Before its first use the allocator is in order. */
  lemma InitialValid(m: Mstate)
    requires GranularityOk(m.granularity)
    requires m.smallmap == 0 && m.treemap == 0 && m.treebins == seq(32, i => 0) && m.dvsize == 0 && m.dv == 0
    requires m.top == 0 && m.topsize == 0 && m.footprint == 0 && m.maxFootprint == 0 && m.segNext == map[]
    requires m.heap == map[] && m.small == seq(32, i => []) && m.nodes == map[] && m.segs == []
    ensures Valid(m)
  {
    EmptySmall(m.head, m.fd, m.bk, m.leastAddr);
    EmptyTreesOk(TreeOf(m), m.fd, m.bk, m.index, m.leastAddr);
    hide SmallInv, TreesInv;
    assert forall s, x :: !Kept(m.small, m.nodes, s, x);
  }

  lemma EmptySmall(h: Heads, fd: Field, bk: Field, least: int)
    ensures SmallInv(h, fd, bk, 0, seq(32, i => []), least)
  {
    NoMarks();
  }

  lemma EmptyTreesOk(m: Tree, fd: Field, bk: Field, index: Field, least: int)
    requires m.bins == seq(32, i => 0) && m.treemap == 0
    ensures TreesInv(m, fd, bk, index, map[], least)
  {
    NoMarks();
  }

  lemma NoMarks()
    ensures IsMap(0) && forall i {:trigger Marked(0, i)} :: 0 <= i < 32 ==> !Marked(0, i)
  {
    EmptyMap(0);
  }

  const NOTHING := World(map[], map[], map[], 0, 0, seq(32, i => []), map[], [], 0, 0)

  /** Any run: from an unused allocator, any calls a client may make, with any answers of the system and any
      munmap failing. No check of the allocator ever fails; every call of the script is made and answered as promised,
      from the heap that the calls before have left; and the client finds in its blocks what it has written. */
  method Run(granularity: int, trimThreshold: int, system: nat -> bool, script: seq<Op>, offers: seq<int>)
      returns (m: Mstate, d: Bytes, t: Table, log: seq<Event>, ghost worlds: seq<World>)
    requires GranularityOk(granularity) && |offers| == |script|
    ensures Valid(m) && Holds(Lives(m.heap), d.at, t) && Sound(t)
    ensures |log| == |script| && (forall i {:trigger log[i]} :: 0 <= i < |script| ==> log[i].op == script[i]) && t == Replay(log)
    ensures |worlds| == |script| + 1 && worlds[0] == NOTHING && worlds[|script|] == WorldOf(m)
    ensures forall i {:trigger Explained(log, worlds, granularity, offers, i)} :: 0 <= i < |script| ==>
      Explained(log, worlds, granularity, offers, i)
  {
    hide Valid, Allowed, After, Meets, Explained, Owning, Holds, Replay, Lives, ViewsExcept, WorldOf;
    m := new Mstate(granularity, trimThreshold, system);
    d := new Bytes();
    t, log := map[], [];
    InitialValid(m);
    InitialWorld(m, d.at);
    worlds := [WorldOf(m)];
    var i := 0;
    while i < |script|
      invariant 0 <= i == |log| <= |script| && fresh(m) && fresh(d) && m.granularity == granularity
      invariant Valid(m) && Holds(Lives(m.heap), d.at, t)
      invariant t == Replay(log) && forall k {:trigger log[k]} :: 0 <= k < i ==> log[k].op == script[k]
      invariant |worlds| == i + 1 && worlds[0] == NOTHING && worlds[i] == WorldOf(m)
      invariant forall k {:trigger Explained(log, worlds, granularity, offers, k)} :: 0 <= k < i ==>
        Explained(log, worlds, granularity, offers, k)
    {
      var a := Answer(0, []);
      HeldOwning(m, d.at, t);
      ghost var t0 := t;
      if Allowed(t, script[i]) {
        a := Call(m, d, t, script[i], offers[i]);
        t := After(t, script[i], a);
      }
      ghost var e := Event(script[i], a);
      ExplainedNow(log, e, worlds, WorldOf(m), granularity, offers, t0);
      forall k {:trigger Explained(log + [e], worlds + [WorldOf(m)], granularity, offers, k)} | 0 <= k < i
        ensures Explained(log + [e], worlds + [WorldOf(m)], granularity, offers, k)
      {
        ExplainedStill(log, e, worlds, WorldOf(m), granularity, offers, k);
      }
      ReplayStep(log, e);
      log, worlds := log + [Event(script[i], a)], worlds + [WorldOf(m)];
      i := i + 1;
    }
    HeldIsSound(m, d.at, t);
  }

  lemma InitialWorld(m: Mstate, f: Field)
    requires m.head == map[] && m.foot == map[] && m.heap == map[] && m.dv == 0 && m.dvsize == 0 && m.small == seq(32, i => [])
    requires m.nodes == map[] && m.segs == [] && m.top == 0 && m.topsize == 0
    ensures WorldOf(m) == NOTHING && Replay([]) == map[] && Holds(Lives(m.heap), f, map[])
  {}

  // ---- an overflow

  /** Two elements of half the address space: their chunk sizes add up to 16 on 64-bit words. */
  lemma HalvesOverflow()
    ensures var reqs := Requests(2, [0x8000_0000_0000_0000, 0x8000_0000_0000_0000], false);
      AggregateSize(reqs, 0) >= W64 && WrappedSize(reqs, 0) == 48
  {
    var e := 0x8000_0000_0000_0008;
    var reqs := Requests(2, [0x8000_0000_0000_0000, 0x8000_0000_0000_0000], false);
    assert Request2Size(0x8000_0000_0000_0000) == e;
    assert reqs == [e, e];
    SumOfSame(reqs, e);
    assert 2 * e == W64 + 16;
    assert Request2Size(16) == 32;
  }

  /** What independent_comalloc then asks malloc for is granted, and the elements do not fit in what it gets. */
  method OverflowExample() returns (m: Mstate, mem: int)
    ensures Valid(m) && mem != 0 && mem - 16 in Lives(m.heap)
    ensures Lives(m.heap)[mem - 16] < 80 && AggregateSize(Requests(2, [0x8000_0000_0000_0000, 0x8000_0000_0000_0000], false), 0) >= W64
  {
    hide Valid, Lives, Served, Chosen, Refused, NoFit, Given, Requests, WrappedSize, SysRequest;
    m := new Mstate(0x1_0000, 0x20_0000, n => true);
    InitialValid(m);
    HalvesOverflow();
    var element_size, contents_size, array_size, size := AggregateRequest(2, [0x8000_0000_0000_0000, 0x8000_0000_0000_0000], false, 0);
    var asked := Sub64(size, 8);
    assert asked == 40 && ChunkSize(40) == 48;
    SysRequestFits(0x1_0000, 48);
    SmallRegion();
    var mp := MapPages(m, SysRequest(m.granularity, ChunkSize(asked)), 0x1_0000);
    ghost var c := m.heap;
    NotRefused(c, m.topsize, m.granularity, 48, mp);
    mem := Dlmalloc(m, asked, mp);
    ServedIsSmaller(m, c, mem - 16, 48);
    ServedSize(m, c, mem - 16, 48);
    NewBlock(m, c, mem - 16, 48);
  }

  lemma SmallRegion()
    ensures GranularityOk(0x1_0000) && SysRequest(0x1_0000, 48) == 0x1_0000 && Offered([], 0x1_0000, 0x1_0000) == 0x1_0000
  {}

  lemma NotRefused(c: Chunks, topsize: int, g: int, nb: int, mp: int)
    requires GranularityOk(g) && IsWord(nb) && SysRequest(g, nb) > nb && mp != CMFAIL
    ensures !Refused(c, topsize, g, nb, mp)
  {
    hide SysRequest;
  }
}
