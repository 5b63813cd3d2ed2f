/** libffi's raw argument buffers: raw_api.c and java_raw_api.c on a little-endian machine with 8-byte words. */
module RawCalls {
  import opened Words
  import opened Rings
  import opened BinMaps
  import opened Alignment
  import opened Aggregates

  datatype Tag = Void | Int | Float | Double | LongDouble | UInt8 | SInt8 | UInt16 | SInt16 | UInt32 | SInt32
               | UInt64 | SInt64 | Struct | Pointer | Complex

  datatype ArgType = ArgType(tag: Tag, size: int)

  /** The bytes of memory. */
  class Store {
    var at: Field
  }

  const WORD: int := 8

  /** Basic types have the sizes their names say. */
  predicate Sized(t: ArgType) {
    && 0 < t.size <= LIMIT
    && (t.tag == UInt8 || t.tag == SInt8 ==> t.size == 1)
    && (t.tag == UInt16 || t.tag == SInt16 ==> t.size == 2)
    && (t.tag == UInt32 || t.tag == SInt32 || t.tag == Float ==> t.size == 4)
    && (t.tag == UInt64 || t.tag == SInt64 || t.tag == Double || t.tag == Pointer ==> t.size == 8)
  }

  ghost predicate ByteField(f: Field) {
    forall a {:trigger At(f, a)} :: 0 <= At(f, a) < 256
  }

  // ---- words in memory

  function Pow256(n: nat): (p: int)
    ensures p >= 1
  {
    if n == 0 then 1 else 256 * Pow256(n - 1)
  }

  /** The little-endian value of `n` bytes. */
  function Load(f: Field, a: int, n: nat): int
    decreases n
  {
    if n == 0 then 0 else At(f, a) + 256 * Load(f, a + 1, n - 1)
  }

  /** The memory after the `n` low bytes of `v` have been stored. */
  function Stored(f: Field, a: int, v: int, n: nat): Field
    requires v >= 0
    decreases n
  {
    if n == 0 then f else Stored(f[a := v % 256], a + 1, v / 256, n - 1)
  }

  function ByteOf(v: int, k: nat): int
    requires v >= 0
  {
    if k == 0 then v % 256 else ByteOf(v / 256, k - 1)
  }

  lemma {:induction false} StoredAt(f: Field, a: int, v: int, n: nat, w: int)
    requires v >= 0
    ensures At(Stored(f, a, v, n), w) == if a <= w < a + n then ByteOf(v, w - a) else At(f, w)
    decreases n
  {
    if n > 0 {
      StoredAt(f[a := v % 256], a + 1, v / 256, n - 1, w);
    }
  }

  lemma {:induction false} LoadBounds(f: Field, a: int, n: nat)
    requires ByteField(f)
    ensures 0 <= Load(f, a, n) < Pow256(n)
    decreases n
  {
    if n > 0 {
      LoadBounds(f, a + 1, n - 1);
    }
  }

  /** The low bytes of a widened value are those it was loaded from. */
  lemma {:induction false} LowBytes(f: Field, a: int, n: nat, c: nat, k: nat)
    requires ByteField(f) && k < n
    ensures Load(f, a, n) >= 0 && Load(f, a, n) + c * Pow256(n) >= 0
    ensures ByteOf(Load(f, a, n) + c * Pow256(n), k) == At(f, a + k)
    decreases n
  {
    LoadBounds(f, a, n);
    LoadBounds(f, a + 1, n - 1);
    var v, u := Load(f, a, n) + c * Pow256(n), Load(f, a + 1, n - 1) + c * Pow256(n - 1);
    Rest(c, Pow256(n - 1));
    assert v == At(f, a) + 256 * u && 0 <= At(f, a) < 256;
    FirstByte(v, At(f, a), u);
    if k > 0 {
      LowBytes(f, a + 1, n - 1, c, k - 1);
    }
  }

  lemma Rest(c: nat, g: int)
    requires g >= 0
    ensures c * (256 * g) == 256 * (c * g) && c * g >= 0
  {}

  lemma FirstByte(v: int, b: int, u: int)
    requires v == b + 256 * u && 0 <= b < 256
    ensures v % 256 == b && v / 256 == u
  {}

  /** A word that has been stored is loaded again. */
  lemma {:induction false} LoadStored(f: Field, a: int, v: int, n: nat)
    requires 0 <= v < Pow256(n)
    ensures Load(Stored(f, a, v, n), a, n) == v
    decreases n
  {
    if n > 0 {
      var f1 := f[a := v % 256];
      LoadStored(f1, a + 1, v / 256, n - 1);
      StoredAt(f1, a + 1, v / 256, n - 1, a);
    }
  }

  lemma Pow256Of8()
    ensures Pow256(1) == 256 && Pow256(2) == 0x1_0000 && Pow256(4) == 0x1_0000_0000 && Pow256(8) == W64
  {
    assert Pow256(3) == 0x100_0000;
    assert Pow256(5) == 0x100_0000_0000;
    assert Pow256(6) == 0x1_0000_0000_0000;
    assert Pow256(7) == 0x100_0000_0000_0000;
  }

  /** The 64-bit word for `n` bytes, zero- or sign-extended. */
  function Extended(f: Field, a: int, n: nat, signed: bool): int {
    var v := Load(f, a, n);
    if signed && 2 * v >= Pow256(n) then v - Pow256(n) + W64 else v
  }

  lemma ExtendedLow(f: Field, a: int, n: nat, signed: bool, k: nat)
    requires ByteField(f) && k < n && (n == 1 || n == 2 || n == 4 || n == 8)
    ensures 0 <= Extended(f, a, n, signed) < W64 && ByteOf(Extended(f, a, n, signed), k) == At(f, a + k)
  {
    LoadBounds(f, a, n);
    Pow256Of8();
    LowBytes(f, a, n, 0, k);
    var c := if n == 1 then 0xFF_FFFF_FFFF_FFFF else if n == 2 then 0xFFFF_FFFF_FFFF else if n == 4 then 0xFFFF_FFFF else 0;
    assert c * Pow256(n) == W64 - Pow256(n);
    LowBytes(f, a, n, c, k);
  }

  /** What `n` bytes with the little-endian value `v` mean as a signed number. */
  function TwosComplement(v: int, n: nat): int {
    if 2 * v < Pow256(n) then v else v - Pow256(n)
  }

  /** Widening keeps the value: the unsigned one, or the signed one. */
  lemma ExtendedMeans(f: Field, a: int, n: nat, signed: bool)
    requires ByteField(f) && (n == 1 || n == 2 || n == 4 || n == 8)
    ensures !signed ==> Extended(f, a, n, signed) == Load(f, a, n)
    ensures signed ==> TwosComplement(Extended(f, a, n, signed), 8) == TwosComplement(Load(f, a, n), n)
  {
    LoadBounds(f, a, n);
    Pow256Of8();
  }

  /** The bytes `[dst, dst + n)` now hold those from `src`, as they were; nothing changed outside of the `len`
      bytes from `dst` on. */
  ghost predicate Copied(f: Field, f': Field, dst: int, src: int, n: int, len: int) {
    && (forall k {:trigger Same(f, f', dst, src, k)} :: 0 <= k < n ==> Same(f, f', dst, src, k))
    && (forall w {:trigger At(f', w)} :: !(dst <= w < dst + len) ==> At(f', w) == At(f, w))
  }

  ghost predicate Same(f: Field, f': Field, dst: int, src: int, k: int) {
    At(f', dst + k) == At(f, src + k)
  }

  /** `raw->uint = ...` and the like: a whole word is written. */
  method StoreExtended(m: Store, dst: int, src: int, n: nat, signed: bool)
    requires ByteField(m.at) && (n == 1 || n == 2 || n == 4 || n == 8)
    modifies m
    ensures ByteField(m.at) && Copied(old(m.at), m.at, dst, src, n, WORD)
    ensures Load(m.at, dst, 8) == Extended(old(m.at), src, n, signed)
  {
    hide Extended, Load;
    ghost var f := m.at;
    ExtendedLow(f, src, n, signed, 0);
    var v := Extended(m.at, src, n, signed);
    Pow256Of8();
    LoadStored(f, dst, v, 8);
    m.at := Stored(m.at, dst, v, 8);
    StoredBytes(f, dst, v, 8);
    forall k | 0 <= k < n
      ensures Same(f, m.at, dst, src, k)
    {
      ExtendedLow(f, src, n, signed, k);
      StoredAt(f, dst, v, 8, dst + k);
    }
    forall w {:trigger At(m.at, w)} | !(dst <= w < dst + WORD)
      ensures At(m.at, w) == At(f, w)
    {
      StoredAt(f, dst, v, 8, w);
    }
  }

  lemma {:induction false} StoredBytes(f: Field, a: int, v: int, n: nat)
    requires ByteField(f) && v >= 0
    ensures ByteField(Stored(f, a, v, n))
    decreases n
  {
    if n > 0 {
      var f1 := f[a := v % 256];
      assert forall w {:trigger At(f1, w)} :: At(f1, w) == if w == a then v % 256 else At(f, w);
      StoredBytes(f1, a + 1, v / 256, n - 1);
    }
  }

  /** A narrow integer is widened according to its type. */
  method StoreWidened(m: Store, dst: int, src: int, t: ArgType)
    requires ByteField(m.at) && Sized(t) && Widened(t.tag)
    modifies m
    ensures ByteField(m.at) && Copied(old(m.at), m.at, dst, src, t.size, WORD) && Widens(old(m.at), m.at, dst, src, t)
  {
    hide Load, Extended, Copied, ByteField, TwosComplement;
    ExtendedMeans(m.at, src, t.size, IsSigned(t.tag));
    StoreExtended(m, dst, src, t.size, IsSigned(t.tag));
  }

  /** `raw->ptr = p`. */
  method StorePointer(m: Store, dst: int, p: int)
    requires ByteField(m.at) && IsWord(p)
    modifies m
    ensures ByteField(m.at) && Load(m.at, dst, 8) == p
    ensures forall w {:trigger At(m.at, w)} :: !(dst <= w < dst + WORD) ==> At(m.at, w) == old(At(m.at, w))
  {
    ghost var f := m.at;
    Pow256Of8();
    LoadStored(f, dst, p, 8);
    StoredBytes(f, dst, p, 8);
    m.at := Stored(m.at, dst, p, 8);
    forall w {:trigger At(m.at, w)} | !(dst <= w < dst + WORD)
      ensures At(m.at, w) == At(f, w)
    {
      StoredAt(f, dst, p, 8, w);
    }
  }

  /** memcpy. */
  method CopyBytes(m: Store, dst: int, src: int, n: nat)
    requires ByteField(m.at) && (dst + n <= src || src + n <= dst)
    modifies m
    ensures ByteField(m.at) && Copied(old(m.at), m.at, dst, src, n, n)
  {
    ghost var f := m.at;
    var k := 0;
    while k < n
      invariant 0 <= k <= n && ByteField(m.at) && Copied(f, m.at, dst, src, k, k)
    {
      ghost var g := m.at;
      m.at := m.at[dst + k := At(m.at, src + k)];
      assert forall w {:trigger At(m.at, w)} :: At(m.at, w) == if w == dst + k then At(g, src + k) else At(g, w);
      forall j {:trigger Same(f, m.at, dst, src, j)} | 0 <= j < k + 1
        ensures Same(f, m.at, dst, src, j)
      {
        if j < k {
          assert Same(f, g, dst, src, j);
        }
      }
      k := k + 1;
    }
  }

  // ---- slots

  /** `FFI_ALIGN(size, 8) / 8` words, in bytes. */
  function Cell(t: ArgType): int
    requires t.size > 0
  {
    if t.tag == Struct || t.tag == Complex then WORD else Up(t.size, WORD)
  }

  /** The same in the Java layout: longs and doubles take two words. */
  function JavaCell(t: ArgType): int {
    if t.tag == UInt64 || t.tag == SInt64 || t.tag == Double then 2 * WORD else WORD
  }

  predicate AllSized(ts: seq<ArgType>) {
    forall i {:trigger ts[i]} :: 0 <= i < |ts| ==> Sized(ts[i])
  }

  /** Where argument `i` starts in the buffer. */
  ghost function Offset(ts: seq<ArgType>, java: bool, i: nat): int
    requires AllSized(ts) && i <= |ts|
  {
    if i == 0 then 0 else Offset(ts, java, i - 1) + (if java then JavaCell(ts[i - 1]) else Cell(ts[i - 1]))
  }

  lemma CellCovers(t: ArgType)
    requires Sized(t)
    ensures Cell(t) >= WORD && Cell(t) % WORD == 0 && (t.tag != Struct && t.tag != Complex ==> t.size <= Cell(t) < t.size + WORD)
    ensures IsWord(t.size) && PowerOfTwo(WORD) && FfiAlign(t.size, WORD) == Up(t.size, WORD)
    ensures FfiAlign(WORD, WORD) == WORD
  {
    hide FfiAlign, PowerOfTwo, Up;
    EightIsPower();
    UpIsLeast(t.size, WORD);
    FfiAlignRoundsUp(t.size, WORD);
    FfiAlignRoundsUp(WORD, WORD);
    UpOfWord();
  }

  lemma EightIsPower()
    ensures PowerOfTwo(8)
  {
    assert Pow2(1) == 2 && Pow2(2) == 4 && Pow2(3) == 8;
  }

  lemma UpOfWord()
    ensures Up(8, 8) == 8
  {}

  lemma {:induction false} OffsetGrows(ts: seq<ArgType>, java: bool, i: nat, j: nat)
    requires AllSized(ts) && i <= j <= |ts|
    ensures 0 <= Offset(ts, java, i) <= Offset(ts, java, j)
    decreases j
  {
    hide Cell, FfiAlign, Up, PowerOfTwo;
    if j > 0 {
      CellCovers(ts[j - 1]);
      OffsetGrows(ts, java, if i < j then i else i - 1, j - 1);
    }
  }

  /** The arguments lie outside the buffer. */
  ghost predicate Apart(ts: seq<ArgType>, args: seq<int>, raw: int, len: int)
    requires |args| == |ts|
  {
    forall i {:trigger args[i]} :: 0 <= i < |ts| ==> args[i] + ts[i].size <= raw || raw + len <= args[i]
  }

  /** The whole word in the slot of an argument that is widened says the same number as the argument. */
  ghost predicate Widens(f: Field, f': Field, slot: int, arg: int, t: ArgType) {
    match t.tag
    case UInt8 => Load(f', slot, 8) == Load(f, arg, 1)
    case UInt16 => Load(f', slot, 8) == Load(f, arg, 2)
    case UInt32 => Load(f', slot, 8) == Load(f, arg, 4)
    case SInt8 => TwosComplement(Load(f', slot, 8), 8) == TwosComplement(Load(f, arg, 1), 1)
    case SInt16 => TwosComplement(Load(f', slot, 8), 8) == TwosComplement(Load(f, arg, 2), 2)
    case SInt32 => TwosComplement(Load(f', slot, 8), 8) == TwosComplement(Load(f, arg, 4), 4)
    case _ => true
  }

  lemma NotWidened(f: Field, f': Field, slot: int, arg: int, t: ArgType)
    ensures !Widened(t.tag) ==> Widens(f, f', slot, arg, t)
  {}

  /** Only the words at the slot and the bytes of the argument matter. */
  lemma WidensStill(f: Field, g: Field, f': Field, g': Field, slot: int, arg: int, t: ArgType)
    requires Sized(t) && Widens(f, f', slot, arg, t)
    requires forall w {:trigger At(g, w)} :: arg <= w < arg + t.size ==> At(g, w) == At(f, w)
    requires forall w {:trigger At(g', w)} :: slot <= w < slot + WORD ==> At(g', w) == At(f', w)
    ensures Widens(g, g', slot, arg, t)
  {
    hide Load, TwosComplement;
    LoadSame(f, g, arg, t.size);
    LoadSame(f', g', slot, 8);
  }

  /** What the buffer says about argument `i`. */
  ghost predicate Holds(f: Field, f': Field, ts: seq<ArgType>, args: seq<int>, raw: int, java: bool, i: int)
    requires AllSized(ts) && |args| == |ts| && 0 <= i < |ts|
  {
    var slot := raw + Offset(ts, java, i);
    if ts[i].tag == Struct || ts[i].tag == Complex then Load(f', slot, 8) == args[i]
    else
      && (forall k {:trigger Same(f, f', slot, args[i], k)} :: 0 <= k < ts[i].size ==> Same(f, f', slot, args[i], k))
      && Widens(f, f', slot, args[i], ts[i])
  }

  /** The bytes that an argument takes of its slot. */
  function Written(t: ArgType): int {
    if t.tag == Struct || t.tag == Complex || t.tag == Pointer || Widened(t.tag) then WORD else t.size
  }

  /** The rest of the slot is as it was. */
  ghost predicate PaddingLeft(f: Field, f': Field, ts: seq<ArgType>, raw: int, java: bool, i: int)
    requires AllSized(ts) && 0 <= i < |ts|
  {
    forall w {:trigger At(f', w)} :: Offset(ts, java, i) + Written(ts[i]) <= w - raw < Offset(ts, java, i + 1) ==> At(f', w) == At(f, w)
  }

  /** The first `i` arguments are in the buffer; nothing else has changed. */
  ghost predicate Filled(f: Field, f': Field, ts: seq<ArgType>, args: seq<int>, raw: int, java: bool, i: nat)
    requires AllSized(ts) && |args| == |ts| && i <= |ts|
  {
    && (forall j {:trigger Holds(f, f', ts, args, raw, java, j)} :: 0 <= j < i ==> Holds(f, f', ts, args, raw, java, j))
    && (forall j {:trigger PaddingLeft(f, f', ts, raw, java, j)} :: 0 <= j < i ==> PaddingLeft(f, f', ts, raw, java, j))
    && (forall w {:trigger At(f', w)} :: !(raw <= w < raw + Offset(ts, java, i)) ==> At(f', w) == At(f, w))
  }

  lemma {:induction false} LoadSame(f: Field, g: Field, a: int, n: nat)
    requires forall w {:trigger At(g, w)} :: a <= w < a + n ==> At(g, w) == At(f, w)
    ensures Load(g, a, n) == Load(f, a, n)
    decreases n
  {
    if n > 0 {
      LoadSame(f, g, a + 1, n - 1);
    }
  }

  ghost predicate Fresh(f: Field, g: Field, slot: int, len: int) {
    forall w {:trigger At(g, w)} :: !(slot <= w < slot + len) ==> At(g, w) == At(f, w)
  }

  /** Filling the next slot. */
  lemma FilledStep(f: Field, f': Field, g: Field, ts: seq<ArgType>, args: seq<int>, raw: int, java: bool, i: nat, len: int)
    requires AllSized(ts) && |args| == |ts| && i < |ts| && Filled(f, f', ts, args, raw, java, i)
    requires Fresh(f', g, raw + Offset(ts, java, i), len) && 0 <= len == Written(ts[i])
    requires len <= Offset(ts, java, i + 1) - Offset(ts, java, i) && Holds(f, g, ts, args, raw, java, i)
    requires java ==> JavaArg(ts)
    ensures Filled(f, g, ts, args, raw, java, i + 1)
  {
    hide Load, Offset, Cell, JavaCell, Holds, AllSized, Sized, Written;
    OffsetGrows(ts, java, i, i + 1);
    forall j {:trigger PaddingLeft(f, g, ts, raw, java, j)} | 0 <= j < i + 1
      ensures PaddingLeft(f, g, ts, raw, java, j)
    {
      if j < i {
        OffsetGrows(ts, java, j + 1, i);
        assert PaddingLeft(f, f', ts, raw, java, j);
      }
    }
    forall j {:trigger Holds(f, g, ts, args, raw, java, j)} | 0 <= j < i + 1
      ensures Holds(f, g, ts, args, raw, java, j)
    {
      if j < i {
        HoldsStill(f, f', g, ts, args, raw, java, j, i, len);
      }
    }
  }

  lemma HoldsStill(f: Field, f': Field, g: Field, ts: seq<ArgType>, args: seq<int>, raw: int, java: bool, j: nat, i: nat, len: int)
    requires AllSized(ts) && |args| == |ts| && j < i < |ts| && Holds(f, f', ts, args, raw, java, j)
    requires Fresh(f', g, raw + Offset(ts, java, i), len)
    requires java ==> JavaArg(ts)
    ensures Holds(f, g, ts, args, raw, java, j)
  {
    hide Offset, Cell, JavaCell, Load, AllSized, Sized, Up, Widens;
    var slot := raw + Offset(ts, java, j);
    SlotEnds(ts, java, j, i);
    if ts[j].tag == Struct || ts[j].tag == Complex {
      LoadSame(f', g, slot, 8);
    } else {
      SizedAt(ts, j);
      WidensStill(f, f, f', g, slot, args[j], ts[j]);
      forall k {:trigger Same(f, g, slot, args[j], k)} | 0 <= k < ts[j].size
        ensures Same(f, g, slot, args[j], k)
      {
        assert Same(f, f', slot, args[j], k);
      }
    }
  }

  lemma SizedAt(ts: seq<ArgType>, j: nat)
    requires AllSized(ts) && j < |ts|
    ensures Sized(ts[j])
  {}

  /** A slot has room for its argument and ends before the next begins. */
  lemma SlotEnds(ts: seq<ArgType>, java: bool, j: nat, i: nat)
    requires AllSized(ts) && j < i <= |ts| && (java ==> JavaArg(ts))
    ensures Offset(ts, java, j) + WORD <= Offset(ts, java, i) && Offset(ts, java, j) >= 0
    ensures ts[j].tag != Struct && ts[j].tag != Complex ==> Offset(ts, java, j) + ts[j].size <= Offset(ts, java, i)
  {
    hide Cell, JavaCell, Offset, Sized, FfiAlign, Up, PowerOfTwo;
    OffsetGrows(ts, java, 0, j);
    OffsetGrows(ts, java, j + 1, i);
    OffsetStep(ts, java, j);
    CellCovers(ts[j]);
    JavaCellCovers(ts, java, j);
  }

  lemma OffsetStep(ts: seq<ArgType>, java: bool, j: nat)
    requires AllSized(ts) && j < |ts|
    ensures Offset(ts, java, j + 1) == Offset(ts, java, j) + (if java then JavaCell(ts[j]) else Cell(ts[j]))
  {}

  /** The words a converter steps over. */
  lemma CellWords(t: ArgType)
    requires Sized(t)
    ensures IsWord(t.size)
    ensures t.tag == Struct || t.tag == Complex ==> Cell(t) == WORD
    ensures t.tag != Struct && t.tag != Complex ==> FfiAlign(t.size, WORD) / WORD * WORD == Cell(t)
    ensures Widened(t.tag) || t.tag == Pointer ==> Cell(t) == WORD
  {
    hide FfiAlign, PowerOfTwo, Up;
    CellCovers(t);
    if t.tag != Struct && t.tag != Complex {
      WholeWords(Up(t.size, WORD));
      OneWord(t.size);
    }
  }

  lemma OneWord(size: int)
    requires size > 0
    ensures size <= WORD ==> Up(size, WORD) == WORD
  {}

  lemma JavaCellCovers(ts: seq<ArgType>, java: bool, j: nat)
    requires AllSized(ts) && j < |ts| && (java ==> JavaArg(ts))
    ensures java ==> ts[j].size <= WORD && JavaCell(ts[j]) >= WORD
  {
    assert Sized(ts[j]);
    assert java ==> JavaTag(ts[j].tag);
  }

  /** A slot is the least whole number of words for what it holds; in Java's layout it is one word, or two for a
      number of 64 bits. */
  lemma SlotFits(ts: seq<ArgType>, i: nat)
    requires AllSized(ts) && i < |ts|
    ensures var n := Offset(ts, false, i + 1) - Offset(ts, false, i);
      n % WORD == 0 && Written(ts[i]) <= n < Written(ts[i]) + WORD
    ensures JavaArg(ts) ==>
      var n := Offset(ts, true, i + 1) - Offset(ts, true, i);
      n == if ts[i].size == 8 && ts[i].tag != Pointer then 2 * WORD else WORD
  {
    hide Offset, Cell, FfiAlign, Up, PowerOfTwo;
    SizedAt(ts, i);
    OffsetStep(ts, false, i);
    OffsetStep(ts, true, i);
    CellCovers(ts[i]);
    CellWords(ts[i]);
    assert JavaArg(ts) ==> JavaTag(ts[i].tag);
  }

  // ---- raw_api.c

  /** ffi_raw_size. */
  method RawSize(ts: seq<ArgType>) returns (result: int)
    requires AllSized(ts)
    ensures result == Offset(ts, false, |ts|) + ComplexExtra(ts, |ts|)
  {
    hide FfiAlign, Up, PowerOfTwo, AllSized, Sized;
    result := 0;
    var at := 0;
    while at < |ts|
      invariant 0 <= at <= |ts| && result == Offset(ts, false, at) + ComplexExtra(ts, at)
    {
      SizedAt(ts, at);
      CellCovers(ts[at]);
      if ts[at].tag == Struct {
        result := result + FfiAlign(WORD, WORD);
      } else {
        result := result + FfiAlign(ts[at].size, WORD);
      }
      at := at + 1;
    }
  }

  /** What ffi_raw_size counts for complex arguments beyond the one word that they take. */
  ghost function ComplexExtra(ts: seq<ArgType>, n: nat): int
    requires AllSized(ts) && n <= |ts|
  {
    if n == 0 then 0
    else ComplexExtra(ts, n - 1) + (if ts[n - 1].tag == Complex then Up(ts[n - 1].size, WORD) - WORD else 0)
  }

  /** The size is exact just when no complex argument takes more than a word. */
  lemma {:induction false} ExactUnlessComplex(ts: seq<ArgType>, n: nat)
    requires AllSized(ts) && n <= |ts|
    ensures ComplexExtra(ts, n) >= 0
    ensures ComplexExtra(ts, n) == 0 <==> forall i {:trigger ts[i]} :: 0 <= i < n && ts[i].tag == Complex ==> ts[i].size <= WORD
  {
    if n > 0 {
      ExactUnlessComplex(ts, n - 1);
      UpIsLeast(ts[n - 1].size, WORD);
      assert WORD % WORD == 0;
    }
  }

  /** ffi_raw_to_ptrarray. */
  method RawToPtrArray(m: Store, ts: seq<ArgType>, raw0: int) returns (args: seq<int>, end: int)
    requires AllSized(ts)
    ensures |args| == |ts| && end == raw0 + Offset(ts, false, |ts|)
    ensures forall i {:trigger args[i]} :: 0 <= i < |ts| ==>
      args[i] == (if ts[i].tag == Struct || ts[i].tag == Complex then Load(m.at, raw0 + Offset(ts, false, i), 8)
                  else raw0 + Offset(ts, false, i))
  {
    hide Load, Offset, Cell, FfiAlign, Up;
    var raw, i := raw0, 0;
    args := [];
    NoOffset(ts, false);
    while i < |ts|
      invariant 0 <= i <= |ts| && |args| == i && raw == raw0 + Offset(ts, false, i)
      invariant forall j {:trigger args[j]} :: 0 <= j < i ==>
        args[j] == (if ts[j].tag == Struct || ts[j].tag == Complex then Load(m.at, raw0 + Offset(ts, false, j), 8)
                    else raw0 + Offset(ts, false, j))
    {
      CellWords(ts[i]);
      OffsetStep(ts, false, i);
      if ts[i].tag == Struct {
        args := args + [Load(m.at, raw, 8)];
        raw := raw + WORD;
      } else if ts[i].tag == Complex {
        args := args + [Load(m.at, raw, 8)];
        raw := raw + WORD;
      } else {
        args := args + [raw];
        raw := raw + FfiAlign(ts[i].size, WORD) / WORD * WORD;
      }
      i := i + 1;
    }
    end := raw;
  }

  lemma NoOffset(ts: seq<ArgType>, java: bool)
    requires AllSized(ts)
    ensures Offset(ts, java, 0) == 0
  {}

  lemma WholeWords(x: int)
    requires x % WORD == 0
    ensures x / WORD * WORD == x
  {}

  /** The tags for which ffi_ptrarray_to_raw widens a value to a word. */
  predicate Widened(t: Tag) {
    t == UInt8 || t == SInt8 || t == UInt16 || t == SInt16 || t == UInt32 || t == SInt32
  }

  predicate IsSigned(t: Tag) {
    t == SInt8 || t == SInt16 || t == SInt32
  }

  /** Java types, in libffi's terms. */
  predicate JavaArg(ts: seq<ArgType>) {
    forall i {:trigger ts[i]} :: 0 <= i < |ts| ==> JavaTag(ts[i].tag)
  }

  predicate JavaTag(t: Tag) {
    Widened(t) || t == UInt64 || t == SInt64 || t == Float || t == Double || t == Pointer
  }

  /** The arguments are where the client has left them. */
  lemma ArgumentUntouched(f: Field, g: Field, f': Field, ts: seq<ArgType>, args: seq<int>, raw: int, java: bool, i: nat, len: int)
    requires AllSized(ts) && |args| == |ts| && i < |ts| && Filled(f, f', ts, args, raw, java, i)
    requires Apart(ts, args, raw, Offset(ts, java, |ts|))
    requires ts[i].tag != Struct && ts[i].tag != Complex
    requires Copied(f', g, raw + Offset(ts, java, i), args[i], ts[i].size, len)
    requires Widens(f', g, raw + Offset(ts, java, i), args[i], ts[i])
    ensures Holds(f, g, ts, args, raw, java, i) && Fresh(f', g, raw + Offset(ts, java, i), len)
  {
    hide Offset, Load, AllSized, Sized, Widens;
    OffsetGrows(ts, java, i, |ts|);
    var slot := raw + Offset(ts, java, i);
    SizedAt(ts, i);
    assert args[i] + ts[i].size <= raw || raw + Offset(ts, java, |ts|) <= args[i];
    WidensStill(f', f, g, g, slot, args[i], ts[i]);
    forall k {:trigger Same(f, g, slot, args[i], k)} | 0 <= k < ts[i].size
      ensures Same(f, g, slot, args[i], k)
    {
      assert Same(f', g, slot, args[i], k);
    }
  }

  /** ffi_ptrarray_to_raw: every argument gets into its slot, and only the buffer changes. */
  method PtrArrayToRaw(m: Store, ts: seq<ArgType>, args: seq<int>, raw0: int) returns (end: int)
    requires AllSized(ts) && |args| == |ts| && ByteField(m.at) && (forall i {:trigger args[i]} :: 0 <= i < |args| ==> IsWord(args[i]))
    requires Apart(ts, args, raw0, Offset(ts, false, |ts|))
    modifies m
    ensures ByteField(m.at) && Filled(old(m.at), m.at, ts, args, raw0, false, |ts|) && end == raw0 + Offset(ts, false, |ts|)
  {
    hide Load, Copied, Holds, Filled, Apart, ByteField;
    ghost var f := m.at;
    var raw, i := raw0, 0;
    NothingFilled(f, ts, args, raw0, false);
    while i < |ts|
      invariant 0 <= i <= |ts| && raw == raw0 + Offset(ts, false, i) && ByteField(m.at)
      invariant Filled(f, m.at, ts, args, raw0, false, i)
    {
      raw := PutArgument(m, ts, args, raw0, raw, i, f);
      i := i + 1;
    }
    end := raw;
  }

  lemma NothingFilled(f: Field, ts: seq<ArgType>, args: seq<int>, raw: int, java: bool)
    requires AllSized(ts) && |args| == |ts|
    ensures Filled(f, f, ts, args, raw, java, 0)
  {}

  /** One argument of ffi_ptrarray_to_raw. */
  method PutArgument(m: Store, ts: seq<ArgType>, args: seq<int>, ghost raw0: int, raw: int, i: nat, ghost f: Field) returns (next: int)
    requires AllSized(ts) && |args| == |ts| && i < |ts| && ByteField(m.at) && IsWord(args[i])
    requires Apart(ts, args, raw0, Offset(ts, false, |ts|)) && raw == raw0 + Offset(ts, false, i)
    requires Filled(f, m.at, ts, args, raw0, false, i)
    modifies m
    ensures ByteField(m.at) && Filled(f, m.at, ts, args, raw0, false, i + 1) && next == raw0 + Offset(ts, false, i + 1)
  {
    hide Load, Holds, Filled, Apart, ByteField, Offset, Cell, FfiAlign, Up, Copied, AllSized, Sized, Widens, Fresh;
    var t := ts[i];
    SizedAt(ts, i);
    SlotEnds(ts, false, i, i + 1);
    CellWords(t);
    OffsetStep(ts, false, i);
    ghost var f' := m.at;
    ghost var len := WORD;
    SlotApart(ts, args, raw0, i);
    if Widened(t.tag) {
      StoreWidened(m, raw, args[i], t);
      ArgumentUntouched(f, m.at, f', ts, args, raw0, false, i, len);
      next := raw + WORD;
    } else if t.tag == Struct || t.tag == Complex {
      StorePointer(m, raw, args[i]);
      PointerHeld(f, f', m.at, ts, args, raw0, i);
      next := raw + WORD;
    } else if t.tag == Pointer {
      StoreExtended(m, raw, args[i], 8, false);
      NotWidened(f', m.at, raw, args[i], t);
      ArgumentUntouched(f, m.at, f', ts, args, raw0, false, i, len);
      next := raw + WORD;
    } else {
      len := t.size;
      CopyBytes(m, raw, args[i], t.size);
      NotWidened(f', m.at, raw, args[i], t);
      ArgumentUntouched(f, m.at, f', ts, args, raw0, false, i, len);
      next := raw + FfiAlign(t.size, WORD) / WORD * WORD;
    }
    FilledStep(f, f', m.at, ts, args, raw0, false, i, len);
  }

  lemma SlotApart(ts: seq<ArgType>, args: seq<int>, raw: int, i: nat)
    requires AllSized(ts) && |args| == |ts| && i < |ts| && Apart(ts, args, raw, Offset(ts, false, |ts|))
    ensures var slot := raw + Offset(ts, false, i);
      ts[i].tag != Struct && ts[i].tag != Complex ==> args[i] + ts[i].size <= slot || slot + ts[i].size <= args[i]
  {
    hide Offset, Cell;
    SlotEnds(ts, false, i, |ts|);
    assert args[i] == args[i];
  }

  lemma PointerHeld(f: Field, f': Field, g: Field, ts: seq<ArgType>, args: seq<int>, raw: int, i: nat)
    requires AllSized(ts) && |args| == |ts| && i < |ts| && (ts[i].tag == Struct || ts[i].tag == Complex)
    requires Load(g, raw + Offset(ts, false, i), 8) == args[i]
    requires forall w {:trigger At(g, w)} :: !(raw + Offset(ts, false, i) <= w < raw + Offset(ts, false, i) + WORD) ==> At(g, w) == At(f', w)
    ensures Holds(f, g, ts, args, raw, false, i) && Fresh(f', g, raw + Offset(ts, false, i), WORD)
  {}

  /** To raw and back: the new pointers read what the old ones did, structures and complex numbers through the
      old pointers themselves. */
  method RoundTrip(m: Store, ts: seq<ArgType>, args: seq<int>, raw: int) returns (back: seq<int>)
    requires AllSized(ts) && |args| == |ts| && ByteField(m.at) && (forall i {:trigger args[i]} :: 0 <= i < |args| ==> IsWord(args[i]))
    requires Apart(ts, args, raw, Offset(ts, false, |ts|))
    modifies m
    ensures |back| == |ts|
    ensures forall i {:trigger back[i]} :: 0 <= i < |ts| ==> ReadsAs(old(m.at), m.at, back[i], args[i], ts[i].size)
  {
    hide Load, Offset, Apart, Filled, ReadsAs, ByteField, AllSized;
    ghost var f := m.at;
    var end := PtrArrayToRaw(m, ts, args, raw);
    var end';
    back, end' := RawToPtrArray(m, ts, raw);
    forall i {:trigger back[i]} | 0 <= i < |ts|
      ensures ReadsAs(f, m.at, back[i], args[i], ts[i].size)
    {
      ReadsBack(f, m.at, ts, args, raw, false, i, back[i]);
    }
  }

  /** Through pointer `p` memory `f'` reads as `f` does through `q`. */
  ghost predicate ReadsAs(f: Field, f': Field, p: int, q: int, size: int) {
    forall k {:trigger Same(f, f', p, q, k)} :: 0 <= k < size ==> Same(f, f', p, q, k)
  }

  lemma ReadsBack(f: Field, f': Field, ts: seq<ArgType>, args: seq<int>, raw: int, java: bool, i: nat, p: int)
    requires AllSized(ts) && |args| == |ts| && i < |ts|
    requires Filled(f, f', ts, args, raw, java, |ts|) && Apart(ts, args, raw, Offset(ts, java, |ts|))
    requires p == if ts[i].tag == Struct || ts[i].tag == Complex then Load(f', raw + Offset(ts, java, i), 8) else raw + Offset(ts, java, i)
    ensures ReadsAs(f, f', p, args[i], ts[i].size)
  {
    hide Load, Offset, AllSized;
    assert Holds(f, f', ts, args, raw, java, i);
    assert args[i] + ts[i].size <= raw || raw + Offset(ts, java, |ts|) <= args[i];
    forall k {:trigger Same(f, f', p, args[i], k)} | 0 <= k < ts[i].size
      ensures Same(f, f', p, args[i], k)
    {
      if ts[i].tag == Struct || ts[i].tag == Complex {
        assert p == args[i] && At(f', args[i] + k) == At(f, args[i] + k);
      } else {
        assert Same(f, f', raw + Offset(ts, java, i), args[i], k);
      }
    }
  }

  // ---- java_raw_api.c

  /** ffi_java_raw_size. */
  method JavaRawSize(ts: seq<ArgType>) returns (result: int)
    requires AllSized(ts) && JavaArg(ts)
    ensures result == Offset(ts, true, |ts|)
  {
    result := 0;
    var at := 0;
    while at < |ts|
      invariant 0 <= at <= |ts| && result == Offset(ts, true, at)
    {
      match ts[at].tag {
        case UInt64 => result := result + 2 * WORD;
        case SInt64 => result := result + 2 * WORD;
        case Double => result := result + 2 * WORD;
        case _ => result := result + WORD;
      }
      at := at + 1;
    }
  }

  /** ffi_java_raw_to_ptrarray. */
  method JavaRawToPtrArray(m: Store, ts: seq<ArgType>, raw0: int) returns (args: seq<int>, end: int)
    requires AllSized(ts) && JavaArg(ts)
    ensures |args| == |ts| && end == raw0 + Offset(ts, true, |ts|)
    ensures forall i {:trigger args[i]} :: 0 <= i < |ts| ==> args[i] == raw0 + Offset(ts, true, i)
  {
    var raw, i := raw0, 0;
    args := [];
    while i < |ts|
      invariant 0 <= i <= |ts| && |args| == i && raw == raw0 + Offset(ts, true, i)
      invariant forall j {:trigger args[j]} :: 0 <= j < i ==> args[j] == raw0 + Offset(ts, true, j)
    {
      args := args + [raw];
      if ts[i].tag == UInt64 || ts[i].tag == SInt64 || ts[i].tag == Double {
        raw := raw + 2 * WORD;
      } else {
        raw := raw + WORD;
      }
      i := i + 1;
    }
    end := raw;
  }

  /** ffi_java_ptrarray_to_raw. */
  method JavaPtrArrayToRaw(m: Store, ts: seq<ArgType>, args: seq<int>, raw0: int) returns (end: int)
    requires AllSized(ts) && JavaArg(ts) && |args| == |ts| && ByteField(m.at)
    requires Apart(ts, args, raw0, Offset(ts, true, |ts|))
    modifies m
    ensures ByteField(m.at) && Filled(old(m.at), m.at, ts, args, raw0, true, |ts|) && end == raw0 + Offset(ts, true, |ts|)
  {
    hide Load, Copied, Holds, Filled, Apart, ByteField;
    ghost var f := m.at;
    var raw, i := raw0, 0;
    NothingFilled(f, ts, args, raw0, true);
    while i < |ts|
      invariant 0 <= i <= |ts| && raw == raw0 + Offset(ts, true, i) && ByteField(m.at)
      invariant Filled(f, m.at, ts, args, raw0, true, i)
    {
      raw := PutJavaArgument(m, ts, args, raw0, raw, i, f);
      i := i + 1;
    }
    end := raw;
  }

  /** One argument of ffi_java_ptrarray_to_raw. */
  method PutJavaArgument(m: Store, ts: seq<ArgType>, args: seq<int>, ghost raw0: int, raw: int, i: nat, ghost f: Field) returns (next: int)
    requires AllSized(ts) && JavaArg(ts) && |args| == |ts| && i < |ts| && ByteField(m.at)
    requires Apart(ts, args, raw0, Offset(ts, true, |ts|)) && raw == raw0 + Offset(ts, true, i)
    requires Filled(f, m.at, ts, args, raw0, true, i)
    modifies m
    ensures ByteField(m.at) && Filled(f, m.at, ts, args, raw0, true, i + 1) && next == raw0 + Offset(ts, true, i + 1)
  {
    hide Load, Holds, Filled, Apart, ByteField, Offset, Copied, Widens;
    var t := ts[i];
    assert JavaTag(t.tag) && Sized(t);
    JavaSlotApart(ts, args, raw0, i);
    OffsetStep(ts, true, i);
    ghost var f' := m.at;
    ghost var len := WORD;
    if Widened(t.tag) {
      StoreWidened(m, raw, args[i], t);
      next := raw + WORD;
    } else if t.tag == Float {
      len := 4;
      CopyBytes(m, raw, args[i], 4);
      next := raw + WORD;
    } else if t.tag == UInt64 || t.tag == SInt64 || t.tag == Double {
      StoreExtended(m, raw, args[i], 8, false);
      next := raw + 2 * WORD;
    } else {
      StoreExtended(m, raw, args[i], 8, false);
      next := raw + WORD;
    }
    NotWidened(f', m.at, raw, args[i], t);
    ArgumentUntouched(f, m.at, f', ts, args, raw0, true, i, len);
    FilledStep(f, f', m.at, ts, args, raw0, true, i, len);
  }

  lemma JavaSlotApart(ts: seq<ArgType>, args: seq<int>, raw: int, i: nat)
    requires AllSized(ts) && JavaArg(ts) && |args| == |ts| && i < |ts| && Apart(ts, args, raw, Offset(ts, true, |ts|))
    ensures var slot := raw + Offset(ts, true, i);
      args[i] + ts[i].size <= slot || slot + ts[i].size <= args[i]
    ensures Offset(ts, true, i + 1) - Offset(ts, true, i) >= WORD
  {
    hide Offset, JavaCell;
    SlotEnds(ts, true, i, i + 1);
    SlotEnds(ts, true, i, |ts|);
    assert args[i] == args[i] && JavaTag(ts[i].tag);
  }

  /** The same round trip over the Java layout. */
  method JavaRoundTrip(m: Store, ts: seq<ArgType>, args: seq<int>, raw: int) returns (back: seq<int>)
    requires AllSized(ts) && JavaArg(ts) && |args| == |ts| && ByteField(m.at)
    requires Apart(ts, args, raw, Offset(ts, true, |ts|))
    modifies m
    ensures |back| == |ts|
    ensures forall i {:trigger back[i]} :: 0 <= i < |ts| ==> ReadsAs(old(m.at), m.at, back[i], args[i], ts[i].size)
  {
    ghost var f := m.at;
    var end := JavaPtrArrayToRaw(m, ts, args, raw);
    var end';
    back, end' := JavaRawToPtrArray(m, ts, raw);
    forall i {:trigger back[i]} | 0 <= i < |ts|
      ensures ReadsAs(f, m.at, back[i], args[i], ts[i].size)
    {
      assert JavaTag(ts[i].tag);
      ReadsBack(f, m.at, ts, args, raw, true, i, back[i]);
    }
  }
}
