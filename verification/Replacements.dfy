/** XResources: resource replacements behind lossy bitmasks. */
module Replacements {
  import opened Words
  import opened BinMaps

  /** A resource directory; the framework's is null. */
  datatype Dir = Framework | App(path: string)

  /** A replacement object; Java's null included. */
  datatype Value = Null | Object(o: int)

  datatype Outcome<T> = Returned(value: T) | IllegalState | IllegalArgument | NullPointer

  const APP_IDS: int := 0x7f00_0000

  type Id = x: int | -0x8000_0000 <= x < 0x8000_0000

  /** The bits of a Java int. */
  function Word(id: Id): nat {
    if id >= 0 then id else id + 0x1_0000_0000
  }

  // ---- the bitmasks

  /** `(id & 0x00070000) >> 11 | (id & 0xf8) >> 3`. */
  function SystemKey(id: Id): nat {
    Or(Shr(And(Word(id), 0x70000), 11), Shr(And(Word(id), 0xf8), 3))
  }

  /** `(id & 0x00070000) >> 12 | (id & 0x78) >> 3`. */
  function AppKey(id: Id): nat {
    Or(Shr(And(Word(id), 0x70000), 12), Shr(And(Word(id), 0x78), 3))
  }

  /** `1 << (id & 7)`. */
  function Flag(id: Id): nat {
    Pow2(And(Word(id), 7))
  }

  lemma {:induction false} OrAtMost(x: nat, y: nat)
    ensures Or(x, y) <= x + y
  {
    if x != 0 && y != 0 {
      OrAtMost(x / 2, y / 2);
    }
  }

  lemma {:induction false} AndAtMost(x: nat, y: nat)
    ensures And(x, y) <= y
  {
    if x != 0 && y != 0 {
      AndAtMost(x / 2, y / 2);
    }
  }

  /** The keys are in range. */
  lemma KeysInRange(id: Id)
    ensures SystemKey(id) < 256 && AppKey(id) < 128 && And(Word(id), 7) <= 7
  {
    var u := Word(id);
    AndAtMost(u, 0x70000);
    AndAtMost(u, 0xf8);
    AndAtMost(u, 0x78);
    AndAtMost(u, 7);
    ShrMonotone(And(u, 0x70000), 0x70000, 11);
    ShrMonotone(And(u, 0x70000), 0x70000, 12);
    ShrMonotone(And(u, 0xf8), 0xf8, 3);
    ShrMonotone(And(u, 0x78), 0x78, 3);
    Shifts();
    OrAtMost(Shr(And(u, 0x70000), 11), Shr(And(u, 0xf8), 3));
    OrAtMost(Shr(And(u, 0x70000), 12), Shr(And(u, 0x78), 3));
  }

  lemma Shifts()
    ensures Shr(0x70000, 11) == 0xe0 && Shr(0x70000, 12) == 0x70 && Shr(0xf8, 3) == 0x1f && Shr(0x78, 3) == 0xf
  {
    assert Shr(0x70000, 4) == 0x7000;
    assert Shr(0x70000, 8) == 0x700;
  }

  /** Bit `k` of byte `b`, as the code tests it. */
  lemma TestsBit(b: nat, k: nat)
    requires b < 256 && k <= 7
    ensures And(b, Pow2(k)) != 0 <==> Bit(b, k) == 1
  {
    assert Pow2(4) == 16 && Pow2(8) == 256;
    ZeroIffNoBits(And(b, Pow2(k)), 8);
    forall j: nat
      ensures Bit(And(b, Pow2(k)), j) == 1 <==> Bit(b, j) == 1 && j == k
    {
      AndBits(b, Pow2(k), j);
      Pow2Bits(k, j);
    }
    if And(b, Pow2(k)) == 0 {
      assert !Marked(And(b, Pow2(k)), k);
    } else {
      var j :| 0 <= j < 8 && Marked(And(b, Pow2(k)), j);
    }
  }

  lemma SetsBit(b: nat, k: nat, j: nat)
    requires b < 256 && k <= 7
    ensures Or(b, Pow2(k)) < 256
    ensures Bit(Or(b, Pow2(k)), j) == 1 <==> j == k || Bit(b, j) == 1
  {
    assert Pow2(4) == 16 && Pow2(8) == 256;
    Pow2Monotone(k, 7);
    OrBelow(b, Pow2(k), 8);
    OrBits(b, Pow2(k), j);
    Pow2Bits(k, j);
  }

  /** The mask has the bit for `id` at `key`. */
  ghost predicate Flagged(mask: array<int>, key: nat, id: Id)
    reads mask
  {
    key < mask.Length && mask[key] >= 0 && Bit(mask[key], And(Word(id), 7)) == 1
  }

  ghost predicate Mask(mask: array<int>, n: nat)
    reads mask
  {
    mask.Length == n && forall i {:trigger mask[i]} :: 0 <= i < mask.Length ==> 0 <= mask[i] < 256
  }

  // ---- the state

  type Inner = map<Dir, Value>

  type CacheMap = map<string, array<int>>

  /** Caches stay where they are. */
  ghost predicate Grown(m: CacheMap, m': CacheMap) {
    forall e {:trigger m[e]} {:trigger e in m} :: e in m ==> e in m' && m'[e] == m[e]
  }

  /** What all XResources objects share. */
  class Statics {
    var replacements: map<Id, Inner>
    const systemCache: array<int>
    var cacheMap: CacheMap
    var lastModified: map<string, int>

    constructor ()
      ensures replacements == map[] && cacheMap == map[] && lastModified == map[]
      ensures fresh(systemCache) && systemCache.Length == 256 && forall i :: 0 <= i < 256 ==> systemCache[i] == 0
    {
      replacements, cacheMap, lastModified := map[], map[], map[];
      systemCache := new int[256](i => 0);
    }

    /** Every array that serves as a cache. */
    ghost function Caches(): set<array<int>>
      reads this
    {
      {systemCache} + (set d | d in cacheMap :: cacheMap[d])
    }

    /** Whatever may be found is flagged in the mask that would be asked about it. */
    ghost predicate Valid()
      reads this, Caches()
    {
      && Mask(systemCache, 256)
      && (forall d {:trigger cacheMap[d]} :: d in cacheMap ==> Mask(cacheMap[d], 128) && cacheMap[d] != systemCache)
      && (forall d, e {:trigger cacheMap[d], cacheMap[e]} :: d in cacheMap && e in cacheMap && d != e ==> cacheMap[d] != cacheMap[e])
      && (forall id, d {:trigger d in replacements[id]} :: id in replacements && d in replacements[id] ==> Known(id, d))
    }

    ghost predicate Known(id: Id, d: Dir)
      reads this, Caches()
    {
      if id < APP_IDS then Flagged(systemCache, SystemKey(id), id)
      else d.App? && d.path in cacheMap && Flagged(cacheMap[d.path], AppKey(id), id)
    }

    /** A set flag leaves all others. */
    method FlagSystem(id: Id)
      requires Valid()
      modifies systemCache
      ensures Valid() && (id < APP_IDS ==> Known(id, Framework))
    {
      KeysInRange(id);
      SetFlag(systemCache, SystemKey(id), And(Word(id), 7));
    }

    method FlagApp(path: string, id: Id)
      requires Valid() && path in cacheMap
      modifies cacheMap[path]
      ensures Valid() && (id >= APP_IDS ==> Known(id, App(path)))
    {
      KeysInRange(id);
      SetFlag(cacheMap[path], AppKey(id), And(Word(id), 7));
    }

    method Record(id: Id, d: Dir, v: Value)
      requires Valid() && Known(id, d)
      modifies this`replacements
      ensures Valid() && replacements == Put(old(replacements), id, d, v)
    {
      hide Flagged, Mask;
      replacements := Put(replacements, id, d, v);
    }

    method Seen(path: string, modified: int)
      requires Valid()
      modifies this`lastModified
      ensures Valid() && lastModified == old(lastModified)[path := modified]
    {
      hide Flagged, Mask;
      lastModified := lastModified[path := modified];
    }

    method Forget(d: Dir)
      requires Valid()
      modifies this`replacements
      ensures Valid() && replacements == Without(old(replacements), d)
    {
      hide Flagged, Mask;
      replacements := Without(replacements, d);
    }

    method ClearCache(path: string)
      requires Valid() && path in cacheMap && forall id {:trigger replacements[id]} :: id in replacements ==> App(path) !in replacements[id]
      modifies cacheMap[path]
      ensures Valid() && forall i :: 0 <= i < cacheMap[path].Length ==> cacheMap[path][i] == 0
    {
      ClearMask(cacheMap[path]);
    }

    /** The cache of a directory, made when there is none yet. */
    method CacheFor(path: string) returns (c: array<int>)
      requires Valid()
      modifies this`cacheMap
      ensures Valid() && path in cacheMap && cacheMap[path] == c
      ensures Grown(old(cacheMap), cacheMap)
      ensures fresh(Caches() - old(Caches()))
    {
      if path in cacheMap {
        c := cacheMap[path];
      } else {
        c := new int[128](i => 0);
        cacheMap := cacheMap[path := c];
      }
    }
  }

  class XResources {
    var inited: bool
    var dir: Dir
    var cache: array?<int>

    constructor ()
      ensures !inited && dir == Framework && cache == null
    {
      inited, dir, cache := false, Framework, null;
    }

    /** Objects of one directory share one cache; there is none before initialization has got that far. */
    ghost predicate Attached(s: Statics)
      reads this, s
    {
      && (cache != null ==> inited && dir.App? && dir.path in s.cacheMap && s.cacheMap[dir.path] == cache)
      && (inited && dir.App? ==> cache != null)
    }

    /** initObject; `named` tells whether a package name can be found for the directory. */
    method InitObject(s: Statics, d: Dir, named: bool) returns (r: Outcome<()>)
      requires s.Valid() && Attached(s)
      modifies this, s`cacheMap
      ensures s.Valid() && Attached(s)
      ensures Grown(old(s.cacheMap), s.cacheMap)
      ensures old(inited) ==> r == IllegalState && unchanged(this)
      ensures !old(inited) ==> dir == d && inited == (d == Framework || named) && r == (if inited then Returned(()) else IllegalState)
      ensures fresh(s.Caches() - old(s.Caches()))
    {
      hide Statics.Valid, Statics.Known, Flagged, Mask;
      if inited {
        return IllegalState;
      }
      if d.App? && !named {
        Become(d, null, false, s);
        return IllegalState;
      }
      var c: array?<int> := null;
      if d.App? {
        c := s.CacheFor(d.path);
      }
      Become(d, c, true, s);
      r := Returned(());
    }

    method Become(d: Dir, c: array?<int>, done: bool, ghost s: Statics)
      requires s.Valid()
      modifies this
      ensures s.Valid() && s.Caches() == old(s.Caches())
      ensures dir == d && cache == c && inited == done
    {
      dir, cache, inited := d, c, done;
    }

    /** isFirstLoad; `modified` is the file's time of modification. A changed file loses its replacements, and its
        mask is cleared. */
    method IsFirstLoad(s: Statics, modified: int) returns (r: Outcome<bool>)
      requires s.Valid() && Attached(s)
      modifies s`replacements, s`lastModified, cache
      ensures s.Valid() && Attached(s) && s.cacheMap == old(s.cacheMap)
      ensures r == LoadOutcome(dir, cache == null, old(s.lastModified), modified)
      ensures s.lastModified == if dir.App? then old(s.lastModified)[dir.path := modified] else old(s.lastModified)
      ensures s.replacements == if Changed(dir, old(s.lastModified), modified) then Without(old(s.replacements), dir) else old(s.replacements)
      ensures forall i, d ::
        Entry(s.replacements, i, d) == if d == dir && Changed(dir, old(s.lastModified), modified) then Null else Entry(old(s.replacements), i, d)
      ensures cache != null && Changed(dir, old(s.lastModified), modified) ==> forall i :: 0 <= i < cache.Length ==> cache[i] == 0
      ensures cache != null && !Changed(dir, old(s.lastModified), modified) ==> cache[..] == old(cache[..])
    {
      hide Statics.Valid, Statics.Known, Flagged, Mask;
      if dir == Framework {
        return Returned(false);
      }
      if dir.path in s.lastModified && s.lastModified[dir.path] == modified {
        assert s.lastModified == s.lastModified[dir.path := modified];
        return Returned(false);
      }
      var known := dir.path in s.lastModified;
      s.Seen(dir.path, modified);
      if !known {
        return Returned(true);
      }
      s.Forget(dir);
      if cache == null {
        return NullPointer;
      }
      s.ClearCache(dir.path);
      r := Returned(true);
    }

    /** setReplacement on this object; `drawable` tells of a kind of replacement that is no longer allowed. */
    method SetReplacement(s: Statics, id: Id, value: Value, drawable: bool) returns (r: Outcome<()>)
      requires s.Valid() && Attached(s)
      modifies s`replacements, s.systemCache, cache
      ensures s.Valid() && Attached(s) && s.cacheMap == old(s.cacheMap)
      ensures r == SetOutcome(dir, cache == null, id, drawable)
      ensures r == IllegalArgument <==> id == 0 || drawable || (dir == Framework && id >= APP_IDS)
      ensures r == NullPointer <==> r != IllegalArgument && id >= APP_IDS && cache == null
      ensures r == Returned(()) ==> Entry(s.replacements, id, dir) == value
      ensures forall i, d :: r != Returned(()) || i != id || d != dir ==> Entry(s.replacements, i, d) == Entry(old(s.replacements), i, d)
      ensures s.replacements == if r == Returned(()) then Put(old(s.replacements), id, dir, value) else old(s.replacements)
    {
      if id == 0 || (dir == Framework && id >= APP_IDS) || drawable {
        return IllegalArgument;
      }
      if id < APP_IDS {
        s.FlagSystem(id);
      } else if cache == null {
        return NullPointer;
      } else {
        s.FlagApp(dir.path, id);
      }
      s.Record(id, dir, value);
      r := Returned(());
    }

    /** getReplacement: the mask never hides anything. */
    method GetReplacement(s: Statics, id: Id) returns (r: Outcome<Value>)
      requires s.Valid() && Attached(s)
      ensures id <= 0 ==> r == Returned(Null)
      ensures id > 0 ==> r == if id >= APP_IDS && dir.App? && cache == null then NullPointer else Returned(Lookup(s.replacements, id, dir))
      ensures r.Returned? && id > 0 ==>
        r.value == if Entry(s.replacements, id, dir) != Null then Entry(s.replacements, id, dir) else Entry(s.replacements, id, Framework)
    {
      if id <= 0 {
        return Returned(Null);
      }
      KeysInRange(id);
      if id < APP_IDS {
        TestsBit(s.systemCache[SystemKey(id)], And(Word(id), 7));
        if And(s.systemCache[SystemKey(id)], Flag(id)) == 0 {
          NothingUnflagged(s, id);
          return Returned(Null);
        }
      } else if dir.App? {
        if cache == null {
          return NullPointer;
        }
        TestsBit(cache[AppKey(id)], And(Word(id), 7));
        if And(cache[AppKey(id)], Flag(id)) == 0 {
          NothingUnflagged(s, id);
          return Returned(Null);
        }
      }
      if id !in s.replacements {
        return Returned(Null);
      }
      var inner := s.replacements[id];
      var result := Get(inner, dir);
      if result != Null || dir == Framework {
        return Returned(result);
      }
      return Returned(Get(inner, Framework));
    }

    lemma NothingUnflagged(s: Statics, id: Id)
      requires s.Valid() && Attached(s) && id > 0 && (id >= APP_IDS ==> cache != null)
      requires if id < APP_IDS then !Flagged(s.systemCache, SystemKey(id), id) else !Flagged(cache, AppKey(id), id)
      ensures Lookup(s.replacements, id, dir) == Null
    {}
  }

  function Get(inner: Inner, d: Dir): Value {
    if d in inner then inner[d] else Null
  }

  /** What is recorded for an id and a directory. */
  function Entry(rs: map<Id, Inner>, id: Id, d: Dir): Value {
    if id in rs then Get(rs[id], d) else Null
  }

  /** The plain lookup: the directory's own replacement, else the framework's. */
  function Lookup(rs: map<Id, Inner>, id: Id, d: Dir): Value {
    if id !in rs then Null
    else if Get(rs[id], d) != Null then Get(rs[id], d)
    else Get(rs[id], Framework)
  }

  function Put(rs: map<Id, Inner>, id: Id, d: Dir, v: Value): map<Id, Inner> {
    rs[id := (if id in rs then rs[id] else map[])[d := v]]
  }

  function Without(rs: map<Id, Inner>, d: Dir): map<Id, Inner> {
    map id | id in rs :: rs[id] - {d}
  }

  /** The file has been seen before, with another time of modification. */
  predicate Changed(d: Dir, seen: map<string, int>, modified: int) {
    d.App? && d.path in seen && seen[d.path] != modified
  }

  /** What isFirstLoad answers. */
  function LoadOutcome(d: Dir, bare: bool, seen: map<string, int>, modified: int): Outcome<bool> {
    if d == Framework then Returned(false)
    else if Changed(d, seen, modified) && bare then NullPointer
    else Returned(!(d.path in seen && seen[d.path] == modified))
  }

  method ClearMask(mask: array<int>)
    modifies mask
    ensures forall k :: 0 <= k < mask.Length ==> mask[k] == 0
  {
    var i := 0;
    while i < mask.Length
      invariant 0 <= i <= mask.Length
      invariant forall k :: 0 <= k < i ==> mask[k] == 0
    {
      mask[i] := 0;
      i := i + 1;
    }
  }

  /** What setReplacement answers. */
  function SetOutcome(d: Dir, bare: bool, id: Id, drawable: bool): Outcome<()> {
    if id == 0 || (d == Framework && id >= APP_IDS) || drawable then IllegalArgument
    else if id >= APP_IDS && bare then NullPointer
    else Returned(())
  }

  /** `mask[key] |= 1 << k`. */
  method SetFlag(mask: array<int>, key: nat, k: nat)
    requires key < mask.Length && Mask(mask, mask.Length) && k <= 7
    modifies mask
    ensures Mask(mask, mask.Length)
    ensures forall i :: 0 <= i < mask.Length && i != key ==> mask[i] == old(mask[i])
    ensures forall j: nat {:trigger Bit(mask[key], j)} :: Bit(mask[key], j) == 1 <==> j == k || Bit(old(mask[key]), j) == 1
  {
    ghost var b := mask[key];
    SetsBit(b, k, 0);
    mask[key] := Or(mask[key], Pow2(k));
    forall j: nat {:trigger Bit(mask[key], j)}
      ensures Bit(mask[key], j) == 1 <==> j == k || Bit(b, j) == 1
    {
      SetsBit(b, k, j);
    }
  }

  // ---- any number of objects

  datatype Op =
    | New
    | Init(k: nat, d: Dir, named: bool)
    | Load(k: nat, modified: int)
    | Set(k: nat, id: Id, v: Value, drawable: bool)
    | Look(k: nat, id: Id)

  datatype Answer = Did(r: Outcome<()>) | Loaded(b: Outcome<bool>) | Got(v: Outcome<Value>)

  /** An object without its cache. */
  datatype Plain = Plain(dir: Dir, inited: bool)

  /** Everything without the caches. */
  datatype Model = Model(objects: seq<Plain>, replacements: map<Id, Inner>, lastModified: map<string, int>)

  predicate Bare(o: Plain) {
    !(o.inited && o.dir.App?)
  }

  function ModelAfter(w: Model, op: Op): Model {
    match op
    case New => w.(objects := w.objects + [Plain(Framework, false)])
    case Init(k, d, named) =>
      if k < |w.objects| && !w.objects[k].inited then w.(objects := w.objects[k := Plain(d, d == Framework || named)]) else w
    case Load(k, modified) =>
      if k < |w.objects| && w.objects[k].dir.App? then
        w.(lastModified := w.lastModified[w.objects[k].dir.path := modified],
           replacements := if Changed(w.objects[k].dir, w.lastModified, modified) then Without(w.replacements, w.objects[k].dir)
                           else w.replacements)
      else w
    case Set(k, id, v, drawable) =>
      if k < |w.objects| && SetOutcome(w.objects[k].dir, Bare(w.objects[k]), id, drawable) == Returned(())
      then w.(replacements := Put(w.replacements, id, w.objects[k].dir, v)) else w
    case Look(_, _) => w
  }

  function ModelAnswer(w: Model, op: Op): Answer {
    match op
    case New => Did(Returned(()))
    case Init(k, d, named) =>
      Did(if k < |w.objects| && !w.objects[k].inited && (d == Framework || named) then Returned(()) else IllegalState)
    case Load(k, modified) =>
      if k < |w.objects| then Loaded(LoadOutcome(w.objects[k].dir, Bare(w.objects[k]), w.lastModified, modified)) else Loaded(IllegalState)
    case Set(k, id, v, drawable) =>
      Did(if k < |w.objects| then SetOutcome(w.objects[k].dir, Bare(w.objects[k]), id, drawable) else IllegalState)
    case Look(k, id) =>
      if k >= |w.objects| then Got(IllegalState)
      else if id > 0 && id >= APP_IDS && w.objects[k].dir.App? && !w.objects[k].inited then Got(NullPointer)
      else Got(Returned(if id <= 0 then Null else Lookup(w.replacements, id, w.objects[k].dir)))
  }

  function ModelRun(ops: seq<Op>): Model {
    if ops == [] then Model([], map[], map[]) else ModelAfter(ModelRun(ops[..|ops| - 1]), ops[|ops| - 1])
  }

  function ModelAnswers(ops: seq<Op>): seq<Answer> {
    if ops == [] then []
    else ModelAnswers(ops[..|ops| - 1]) + [ModelAnswer(ModelRun(ops[..|ops| - 1]), ops[|ops| - 1])]
  }

  /** The objects are what the model says. */
  ghost predicate Follows(s: Statics, objs: seq<XResources>, w: Model)
    reads s, set k | 0 <= k < |objs| :: objs[k]
  {
    && |objs| == |w.objects| && s.replacements == w.replacements && s.lastModified == w.lastModified
    && (forall i, j :: 0 <= i < j < |objs| ==> objs[i] != objs[j])
    && (forall k {:trigger objs[k]} :: 0 <= k < |objs| ==>
         objs[k].Attached(s) && objs[k].dir == w.objects[k].dir && objs[k].inited == w.objects[k].inited)
  }

  method CallInit(s: Statics, objs: seq<XResources>, k: nat, d: Dir, named: bool, ghost w: Model) returns (a: Answer)
    requires k < |objs| && s.Valid() && Follows(s, objs, w)
    modifies s, s.Caches(), set i | 0 <= i < |objs| :: objs[i]
    ensures s.Valid() && Follows(s, objs, ModelAfter(w, Init(k, d, named))) && a == ModelAnswer(w, Init(k, d, named))
    ensures fresh(s.Caches() - old(s.Caches()))
  {
    hide Statics.Valid, Statics.Known, Flagged, Mask;
    var r := objs[k].InitObject(s, d, named);
    a := Did(r);
  }

  method CallLoad(s: Statics, objs: seq<XResources>, k: nat, modified: int, ghost w: Model) returns (a: Answer)
    requires k < |objs| && s.Valid() && Follows(s, objs, w)
    modifies s, s.Caches(), set i | 0 <= i < |objs| :: objs[i]
    ensures s.Valid() && Follows(s, objs, ModelAfter(w, Load(k, modified))) && a == ModelAnswer(w, Load(k, modified))
    ensures fresh(s.Caches() - old(s.Caches()))
  {
    hide Statics.Valid, Statics.Known, Flagged, Mask, Without, LoadOutcome;
    var b := objs[k].IsFirstLoad(s, modified);
    a := Loaded(b);
  }

  method CallSet(s: Statics, objs: seq<XResources>, k: nat, id: Id, v: Value, drawable: bool, ghost w: Model) returns (a: Answer)
    requires k < |objs| && s.Valid() && Follows(s, objs, w)
    modifies s, s.Caches(), set i | 0 <= i < |objs| :: objs[i]
    ensures s.Valid() && Follows(s, objs, ModelAfter(w, Set(k, id, v, drawable))) && a == ModelAnswer(w, Set(k, id, v, drawable))
    ensures fresh(s.Caches() - old(s.Caches()))
  {
    hide Statics.Valid, Statics.Known, Flagged, Mask, Put, SetOutcome;
    var r := objs[k].SetReplacement(s, id, v, drawable);
    a := Did(r);
  }

  method Step(s: Statics, objs: seq<XResources>, op: Op, ghost w: Model) returns (objs': seq<XResources>, a: Answer)
    requires s.Valid() && Follows(s, objs, w)
    modifies s, s.Caches(), set k | 0 <= k < |objs| :: objs[k]
    ensures s.Valid() && Follows(s, objs', ModelAfter(w, op)) && a == ModelAnswer(w, op)
    ensures fresh(s.Caches() - old(s.Caches()))
    ensures forall k :: 0 <= k < |objs'| ==> (k < |objs| && objs'[k] == objs[k]) || fresh(objs'[k])
  {
    hide Statics.Valid, Statics.Known, Flagged, Mask, Lookup, Put, Without, LoadOutcome, SetOutcome;
    objs' := objs;
    a := Did(IllegalState);
    match op {
      case New =>
        var o := new XResources();
        objs' := objs + [o];
        a := Did(Returned(()));
      case Init(k, d, named) =>
        if k < |objs| {
          a := CallInit(s, objs, k, d, named, w);
        }
      case Load(k, modified) =>
        a := Loaded(IllegalState);
        if k < |objs| {
          a := CallLoad(s, objs, k, modified, w);
        }
      case Set(k, id, v, drawable) =>
        if k < |objs| {
          a := CallSet(s, objs, k, id, v, drawable, w);
        }
      case Look(k, id) =>
        a := Got(IllegalState);
        if k < |objs| {
          var v := objs[k].GetReplacement(s, id);
          a := Got(v);
        }
    }
  }

  // ---- what a lookup finds, told by the calls before it

  /** By call `j` there is an object `k`, and it has the directory `d`. */
  ghost predicate Of(ops: seq<Op>, j: nat, k: nat, d: Dir)
    requires j <= |ops|
  {
    var os := ModelRun(ops[..j]).objects;
    k < |os| && os[k].dir == d
  }

  /** Call `j` is a setReplacement for `id` on an object of the directory, and succeeds. */
  ghost predicate SetAt(ops: seq<Op>, j: nat, id: Id, d: Dir) {
    j < |ops| && ops[j].Set? && ops[j].id == id && Of(ops, j, ops[j].k, d)
    && ModelAnswer(ModelRun(ops[..j]), ops[j]) == Did(Returned(()))
  }

  /** Call `j` is an isFirstLoad on an object of the app directory. */
  ghost predicate LoadAt(ops: seq<Op>, j: nat, d: Dir) {
    j < |ops| && ops[j].Load? && d.App? && Of(ops, j, ops[j].k, d)
  }

  ghost predicate LastLoad(ops: seq<Op>, j: nat, d: Dir) {
    LoadAt(ops, j, d) && forall i: nat :: j < i ==> !LoadAt(ops, i, d)
  }

  /** Call `j` finds another time of modification than the isFirstLoad before it. */
  ghost predicate ForgetAt(ops: seq<Op>, j: nat, d: Dir) {
    LoadAt(ops, j, d) && exists i: nat :: LastLoad(ops[..j], i, d) && ops[i].modified != ops[j].modified
  }

  /** The last setReplacement for `id` and the directory, not forgotten since. */
  ghost predicate LastSet(ops: seq<Op>, j: nat, id: Id, d: Dir) {
    SetAt(ops, j, id, d) && forall i: nat :: j < i ==> !SetAt(ops, i, id, d) && !ForgetAt(ops, i, d)
  }

  /** What it has set. */
  ghost function Latest(ops: seq<Op>, id: Id, d: Dir): Value {
    if j: nat :| LastSet(ops, j, id, d) then ops[j].v else Null
  }

  /** What has happened stays so. */
  lemma SamePast(ops: seq<Op>, n: nat, j: nat, id: Id, d: Dir)
    requires j < n <= |ops|
    ensures SetAt(ops[..n], j, id, d) <==> SetAt(ops, j, id, d)
    ensures LoadAt(ops[..n], j, d) <==> LoadAt(ops, j, d)
    ensures ForgetAt(ops[..n], j, d) <==> ForgetAt(ops, j, d)
  {
    hide ModelRun, ModelAnswer, LastLoad;
    assert ops[..n][..j] == ops[..j];
    assert ops[..n][j] == ops[j];
    forall i: nat | LastLoad(ops[..j], i, d)
      ensures i < j && ops[..n][i] == ops[i]
    {
      LoadedBefore(ops, j, i, d);
    }
  }

  lemma LoadedBefore(ops: seq<Op>, j: nat, i: nat, d: Dir)
    requires j <= |ops| && LastLoad(ops[..j], i, d)
    ensures i < j && ops[i].Load?
  {}

  /** The last isFirstLoad is what it was, or this one. */
  lemma LastLoadStep(ops: seq<Op>, d: Dir, j: nat)
    requires ops != []
    ensures var n := |ops| - 1;
      LastLoad(ops, j, d) <==> if LoadAt(ops, n, d) then j == n else LastLoad(ops[..n], j, d)
  {
    hide LoadAt;
    var n := |ops| - 1;
    forall i: nat
      ensures i < n ==> (LoadAt(ops[..n], i, d) <==> LoadAt(ops, i, d))
      ensures (LoadAt(ops, i, d) ==> i <= n) && (LoadAt(ops[..n], i, d) ==> i < n)
    {
      LoadInRange(ops, i, d);
      LoadInRange(ops[..n], i, d);
      if i < n {
        SamePast(ops, n, i, 0, d);
      }
    }
  }

  lemma LoadInRange(ops: seq<Op>, i: nat, d: Dir)
    ensures LoadAt(ops, i, d) ==> i < |ops| && ops[i].Load?
  {}

  /** The time that is kept of a file is that of the last isFirstLoad. */
  lemma {:induction false} SeenIs(ops: seq<Op>, d: Dir)
    requires d.App?
    ensures var seen := ModelRun(ops).lastModified;
      && (d.path in seen <==> exists j: nat :: LastLoad(ops, j, d))
      && (forall j: nat :: LastLoad(ops, j, d) ==> d.path in seen && ops[j].modified == seen[d.path])
  {
    if ops != [] {
      var n := |ops| - 1;
      SeenIs(ops[..n], d);
      SeenStep(ops, d);
      hide LastLoad, LoadAt, ModelRun;
      forall j: nat
        ensures LastLoad(ops, j, d) <==> if LoadAt(ops, n, d) then j == n else LastLoad(ops[..n], j, d)
        ensures LastLoad(ops[..n], j, d) ==> j < n && ops[..n][j] == ops[j]
      {
        LastLoadStep(ops, d, j);
        if LastLoad(ops[..n], j, d) {
          LoadedBefore(ops, n, j, d);
        }
      }
    }
  }

  lemma SeenStep(ops: seq<Op>, d: Dir)
    requires ops != [] && d.App?
    ensures var n := |ops| - 1;
      var seen, seen' := ModelRun(ops[..n]).lastModified, ModelRun(ops).lastModified;
      if LoadAt(ops, n, d) then d.path in seen' && seen'[d.path] == ops[n].modified
      else (d.path in seen' <==> d.path in seen) && (d.path in seen ==> seen'[d.path] == seen[d.path])
  {
    hide Without, Put, SetOutcome, Changed;
    assert ModelRun(ops) == ModelAfter(ModelRun(ops[..|ops| - 1]), ops[|ops| - 1]);
  }

  lemma EntryAfterLoad(w: Model, k: nat, modified: int, id: Id, d: Dir)
    ensures Entry(ModelAfter(w, Load(k, modified)).replacements, id, d)
      == if k < |w.objects| && w.objects[k].dir == d && Changed(d, w.lastModified, modified) then Null
         else Entry(w.replacements, id, d)
  {}

  lemma EntryAfterSet(w: Model, k: nat, id0: Id, v: Value, drawable: bool, id: Id, d: Dir)
    ensures var op := Set(k, id0, v, drawable);
      Entry(ModelAfter(w, op).replacements, id, d)
      == if id == id0 && k < |w.objects| && w.objects[k].dir == d && ModelAnswer(w, op) == Did(Returned(())) then v
         else Entry(w.replacements, id, d)
  {
    hide SetOutcome;
  }

  /** A call forgets what was recorded for a directory, or records something, or leaves it alone. */
  lemma EntryStep(ops: seq<Op>, id: Id, d: Dir)
    requires ops != []
    ensures var n := |ops| - 1;
      Entry(ModelRun(ops).replacements, id, d)
      == if SetAt(ops, n, id, d) then ops[n].v
         else if ForgetAt(ops, n, d) then Null
         else Entry(ModelRun(ops[..n]).replacements, id, d)
  {
    hide Entry, ModelAnswer, ModelAfter, LastLoad, Put, Without;
    var n := |ops| - 1;
    var w := ModelRun(ops[..n]);
    assert ModelRun(ops) == ModelAfter(w, ops[n]);
    match ops[n] {
      case Load(k, modified) =>
        EntryAfterLoad(w, k, modified, id, d);
        if LoadAt(ops, n, d) {
          ForgetIffChanged(ops, d);
        }
      case Set(k, id0, v, drawable) =>
        EntryAfterSet(w, k, id0, v, drawable, id, d);
      case _ =>
        SameReplacements(w, ops[n]);
    }
  }

  lemma SameReplacements(w: Model, op: Op)
    requires !op.Load? && !op.Set?
    ensures ModelAfter(w, op).replacements == w.replacements
  {}

  lemma ForgetIffChanged(ops: seq<Op>, d: Dir)
    requires ops != [] && LoadAt(ops, |ops| - 1, d)
    ensures var n := |ops| - 1;
      ForgetAt(ops, n, d) <==> Changed(d, ModelRun(ops[..n]).lastModified, ops[n].modified)
  {
    hide ModelRun, LastLoad;
    var n := |ops| - 1;
    SeenIs(ops[..n], d);
    forall i: nat | LastLoad(ops[..n], i, d)
      ensures i < n
    {
      LoadedBefore(ops, n, i, d);
    }
  }

  lemma LastSetStep(ops: seq<Op>, id: Id, d: Dir, j: nat)
    requires ops != []
    ensures var n := |ops| - 1;
      LastSet(ops, j, id, d) <==> if SetAt(ops, n, id, d) then j == n else !ForgetAt(ops, n, d) && LastSet(ops[..n], j, id, d)
    ensures LastSet(ops, j, id, d) ==> j < |ops| && ops[j].Set?
  {
    hide ForgetAt;
    var n := |ops| - 1;
    forall i: nat
      ensures i < n ==> (SetAt(ops[..n], i, id, d) <==> SetAt(ops, i, id, d))
      ensures i < n ==> (ForgetAt(ops[..n], i, d) <==> ForgetAt(ops, i, d))
      ensures (ForgetAt(ops, i, d) ==> i <= n) && (ForgetAt(ops[..n], i, d) ==> i < n)
    {
      ForgetInRange(ops, i, d);
      ForgetInRange(ops[..n], i, d);
      if i < n {
        SamePast(ops, n, i, id, d);
      }
    }
  }

  lemma ForgetInRange(ops: seq<Op>, i: nat, d: Dir)
    ensures ForgetAt(ops, i, d) ==> i < |ops|
  {}

  /** What is recorded is what was set last and not forgotten. */
  lemma {:induction false} EntryIs(ops: seq<Op>, id: Id, d: Dir)
    ensures var v := Entry(ModelRun(ops).replacements, id, d);
      && (forall j: nat :: LastSet(ops, j, id, d) ==> ops[j].v == v)
      && (v != Null ==> exists j: nat :: LastSet(ops, j, id, d))
  {
    if ops != [] {
      var n := |ops| - 1;
      EntryIs(ops[..n], id, d);
      EntryStep(ops, id, d);
      hide LastSet, SetAt, ForgetAt, ModelRun, Entry;
      forall j: nat
        ensures LastSet(ops, j, id, d) <==> if SetAt(ops, n, id, d) then j == n else !ForgetAt(ops, n, d) && LastSet(ops[..n], j, id, d)
        ensures LastSet(ops[..n], j, id, d) ==> j < n && ops[..n][j] == ops[j]
      {
        LastSetStep(ops, id, d, j);
        if n > 0 {
          LastSetStep(ops[..n], id, d, j);
        }
      }
    }
  }

  lemma {:induction false} AnswerAt(ops: seq<Op>, i: nat)
    requires i < |ops|
    ensures |ModelAnswers(ops)| == |ops| && ModelAnswers(ops)[i] == ModelAnswer(ModelRun(ops[..i]), ops[i])
  {
    hide ModelAnswer, ModelRun;
    var n := |ops| - 1;
    if n > 0 {
      AnswerAt(ops[..n], if i < n then i else 0);
    }
    if i < n {
      assert ops[..n][..i] == ops[..i];
    }
  }

  /** A lookup on an object answers what was set last for the id and the object's directory and not forgotten
      since, or else what was set last for the id and the framework. */
  lemma LookFinds(ops: seq<Op>, i: nat, d: Dir)
    requires i < |ops| && ops[i].Look? && ops[i].id > 0 && Of(ops, i, ops[i].k, d)
    ensures |ModelAnswers(ops)| == |ops|
    ensures ModelAnswers(ops)[i] != Got(NullPointer) ==>
      ModelAnswers(ops)[i] == Got(Returned(if Latest(ops[..i], ops[i].id, d) != Null then Latest(ops[..i], ops[i].id, d)
                                           else Latest(ops[..i], ops[i].id, Framework)))
  {
    hide ModelRun, LastSet;
    AnswerAt(ops, i);
    EntryIs(ops[..i], ops[i].id, d);
    EntryIs(ops[..i], ops[i].id, Framework);
  }

  /** Any sequence of calls on any number of objects is answered as if there were no caches; a lookup finds what was
      set last. */
  method Run(ops: seq<Op>) returns (answers: seq<Answer>)
    ensures answers == ModelAnswers(ops) && |answers| == |ops|
    ensures forall i: nat, d {:trigger Of(ops, i, ops[i].k, d)} ::
      i < |ops| && ops[i].Look? && ops[i].id > 0 && Of(ops, i, ops[i].k, d) && answers[i] != Got(NullPointer) ==>
      answers[i] == Got(Returned(if Latest(ops[..i], ops[i].id, d) != Null then Latest(ops[..i], ops[i].id, d)
                                 else Latest(ops[..i], ops[i].id, Framework)))
  {
    hide Of, Latest;
    var s := new Statics();
    var objs: seq<XResources> := [];
    answers := [];
    var i := 0;
    while i < |ops|
      invariant 0 <= i <= |ops| && fresh(s) && fresh(s.Caches()) && (forall k :: 0 <= k < |objs| ==> fresh(objs[k]))
      invariant s.Valid() && Follows(s, objs, ModelRun(ops[..i])) && answers == ModelAnswers(ops[..i])
    {
      var a;
      assert ops[..i + 1][..i] == ops[..i];
      objs, a := Step(s, objs, ops[i], ModelRun(ops[..i]));
      answers := answers + [a];
      i := i + 1;
    }
    assert ops[..i] == ops;
    AllAnswered(ops);
    forall i: nat, d {:trigger Of(ops, i, ops[i].k, d)} | i < |ops| && ops[i].Look? && ops[i].id > 0 && Of(ops, i, ops[i].k, d)
      ensures ModelAnswers(ops)[i] != Got(NullPointer) ==>
        ModelAnswers(ops)[i] == Got(Returned(if Latest(ops[..i], ops[i].id, d) != Null then Latest(ops[..i], ops[i].id, d)
                                             else Latest(ops[..i], ops[i].id, Framework)))
    {
      LookFinds(ops, i, d);
    }
  }

  lemma AllAnswered(ops: seq<Op>)
    ensures |ModelAnswers(ops)| == |ops|
  {
    if ops != [] {
      AnswerAt(ops, 0);
    }
  }

  // ---- where the masks show

  /** A call of initObject on object `k`. */
  predicate InitAt(ops: seq<Op>, j: nat, k: nat) {
    j < |ops| && ops[j].Init? && ops[j].k == k && k < |ModelRun(ops[..j]).objects|
  }

  /** Such a call throws if it is for an app and finds no package name. */
  predicate Unnamed(op: Op)
    requires op.Init?
  {
    op.d.App? && !op.named
  }

  /** Every one of the calls so far has thrown, and there was one. */
  ghost predicate OnlyThrown(ops: seq<Op>, k: nat) {
    (exists j: nat :: InitAt(ops, j, k)) && forall j: nat :: InitAt(ops, j, k) ==> Unnamed(ops[j])
  }

  lemma InitAtPrefix(ops: seq<Op>, n: nat, k: nat)
    requires n < |ops|
    ensures forall j: nat {:trigger InitAt(ops, j, k)} {:trigger InitAt(ops[..n], j, k)} :: j < n ==> (InitAt(ops[..n], j, k) <==> InitAt(ops, j, k))
  {
    hide ModelRun;
    forall j: nat {:trigger InitAt(ops, j, k)} | j < n
      ensures InitAt(ops[..n], j, k) <==> InitAt(ops, j, k)
    {
      assert ops[..n][..j] == ops[..j];
    }
  }

  /** How an object comes to have a directory and no mask. */
  lemma {:induction false} BareIff(ops: seq<Op>, k: nat)
    requires k < |ModelRun(ops).objects|
    ensures var o := ModelRun(ops).objects[k];
      && (o.inited <==> exists j: nat :: InitAt(ops, j, k) && !Unnamed(ops[j]))
      && (o.inited || o.dir.App? <==> exists j: nat :: InitAt(ops, j, k))
  {
    var n := |ops| - 1;
    var w, op := ModelRun(ops[..n]), ops[n];
    InitAtPrefix(ops, n, k);
    if k < |w.objects| {
      BareIff(ops[..n], k);
      BareStep(ops, k);
    } else {
      assert forall j: nat :: !InitAt(ops, j, k) by {
        FewBefore(ops, n, k);
      }
    }
  }

  lemma BareStep(ops: seq<Op>, k: nat)
    requires ops != [] && k < |ModelRun(ops[..|ops| - 1]).objects| && k < |ModelRun(ops).objects|
    ensures var o, o' := ModelRun(ops[..|ops| - 1]).objects[k], ModelRun(ops).objects[k];
      && (o'.inited <==> o.inited || (InitAt(ops, |ops| - 1, k) && !Unnamed(ops[|ops| - 1])))
      && (o'.inited || o'.dir.App? <==> o.inited || o.dir.App? || InitAt(ops, |ops| - 1, k))
  {}

  /** Before there is an object nothing can be called on it. */
  lemma {:induction false} FewBefore(ops: seq<Op>, n: nat, k: nat)
    requires n < |ops| && |ModelRun(ops[..n]).objects| <= k
    ensures forall j: nat :: j <= n ==> !InitAt(ops, j, k)
  {
    if n > 0 {
      assert ops[..n][..n - 1] == ops[..n - 1];
      FewBefore(ops, n - 1, k);
    }
  }

  /** The first initObject that has not thrown counts, or else the last. */
  ghost predicate Decides(ops: seq<Op>, j: nat, k: nat) {
    && InitAt(ops, j, k) && (forall i: nat :: i < j && InitAt(ops, i, k) ==> Unnamed(ops[i]))
    && (Unnamed(ops[j]) ==> forall i: nat :: j < i ==> !InitAt(ops, i, k))
  }

  /** It says what directory an object has. */
  lemma {:induction false} DirIs(ops: seq<Op>, k: nat)
    requires k < |ModelRun(ops).objects|
    ensures var o := ModelRun(ops).objects[k];
      && (forall j: nat :: Decides(ops, j, k) ==> o.dir == ops[j].d)
      && (o.dir != Framework ==> exists j: nat :: Decides(ops, j, k))
  {
    var n := |ops| - 1;
    var w := ModelRun(ops[..n]);
    if k < |w.objects| {
      DirIs(ops[..n], k);
      BareIff(ops[..n], k);
      DirStep(ops, k);
      var inited := w.objects[k].inited;
      hide ModelRun, Decides;
      forall j: nat
        ensures Decides(ops, j, k) <==> if InitAt(ops, n, k) && !inited then j == n else Decides(ops[..n], j, k)
        ensures Decides(ops[..n], j, k) ==> j < n && ops[..n][j] == ops[j]
      {
        DecidesStep(ops, ops[..n], j, k, inited);
      }
    } else {
      FewBefore(ops, n, k);
      hide ModelRun;
    }
  }

  lemma DecidesStep(ops: seq<Op>, past: seq<Op>, j: nat, k: nat, inited: bool)
    requires ops != [] && past == ops[..|ops| - 1] && (inited <==> exists i: nat :: InitAt(past, i, k) && !Unnamed(past[i]))
    ensures Decides(ops, j, k) <==> if InitAt(ops, |past|, k) && !inited then j == |past| else Decides(past, j, k)
    ensures Decides(past, j, k) ==> j < |past|
  {
    var n := |past|;
    InitAtPrefix(ops, n, k);
    forall i: nat
      ensures (InitAt(ops, i, k) ==> i <= n && ops[i].Init?) && (InitAt(past, i, k) ==> i < n && past[i] == ops[i])
    {}
    hide InitAt, ModelRun;
  }

  lemma DirStep(ops: seq<Op>, k: nat)
    requires ops != [] && k < |ModelRun(ops[..|ops| - 1]).objects| && k < |ModelRun(ops).objects|
    ensures var n := |ops| - 1;
      var o, o' := ModelRun(ops[..n]).objects[k], ModelRun(ops).objects[k];
      o'.dir == if InitAt(ops, n, k) && !o.inited then ops[n].d else o.dir
  {}

  /** A lookup meets a null mask exactly when it is for an app id, on an object whose every initObject has thrown. */
  lemma NullMaskIff(ops: seq<Op>, i: nat)
    requires i < |ops| && ops[i].Look?
    ensures |ModelAnswers(ops)| == |ops|
    ensures ModelAnswers(ops)[i] == Got(NullPointer) <==> ops[i].id >= APP_IDS && OnlyThrown(ops[..i], ops[i].k)
  {
    hide ModelRun, Lookup;
    AnswerAt(ops, i);
    var k := ops[i].k;
    if k < |ModelRun(ops[..i]).objects| {
      BareIff(ops[..i], k);
    } else {
      FewBefore(ops, i, k);
      InitAtPrefix(ops, i, k);
    }
  }

  /** isFirstLoad says no exactly for the framework and for a time of modification that is that of the last
      isFirstLoad for the directory; and it meets a null mask exactly when it has something to forget on an object
      whose every initObject has thrown. */
  lemma LoadTells(ops: seq<Op>, i: nat, d: Dir)
    requires i < |ops| && ops[i].Load? && Of(ops, i, ops[i].k, d)
    ensures |ModelAnswers(ops)| == |ops|
    ensures ModelAnswers(ops)[i] == Loaded(Returned(false))
       <==> d == Framework || exists j: nat :: LastLoad(ops[..i], j, d) && ops[j].modified == ops[i].modified
    ensures ModelAnswers(ops)[i] == Loaded(NullPointer) <==> ForgetAt(ops, i, d) && OnlyThrown(ops[..i], ops[i].k)
  {
    AnswerAt(ops, i);
    BareIff(ops[..i], ops[i].k);
    if d.App? {
      SeenIs(ops[..i], d);
      forall j: nat | LastLoad(ops[..i], j, d)
        ensures j < i && ops[..i][j] == ops[j]
      {
        LoadedBefore(ops, i, j, d);
      }
    }
    hide ModelRun, LastLoad;
  }

  /** The shortest way there. */
  lemma NullMask()
    ensures ModelAnswers([New, Init(0, App("a"), false), Look(0, 0x7f00_0000)])
         == [Did(Returned(())), Did(IllegalState), Got(NullPointer)]
  {
    var a, b, c := New, Init(0, App("a"), false), Look(0, 0x7f00_0000);
    assert [a, b, c][..2] == [a, b] && [a, b][..1] == [a] && [a][..0] == [];
    assert ModelRun([a]) == Model([Plain(Framework, false)], map[], map[]);
    assert ModelRun([a, b]) == Model([Plain(App("a"), false)], map[], map[]);
    assert ModelAnswers([a]) == [Did(Returned(()))];
    assert ModelAnswers([a, b]) == [Did(Returned(())), Did(IllegalState)];
  }
}
