/**
 * The objekt `HybridOctree` (src/objekt_impl/storage/hybrid_octree.rs): the
 * same sorted-level scheme as the voxel octree, but a level stores its
 * particles column-wise in a `ParticleVec` and the hashed material seeds are
 * offset by `linearized * volume`. Its `SortedLevelList` is searched with the
 * same binary search as the voxel one (`SortedLevelList.Get`).
 */
module ObjektOctree {
  import opened Wrappers
  import opened Machine
  import opened Vectors
  import opened SortedLevelList

  /** `MATERIAL_COUNT` (src/objekt_impl/storage/particle.rs). */
  const MATERIAL_COUNT: nat := 512

  /** `let half_limit = 1<<15;` as a u16. */
  const HALF_LIMIT: u16 := 0x8000

  const NOT_LOADED := "This Level is not loaded"

  /** Stands for the arithmetic-overflow panic of `linearize` in a debug build. */
  const LINEARIZE_OVERFLOW := "attempt to compute linearize with overflow"

  /** The struct-of-arrays form of `Particle`: one column per field. */
  datatype ParticleVec = ParticleVec(
    gpuLevelIndexCurrent: seq<u32>,
    gpuLevelIndexNext: seq<u32>,
    material: seq<seq<u8>>,
    pos: seq<Vector3U16>)

  datatype LevelContents = LevelContents(loaded: bool, data: ParticleVec)

  /** `SortedLevel { ordinal, location, level }`. */
  datatype SortedLevel = SortedLevel(ordinal: u64, location: VoxelLocation, level: LevelContents)

  function Ordinals(levels: seq<SortedLevel>): (r: seq<u64>)
    ensures |r| == |levels|
    ensures forall i :: 0 <= i < |levels| ==> r[i] == levels[i].ordinal
  {
    seq(|levels|, i requires 0 <= i < |levels| => levels[i].ordinal)
  }

  /** `level_length.pow(3)`. */
  function Volume(levelLength: nat): nat
  {
    levelLength * levelLength * levelLength
  }

  /** `linearized * volume`, the offset added to every hashed seed. */
  function SeedOffset(key: nat, levelLength: nat): nat
  {
    key * Volume(levelLength)
  }

  /**
   * Creating the level with key `key` runs without a panic: `pow(3)`, every
   * `i*MATERIAL_COUNT+m`, `linearized*volume` and the sum with a seed below
   * 256 fit in a u64.
   */
  ghost predicate CreationFits(levelLength: nat, key: nat)
  {
    && Volume(levelLength) * MATERIAL_COUNT <= U64_BOUND
    && SeedOffset(key, levelLength) + 255 < U64_BOUND
  }

  /**
   * The bytes hashed while creating a level, in order, for `offset =
   * linearized * volume`: the j-th is `(offset + j % 256) as u8`, since
   * material m of particle i hashes `(offset + (i*512+m) % 256) as u8`.
   */
  function Seeds(offset: nat, n: nat): (r: seq<u8>)
    ensures |r| == n
    ensures forall j :: 0 <= j < n ==> r[j] == (offset + j % 256) % U8_BOUND
  {
    if n == 0 then [] else Seeds(offset, n - 1) + [(offset + (n - 1) % 256) % U8_BOUND]
  }

  function MaterialByte(start: Hasher, finish: seq<u8> -> u64, offset: nat, j: nat): u8
  {
    finish(start.written + Seeds(offset, j + 1)) % U8_BOUND
  }

  /** The material column entry of particle `i`. */
  function NewMaterial(start: Hasher, finish: seq<u8> -> u64, offset: nat, i: nat): seq<u8>
  {
    seq<u8>(MATERIAL_COUNT, m requires 0 <= m < MATERIAL_COUNT => MaterialByte(start, finish, offset, i * MATERIAL_COUNT + m))
  }

  /** The particle columns of a new level: materials and positions filled, the gpu columns left empty. */
  function FreshLevel(start: Hasher, finish: seq<u8> -> u64, offset: nat, volume: nat): LevelContents
  {
    LevelContents(true, ParticleVec([], [],
      seq(volume, i requires 0 <= i < volume => NewMaterial(start, finish, offset, i)),
      seq(volume, i requires 0 <= i < volume => Vector3U16(HALF_LIMIT, HALF_LIMIT, HALF_LIMIT))))
  }

  predicate Creates(levels: seq<SortedLevel>, key: u64)
  {
    Get(Ordinals(levels), key).1 == |levels|
  }

  /** The level list after `load_level` with key `key` (see VoxelOctree.LoadSpec). */
  function LoadSpec(levels: seq<SortedLevel>, key: u64, location: VoxelLocation, created: LevelContents): seq<SortedLevel>
  {
    var index := Get(Ordinals(levels), key).1;
    if index == |levels| then
      levels[..index] + [SortedLevel(key, location, created)] + levels[index..]
    else
      levels[index := levels[index].(level := levels[index].level.(loaded := true))]
  }

  class HybridOctree {
    const levelDepth: u64
    const levelLength: u64
    var levels: seq<SortedLevel>

    ghost predicate Valid()
      reads this
    {
      1 < levelLength && StrictlyAscending(Ordinals(levels))
    }

    function Key(pos: VoxelLocation): Option<u64>
    {
      Linearize(pos, levelLength, levelLength, levelLength, levelDepth)
    }

    /** `HybridOctree::new`, which panics unless `level_length > 1`. */
    constructor (levelDepth: u64, levelLength: u64)
      requires 1 < levelLength
      ensures this.levelDepth == levelDepth && this.levelLength == levelLength
      ensures levels == []
      ensures Valid()
    {
      this.levelDepth := levelDepth;
      this.levelLength := levelLength;
      levels := [];
    }

    /** `get_level`: the level whose ordinal is the location's key, or the panic `This Level is not loaded`. */
    function GetLevel(pos: VoxelLocation): (r: Result<LevelContents>)
      reads this
      ensures Key(pos).None? ==> r == Err(LINEARIZE_OVERFLOW)
      ensures Key(pos).Some? && r.Ok? ==>
        exists i :: 0 <= i < |levels| && levels[i].ordinal == Key(pos).value && levels[i].level == r.value
      ensures Valid() && Key(pos).Some? ==>
        && (r.Ok? <==> Key(pos).value in Ordinals(levels))
        && (r.Err? ==> r.msg == NOT_LOADED)
        && (forall i :: 0 <= i < |levels| && levels[i].ordinal == Key(pos).value ==> r == Ok(levels[i].level))
    {
      match Key(pos)
      case None => Err(LINEARIZE_OVERFLOW)
      case Some(key) =>
        var (found, index) := Get(Ordinals(levels), key);
        if !found then Err(NOT_LOADED)
        else
          assert Valid() ==> forall i :: 0 <= i < |levels| && levels[i].ordinal == key ==> i == index by {
            if Valid() {
              forall i | 0 <= i < |levels| && levels[i].ordinal == key
                ensures i == index
              {
                KeyIndexUnique(Ordinals(levels), i, index);
              }
            }
          }
          Ok(levels[index].level)
    }

    /**
     * `load_level(pos, insecure_hasher)`. The requires are the conditions
     * under which it does not panic; `finish` is the hasher's digest of its input.
     */
    method LoadLevel(pos: VoxelLocation, hasher: Hasher, finish: seq<u8> -> u64) returns (r: Option<Hasher>)
      requires Valid()
      requires Key(pos).Some?
      requires Creates(levels, Key(pos).value) ==> CreationFits(levelLength, Key(pos).value)
      modifies this
      ensures Valid()
      ensures levels == LoadSpec(old(levels), Key(pos).value, pos,
        FreshLevel(hasher, finish, SeedOffset(Key(pos).value, levelLength), Volume(levelLength)))
      ensures r == Some(Hasher(hasher.written +
        if Creates(old(levels), Key(pos).value)
        then Seeds(SeedOffset(Key(pos).value, levelLength), Volume(levelLength) * MATERIAL_COUNT)
        else []))
    {
      var linearized := Key(pos).value;
      var index := Get(Ordinals(levels), linearized).1;
      var h := hasher;
      if index == |levels| {
        var volume := Volume(levelLength);
        var offset := SeedOffset(linearized, levelLength);
        var buffer := ParticleVec([], [], [], []);
        buffer, h := FillMaterials(hasher, finish, offset, volume, buffer);
        buffer := FillPositions(volume, buffer);
        var contents := LevelContents(true, buffer);
        assert contents == FreshLevel(hasher, finish, offset, volume);
        LoadKeepsOrder(levels, linearized, pos, contents);
        levels := levels[..index] + [SortedLevel(linearized, pos, contents)] + levels[index..];
      } else {
        LoadKeepsOrder(levels, linearized, pos, FreshLevel(hasher, finish, SeedOffset(linearized, levelLength), Volume(levelLength)));
        levels := levels[index := levels[index].(level := levels[index].level.(loaded := true))];
        assert hasher.written + [] == hasher.written;
      }
      r := Some(h);
    }
  }

  /** The material bytes of particle `i`, hashing `(offset + (i*512+m) % 256) as u8` for each material m. */
  method HashMaterials(start: Hasher, finish: seq<u8> -> u64, offset: nat, i: nat, h0: Hasher) returns (material: seq<u8>, h: Hasher)
    requires h0 == Hasher(start.written + Seeds(offset, i * MATERIAL_COUNT))
    ensures material == NewMaterial(start, finish, offset, i)
    ensures h == Hasher(start.written + Seeds(offset, (i + 1) * MATERIAL_COUNT))
  {
    material := [];
    h := h0;
    var m := 0;
    while m < MATERIAL_COUNT
      invariant 0 <= m <= MATERIAL_COUNT
      invariant |material| == m
      invariant forall k :: 0 <= k < m ==> material[k] == MaterialByte(start, finish, offset, i * MATERIAL_COUNT + k)
      invariant h == Hasher(start.written + Seeds(offset, i * MATERIAL_COUNT + m))
    {
      h := HashU8(h, (offset + (i * MATERIAL_COUNT + m) % 256) % U8_BOUND);
      assert h.written == start.written + Seeds(offset, i * MATERIAL_COUNT + m + 1);
      material := material + [finish(h.written) % U8_BOUND];
      m := m + 1;
    }
  }

  /** The first loop of level creation: one material entry pushed per particle, the other columns untouched. */
  method FillMaterials(start: Hasher, finish: seq<u8> -> u64, offset: nat, volume: nat, buffer0: ParticleVec)
    returns (buffer: ParticleVec, h: Hasher)
    ensures buffer == buffer0.(material := buffer0.material +
      seq(volume, i requires 0 <= i < volume => NewMaterial(start, finish, offset, i)))
    ensures h == Hasher(start.written + Seeds(offset, volume * MATERIAL_COUNT))
  {
    buffer := buffer0;
    h := start;
    var i := 0;
    while i < volume
      invariant 0 <= i <= volume
      invariant buffer.gpuLevelIndexCurrent == buffer0.gpuLevelIndexCurrent
      invariant buffer.gpuLevelIndexNext == buffer0.gpuLevelIndexNext && buffer.pos == buffer0.pos
      invariant |buffer.material| == |buffer0.material| + i
      invariant buffer.material[..|buffer0.material|] == buffer0.material
      invariant forall k :: 0 <= k < i ==> buffer.material[|buffer0.material| + k] == NewMaterial(start, finish, offset, k)
      invariant h == Hasher(start.written + Seeds(offset, i * MATERIAL_COUNT))
    {
      var material;
      material, h := HashMaterials(start, finish, offset, i, h);
      buffer := buffer.(material := buffer.material + [material]);
      i := i + 1;
    }
    assert buffer.material == buffer0.material +
      seq(volume, i requires 0 <= i < volume => NewMaterial(start, finish, offset, i));
  }

  /** The second loop of level creation: `volume` copies of `(half_limit, half_limit, half_limit)` pushed on `pos`. */
  method FillPositions(volume: nat, buffer0: ParticleVec) returns (buffer: ParticleVec)
    ensures buffer == buffer0.(pos := buffer0.pos +
      seq(volume, i requires 0 <= i < volume => Vector3U16(HALF_LIMIT, HALF_LIMIT, HALF_LIMIT)))
  {
    buffer := buffer0;
    var i := 0;
    while i < volume
      invariant 0 <= i <= volume
      invariant buffer == buffer0.(pos := buffer0.pos +
        seq(i, k requires 0 <= k < i => Vector3U16(HALF_LIMIT, HALF_LIMIT, HALF_LIMIT)))
    {
      buffer := buffer.(pos := buffer.pos + [Vector3U16(HALF_LIMIT, HALF_LIMIT, HALF_LIMIT)]);
      i := i + 1;
    }
  }

  lemma LoadKeepsOrdinals(levels: seq<SortedLevel>, key: u64, location: VoxelLocation, created: LevelContents)
    ensures Creates(levels, key) ==> Ordinals(LoadSpec(levels, key, location, created)) == Ordinals(levels) + [key]
    ensures !Creates(levels, key) ==> Ordinals(LoadSpec(levels, key, location, created)) == Ordinals(levels)
  {
    var next := LoadSpec(levels, key, location, created);
    if Creates(levels, key) {
      assert next == levels + [SortedLevel(key, location, created)];
      assert Ordinals(next) == Ordinals(levels) + [key];
    } else {
      assert Ordinals(next) == Ordinals(levels);
    }
  }

  /** `load_level` keeps the ordinals strictly ascending. */
  lemma LoadKeepsOrder(levels: seq<SortedLevel>, key: u64, location: VoxelLocation, created: LevelContents)
    requires StrictlyAscending(Ordinals(levels))
    ensures StrictlyAscending(Ordinals(LoadSpec(levels, key, location, created)))
  {
    LoadKeepsOrdinals(levels, key, location, created);
    if Creates(levels, key) {
      assert Ordinals(levels) == Ordinals(levels)[..|levels|] && Ordinals(levels)[|levels|..] == [];
      InsertAtSearchIndexKeepsOrder(Ordinals(levels), key);
    }
  }

  /**
   * A created level is found by `get_level` with ordinal equal to its key;
   * loading a stored key only marks that entry loaded.
   */
  lemma LoadThenFind(levels: seq<SortedLevel>, key: u64, location: VoxelLocation, created: LevelContents)
    requires StrictlyAscending(Ordinals(levels))
    ensures var next := LoadSpec(levels, key, location, created);
      Creates(levels, key) ==>
        && Get(Ordinals(next), key) == (true, |levels|)
        && next[|levels|] == SortedLevel(key, location, created)
    ensures var next := LoadSpec(levels, key, location, created);
      forall i :: 0 <= i < |levels| && levels[i].ordinal == key ==>
        && |next| == |levels|
        && next[i] == levels[i].(level := levels[i].level.(loaded := true))
        && (forall k :: 0 <= k < |levels| && k != i ==> next[k] == levels[k])
  {
    var next := LoadSpec(levels, key, location, created);
    LoadKeepsOrder(levels, key, location, created);
    LoadKeepsOrdinals(levels, key, location, created);
    if Creates(levels, key) {
      assert next == levels + [SortedLevel(key, location, created)];
      GetFindsTheIndex(Ordinals(next), key, |levels|);
    }
    forall i | 0 <= i < |levels| && levels[i].ordinal == key
      ensures |next| == |levels| && next[i] == levels[i].(level := levels[i].level.(loaded := true))
    {
      GetFindsTheIndex(Ordinals(levels), key, i);
    }
  }

  /**
   * A key that is absent but below some stored ordinal gets no level: the
   * entry at the search index is marked loaded instead.
   */
  lemma LoadAbsentKeyInsideListInsertsNothing(levels: seq<SortedLevel>, key: u64, location: VoxelLocation, created: LevelContents)
    requires StrictlyAscending(Ordinals(levels)) && key !in Ordinals(levels) && !Creates(levels, key)
    ensures var next := LoadSpec(levels, key, location, created);
      && key !in Ordinals(next)
      && var index := Get(Ordinals(levels), key).1;
         index < |next| && next[index].ordinal > key && next[index].level.loaded
  {
    LoadKeepsOrdinals(levels, key, location, created);
  }

  /**
   * A new level's `material` and `pos` columns both have `level_length^3`
   * entries, every material entry `MATERIAL_COUNT` bytes and every position
   * (32768, 32768, 32768); the gpu columns are never pushed.
   */
  lemma FreshLevelShape(start: Hasher, finish: seq<u8> -> u64, offset: nat, volume: nat)
    ensures var d := FreshLevel(start, finish, offset, volume).data;
      && |d.material| == |d.pos| == volume
      && d.gpuLevelIndexCurrent == [] && d.gpuLevelIndexNext == []
      && (forall i :: 0 <= i < volume ==> |d.material[i]| == MATERIAL_COUNT)
      && (forall i :: 0 <= i < volume ==> d.pos[i] == Vector3U16(32768, 32768, 32768))
  {
  }

  /**
   * `HybridOctreeObjekt`: a named registry object sharing one octree. Its
   * `MoleculeObjekt::name` is its name field.
   */
  class HybridOctreeObjekt {
    const name: string
    const inner: HybridOctree

    constructor (name: string, inner: HybridOctree)
      ensures this.name == name && this.inner == inner
    {
      this.name := name;
      this.inner := inner;
    }

    function Name(): (r: string)
      ensures r == name
    {
      name
    }
  }
}
