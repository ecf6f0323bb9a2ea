/**
 * The voxel world's `HybridOctree` (src/voxels/storage/hybrid_octree.rs): a
 * sorted list of levels keyed by `VoxelLocation::linearize`, where loading a
 * level either creates it (with `level_length^3` particles whose material
 * bytes come from a hasher) or marks an existing entry as loaded.
 */
module VoxelOctree {
  import opened Wrappers
  import opened Machine
  import opened Vectors
  import opened SortedLevelList

  /** `MATERIAL_COUNT` (src/voxels/storage/particle.rs): material bytes per particle. */
  const MATERIAL_COUNT: nat := 512

  /**
   * `let half_limit = 2<<15;`, a `u16` because it fills a `Vector3U16`:
   * 2 * 2^15 = 2^16 loses its only set bit, so the value is 0.
   */
  const HALF_LIMIT: u16 := (2 * 0x8000) % U16_BOUND

  /** The message of the explicit panic in `get_level`. */
  const NOT_LOADED := "This Level is not loaded"

  /** Stands for the arithmetic-overflow panic of `linearize` in a debug build. */
  const LINEARIZE_OVERFLOW := "attempt to compute linearize with overflow"

  datatype Particle = Particle(gpuLevelIndexCurrent: u32, gpuLevelIndexNext: u32, material: seq<u8>, pos: Vector3U16)

  /** `LevelContents`; the `RwLock` around it in `Level` is plain ownership here. */
  datatype LevelContents = LevelContents(loaded: bool, data: seq<Particle>)

  /** An entry `(linearized key, location, level)` of the sorted level list. */
  datatype LevelEntry = LevelEntry(key: u64, location: VoxelLocation, level: LevelContents)

  function Keys(levels: seq<LevelEntry>): (r: seq<u64>)
    ensures |r| == |levels|
    ensures forall i :: 0 <= i < |levels| ==> r[i] == levels[i].key
  {
    seq(|levels|, i requires 0 <= i < |levels| => levels[i].key)
  }

  /** `level_length.pow(3)`. */
  function Volume(levelLength: nat): nat
  {
    levelLength * levelLength * levelLength
  }

  /**
   * Creating a level runs without a panic: `level_length.pow(3)` and every
   * `i*MATERIAL_COUNT+m` (at most volume*512 - 1) fit in a u64.
   */
  ghost predicate CreationFits(levelLength: nat)
  {
    Volume(levelLength) * MATERIAL_COUNT <= U64_BOUND
  }

  /**
   * The bytes hashed while creating a level, in order: the j-th is
   * `(j % 256) as u8`, since material m of particle i hashes `(i*512+m) % 256`.
   */
  function Seeds(n: nat): (r: seq<u8>)
    ensures |r| == n
    ensures forall j :: 0 <= j < n ==> r[j] == j % 256
  {
    if n == 0 then [] else Seeds(n - 1) + [(n - 1) % 256]
  }

  /** The material byte produced by the j-th hash: the hasher's `finish()` after j+1 seeds, mod 256. */
  function MaterialByte(start: Hasher, finish: seq<u8> -> u64, j: nat): u8
  {
    finish(start.written + Seeds(j + 1)) % U8_BOUND
  }

  /** The i-th particle of a new level created with hasher `start`. */
  function NewParticle(start: Hasher, finish: seq<u8> -> u64, i: nat): Particle
  {
    Particle(0, 0,
      seq<u8>(MATERIAL_COUNT, m requires 0 <= m < MATERIAL_COUNT => MaterialByte(start, finish, i * MATERIAL_COUNT + m)),
      Vector3U16(HALF_LIMIT, HALF_LIMIT, HALF_LIMIT))
  }

  /** The contents of a level created with hasher `start`. */
  function FreshLevel(start: Hasher, finish: seq<u8> -> u64, volume: nat): LevelContents
  {
    LevelContents(true, seq(volume, i requires 0 <= i < volume => NewParticle(start, finish, i)))
  }

  /** `data.get_mut(index)` is `None`: the search index is the end of the list. */
  predicate Creates(levels: seq<LevelEntry>, key: u64)
  {
    Get(Keys(levels), key).1 == |levels|
  }

  /**
   * The level list after `load_level` with key `key`: a new entry at the
   * search index when that index is the end of the list, otherwise the entry
   * at the search index marked loaded, whatever its key.
   */
  function LoadSpec(levels: seq<LevelEntry>, key: u64, location: VoxelLocation, created: LevelContents): seq<LevelEntry>
  {
    var index := Get(Keys(levels), key).1;
    if index == |levels| then
      levels[..index] + [LevelEntry(key, location, created)] + levels[index..]
    else
      levels[index := levels[index].(level := levels[index].level.(loaded := true))]
  }

  class HybridOctree {
    const levelDepth: u64
    const levelLength: u64
    var levels: seq<LevelEntry>

    ghost predicate Valid()
      reads this
    {
      1 < levelLength && StrictlyAscending(Keys(levels))
    }

    /** The key `linearize(level_length, level_length, level_length, level_depth)`. */
    function Key(pos: VoxelLocation): Option<u64>
    {
      Linearize(pos, levelLength, levelLength, levelLength, levelDepth)
    }

    /** `HybridOctree::new`, which panics unless `level_length > 1`. */
    constructor (levelDepth: u64, levelLength: u64)
      requires 1 < levelLength
      ensures this.levelDepth == levelDepth && this.levelLength == levelLength
      ensures levels == []
      ensures Valid()
    {
      this.levelDepth := levelDepth;
      this.levelLength := levelLength;
      levels := [];
    }

    /**
     * `get_level`: the level stored under the location's key, or the panic
     * `This Level is not loaded` when the search does not find the key.
     */
    function GetLevel(pos: VoxelLocation): (r: Result<LevelContents>)
      reads this
      ensures Key(pos).None? ==> r == Err(LINEARIZE_OVERFLOW)
      ensures Key(pos).Some? && r.Ok? ==>
        exists i :: 0 <= i < |levels| && levels[i].key == Key(pos).value && levels[i].level == r.value
      ensures Valid() && Key(pos).Some? ==>
        && (r.Ok? <==> Key(pos).value in Keys(levels))
        && (r.Err? ==> r.msg == NOT_LOADED)
        && (forall i :: 0 <= i < |levels| && levels[i].key == Key(pos).value ==> r == Ok(levels[i].level))
    {
      match Key(pos)
      case None => Err(LINEARIZE_OVERFLOW)
      case Some(key) =>
        var (found, index) := Get(Keys(levels), key);
        if !found then Err(NOT_LOADED)
        else
          assert Valid() ==> forall i :: 0 <= i < |levels| && levels[i].key == key ==> i == index by {
            if Valid() {
              forall i | 0 <= i < |levels| && levels[i].key == key
                ensures i == index
              {
                KeyIndexUnique(Keys(levels), i, index);
              }
            }
          }
          Ok(levels[index].level)
    }

    /**
     * `load_level(pos, insecure_hasher)`. The requires are the conditions
     * under which it does not panic; the hasher comes back with every byte it
     * hashed appended, and `finish` is the hasher's digest of its input.
     */
    method LoadLevel(pos: VoxelLocation, hasher: Hasher, finish: seq<u8> -> u64) returns (r: Option<Hasher>)
      requires Valid()
      requires Key(pos).Some?
      requires Creates(levels, Key(pos).value) ==> CreationFits(levelLength)
      modifies this
      ensures Valid()
      ensures levels == LoadSpec(old(levels), Key(pos).value, pos, FreshLevel(hasher, finish, Volume(levelLength)))
      ensures r == Some(Hasher(hasher.written +
        if Creates(old(levels), Key(pos).value) then Seeds(Volume(levelLength) * MATERIAL_COUNT) else []))
    {
      var linearized := Key(pos).value;
      var index := Get(Keys(levels), linearized).1;
      var h := hasher;
      if index == |levels| {
        var contents;
        contents, h := CreateLevel(hasher, finish, Volume(levelLength));
        LoadKeepsOrder(levels, linearized, pos, contents);
        levels := levels[..index] + [LevelEntry(linearized, pos, contents)] + levels[index..];
      } else {
        LoadKeepsOrder(levels, linearized, pos, FreshLevel(hasher, finish, Volume(levelLength)));
        levels := levels[index := levels[index].(level := levels[index].level.(loaded := true))];
        assert hasher.written + [] == hasher.written;
      }
      r := Some(h);
    }
  }

  /**
   * The material bytes of particle `i`: one hash of `(i*MATERIAL_COUNT+m) % 256`
   * per material m, each byte the digest after that hash, mod 256.
   */
  method HashMaterials(start: Hasher, finish: seq<u8> -> u64, i: nat, h0: Hasher) returns (material: seq<u8>, h: Hasher)
    requires h0 == Hasher(start.written + Seeds(i * MATERIAL_COUNT))
    ensures material == NewParticle(start, finish, i).material
    ensures h == Hasher(start.written + Seeds((i + 1) * MATERIAL_COUNT))
  {
    material := [];
    h := h0;
    var m := 0;
    while m < MATERIAL_COUNT
      invariant 0 <= m <= MATERIAL_COUNT
      invariant |material| == m
      invariant forall k :: 0 <= k < m ==> material[k] == MaterialByte(start, finish, i * MATERIAL_COUNT + k)
      invariant h == Hasher(start.written + Seeds(i * MATERIAL_COUNT + m))
    {
      h := HashU8(h, (i * MATERIAL_COUNT + m) % 256);
      assert h.written == start.written + Seeds(i * MATERIAL_COUNT + m + 1);
      material := material + [finish(h.written) % U8_BOUND];
      m := m + 1;
    }
  }

  /** The particle buffer of a new level of `volume` particles, and the hasher after it. */
  method CreateLevel(start: Hasher, finish: seq<u8> -> u64, volume: nat) returns (contents: LevelContents, h: Hasher)
    ensures contents == FreshLevel(start, finish, volume)
    ensures h == Hasher(start.written + Seeds(volume * MATERIAL_COUNT))
  {
    var buffer: seq<Particle> := [];
    h := start;
    var i := 0;
    while i < volume
      invariant 0 <= i <= volume
      invariant |buffer| == i
      invariant forall k :: 0 <= k < i ==> buffer[k] == NewParticle(start, finish, k)
      invariant h == Hasher(start.written + Seeds(i * MATERIAL_COUNT))
    {
      var material;
      material, h := HashMaterials(start, finish, i, h);
      buffer := buffer + [Particle(0, 0, material, Vector3U16(HALF_LIMIT, HALF_LIMIT, HALF_LIMIT))];
      i := i + 1;
    }
    contents := LevelContents(true, buffer);
  }

  /** Loading never removes or reorders an entry: the keys stay as they were, or gain the new key at the end. */
  lemma LoadKeepsKeys(levels: seq<LevelEntry>, key: u64, location: VoxelLocation, created: LevelContents)
    ensures Creates(levels, key) ==> Keys(LoadSpec(levels, key, location, created)) == Keys(levels) + [key]
    ensures !Creates(levels, key) ==> Keys(LoadSpec(levels, key, location, created)) == Keys(levels)
  {
    var next := LoadSpec(levels, key, location, created);
    if Creates(levels, key) {
      assert next == levels + [LevelEntry(key, location, created)];
      assert Keys(next) == Keys(levels) + [key];
    } else {
      assert Keys(next) == Keys(levels);
    }
  }

  /** `load_level` keeps the list strictly ascending. */
  lemma LoadKeepsOrder(levels: seq<LevelEntry>, key: u64, location: VoxelLocation, created: LevelContents)
    requires StrictlyAscending(Keys(levels))
    ensures StrictlyAscending(Keys(LoadSpec(levels, key, location, created)))
  {
    LoadKeepsKeys(levels, key, location, created);
    if Creates(levels, key) {
      assert Keys(levels) == Keys(levels)[..|levels|] && Keys(levels)[|levels|..] == [];
      InsertAtSearchIndexKeepsOrder(Keys(levels), key);
    }
  }

  /**
   * On a sorted list a level is created exactly when its key exceeds every
   * stored key; any other absent key only marks a neighbouring entry loaded.
   */
  lemma CreatesIffAboveAllKeys(levels: seq<LevelEntry>, key: u64)
    requires StrictlyAscending(Keys(levels))
    ensures Creates(levels, key) <==> forall i :: 0 <= i < |levels| ==> levels[i].key < key
  {
    var r := Get(Keys(levels), key);
    if Creates(levels, key) {
      forall i | 0 <= i < |levels|
        ensures levels[i].key < key
      {
        assert Keys(levels)[i] < key;
      }
    } else {
      assert Keys(levels)[r.1] >= key;
    }
  }

  /**
   * When the key is already stored, loading marks exactly that entry
   * loaded and changes nothing else.
   */
  lemma LoadStoredKeyMarksIt(levels: seq<LevelEntry>, key: u64, location: VoxelLocation, created: LevelContents, i: nat)
    requires StrictlyAscending(Keys(levels)) && i < |levels| && levels[i].key == key
    ensures |LoadSpec(levels, key, location, created)| == |levels|
    ensures LoadSpec(levels, key, location, created)[i] == levels[i].(level := levels[i].level.(loaded := true))
    ensures forall k :: 0 <= k < |levels| && k != i ==> LoadSpec(levels, key, location, created)[k] == levels[k]
  {
    GetFindsTheIndex(Keys(levels), key, i);
  }

  /**
   * The quirk of `load_level`: a key that is absent but not above every
   * stored key gets no entry; the entry at the search index, which holds a
   * larger key, is marked loaded instead, so `get_level` still panics.
   */
  lemma LoadAbsentKeyInsideListInsertsNothing(levels: seq<LevelEntry>, key: u64, location: VoxelLocation, created: LevelContents)
    requires StrictlyAscending(Keys(levels)) && key !in Keys(levels) && !Creates(levels, key)
    ensures var next := LoadSpec(levels, key, location, created);
      && key !in Keys(next)
      && var index := Get(Keys(levels), key).1;
         index < |next| && next[index].key > key && next[index].level.loaded
  {
    LoadKeepsKeys(levels, key, location, created);
  }

  /** After a load that created the level, `get_level` finds it: loaded, with the created contents. */
  lemma CreatedLevelIsFound(levels: seq<LevelEntry>, key: u64, location: VoxelLocation, created: LevelContents)
    requires StrictlyAscending(Keys(levels)) && Creates(levels, key)
    ensures var next := LoadSpec(levels, key, location, created);
      && Get(Keys(next), key) == (true, |levels|)
      && next[|levels|] == LevelEntry(key, location, created)
  {
    var next := LoadSpec(levels, key, location, created);
    LoadKeepsOrder(levels, key, location, created);
    LoadKeepsKeys(levels, key, location, created);
    assert next == levels + [LevelEntry(key, location, created)];
    GetFindsTheIndex(Keys(next), key, |levels|);
  }

  /**
   * Every particle of a new level has `MATERIAL_COUNT` material bytes, both
   * gpu indices 0 and equal position coordinates, all 0 because `2<<15`
   * wraps in a u16.
   */
  lemma FreshLevelShape(start: Hasher, finish: seq<u8> -> u64, volume: nat)
    ensures FreshLevel(start, finish, volume).loaded
    ensures |FreshLevel(start, finish, volume).data| == volume
    ensures forall i :: 0 <= i < volume ==>
      var p := FreshLevel(start, finish, volume).data[i];
      && |p.material| == MATERIAL_COUNT
      && p.gpuLevelIndexCurrent == 0 && p.gpuLevelIndexNext == 0
      && p.pos.x == p.pos.y == p.pos.z == 0
  {
  }

  /**
   * The byte hashed for material m does not depend on the particle: since
   * 512 is a multiple of 256, `(i*512+m) % 256` is `m % 256`.
   */
  lemma {:induction false} SeedIndependentOfParticle(i: nat, m: nat)
    ensures (i * MATERIAL_COUNT + m) % 256 == m % 256
  {
    if i > 0 {
      SeedIndependentOfParticle(i - 1, m);
      assert i * MATERIAL_COUNT + m == ((i - 1) * MATERIAL_COUNT + m) + 2 * 256;
    }
  }
}
