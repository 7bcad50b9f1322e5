/**
 * The sparse chunked grid the placer writes into: `SparseScene`, a
 * `VolGrid3d` of 32×32×32 chunks of `Cell`s (src/main.rs:15-44).  A chunk
 * holds the cells written into it; every other cell of the chunk reads as
 * empty, as `Chunk::filled(Cell::empty(), ())` leaves it.
 */
module Grid {
  import opened Wrappers
  import opened Geometry

  type u8 = x: int | 0 <= x < 256

  datatype Rgb = Rgb(r: u8, g: u8, b: u8)

  /** A figure cell: empty, or a colour with the glowy, shiny and hollow flags of `Cell::new`. */
  datatype Cell = Empty | Filled(color: Rgb, glowy: bool, shiny: bool, hollow: bool)

  /** `SscSize::SIZE` along every axis. */
  const CHUNK_SIZE: int := 32

  datatype Chunk = Chunk(written: map<Vec3, Cell>)
  {
    function Get(local: Vec3): Cell
    {
      if local in written then written[local] else Empty
    }

    function Set(local: Vec3, cell: Cell): Chunk
    {
      Chunk(written[local := cell])
    }
  }

  /** `Chunk::filled(Cell::empty(), ())`. */
  const EMPTY_CHUNK := Chunk(map[])

  type Chunks = map<Vec3, Chunk>

  /** `pos_key`: the key of the chunk holding `p`, floor division by the chunk size per axis. */
  function PosKey(p: Vec3): Vec3
  {
    Vec3(p.x / CHUNK_SIZE, p.y / CHUNK_SIZE, p.z / CHUNK_SIZE)
  }

  /** The position of `p` inside its chunk (`pos & 31` per axis). */
  function ChunkOffs(p: Vec3): Vec3
  {
    Vec3(p.x % CHUNK_SIZE, p.y % CHUNK_SIZE, p.z % CHUNK_SIZE)
  }

  /** `key_pos`: the world position of a chunk's minimum corner. */
  function KeyPos(key: Vec3): Vec3
  {
    key.Scaled(CHUNK_SIZE)
  }

  predicate InChunk(local: Vec3)
  {
    0 <= local.x < CHUNK_SIZE && 0 <= local.y < CHUNK_SIZE && 0 <= local.z < CHUNK_SIZE
  }

  /** Every position is its chunk's corner plus an offset inside the chunk. */
  lemma PosSplits(p: Vec3)
    ensures InChunk(ChunkOffs(p))
    ensures KeyPos(PosKey(p)).Plus(ChunkOffs(p)) == p
  {
  }

  /** `key_pos(key) + local` lies in chunk `key` at offset `local`: `pos_key` inverts `key_pos`. */
  lemma KeyPosSplits(key: Vec3, local: Vec3)
    requires InChunk(local)
    ensures PosKey(KeyPos(key).Plus(local)) == key
    ensures ChunkOffs(KeyPos(key).Plus(local)) == local
  {
  }

  /** `pos_key` is monotone on every axis. */
  lemma PosKeyMonotone(p: Vec3, q: Vec3)
    requires p.LessEq(q)
    ensures PosKey(p).LessEq(PosKey(q))
  {
  }

  /** The cell at world position `p`; `None` when its chunk has not been inserted. */
  function CellAt(chunks: Chunks, p: Vec3): Option<Cell>
  {
    if PosKey(p) in chunks then Some(chunks[PosKey(p)].Get(ChunkOffs(p))) else None
  }

  /** The cell at `p` exists and holds a colour. */
  predicate FilledAt(chunks: Chunks, p: Vec3)
  {
    CellAt(chunks, p).Some? && CellAt(chunks, p).value.Filled?
  }

  /** `VolGrid3d::set`: `None` (the `NoSuchChunk` error) when the chunk of `p` is missing. */
  function WriteCell(chunks: Chunks, p: Vec3, cell: Cell): Option<Chunks>
  {
    var key := PosKey(p);
    if key in chunks then Some(chunks[key := chunks[key].Set(ChunkOffs(p), cell)]) else None
  }

  /**
   * A write succeeds exactly when the chunk exists; then `p` reads back the
   * new cell, every other position reads as before, and no chunk appears or
   * disappears.
   */
  lemma WriteCellEffect(chunks: Chunks, p: Vec3, cell: Cell)
    ensures WriteCell(chunks, p, cell).Some? <==> PosKey(p) in chunks
    ensures WriteCell(chunks, p, cell).Some? ==>
      var after := WriteCell(chunks, p, cell).value;
      && after.Keys == chunks.Keys
      && CellAt(after, p) == Some(cell)
      && forall q :: q != p ==> CellAt(after, q) == CellAt(chunks, q)
  {
    if PosKey(p) in chunks {
      var after := WriteCell(chunks, p, cell).value;
      forall q | q != p
        ensures CellAt(after, q) == CellAt(chunks, q)
      {
        PosSplits(p);
        PosSplits(q);
      }
    }
  }

  /** Key `k` lies in the inclusive key range `lo..=hi` on every axis. */
  predicate InBox(k: Vec3, lo: Vec3, hi: Vec3)
  {
    lo.LessEq(k) && k.LessEq(hi)
  }

  function KeyBox(lo: Vec3, hi: Vec3): set<Vec3>
  {
    set x: int, y: int, z: int | lo.x <= x <= hi.x && lo.y <= y <= hi.y && lo.z <= z <= hi.z :: Vec3(x, y, z)
  }

  lemma KeyBoxMembers(lo: Vec3, hi: Vec3)
    ensures forall k :: k in KeyBox(lo, hi) <==> InBox(k, lo, hi)
  {
    forall k | InBox(k, lo, hi)
      ensures k in KeyBox(lo, hi)
    {
      assert k == Vec3(k.x, k.y, k.z);
    }
  }

  /**
   * The grid after the chunk-insertion loop of src/main.rs:76-86: every key
   * of `lo..=hi` is present, keys that were missing hold an all-empty chunk,
   * and the chunks already present (with whatever was written in them) are
   * kept as they were.
   */
  function Allocate(chunks: Chunks, lo: Vec3, hi: Vec3): (r: Chunks)
    ensures forall k :: k in r <==> k in chunks || InBox(k, lo, hi)
    ensures forall k :: k in chunks ==> r[k] == chunks[k]
    ensures forall k :: k in r && k !in chunks ==> r[k] == EMPTY_CHUNK
  {
    KeyBoxMembers(lo, hi);
    map k | k in chunks.Keys + KeyBox(lo, hi) :: if k in chunks then chunks[k] else EMPTY_CHUNK
  }

  /** Allocating the same range twice changes nothing the second time. */
  lemma AllocateIdempotent(chunks: Chunks, lo: Vec3, hi: Vec3)
    ensures Allocate(Allocate(chunks, lo, hi), lo, hi) == Allocate(chunks, lo, hi)
  {
    var once := Allocate(chunks, lo, hi);
    var twice := Allocate(once, lo, hi);
    assert twice.Keys == once.Keys;
  }

  /** Allocation leaves every cell that was readable before reading the same. */
  lemma AllocateKeepsCells(chunks: Chunks, lo: Vec3, hi: Vec3, p: Vec3)
    requires CellAt(chunks, p).Some?
    ensures CellAt(Allocate(chunks, lo, hi), p) == CellAt(chunks, p)
  {
  }

  /** Allocation only adds empty chunks: no cell becomes filled. */
  lemma AllocateAddsNoFilled(chunks: Chunks, lo: Vec3, hi: Vec3, p: Vec3)
    requires FilledAt(Allocate(chunks, lo, hi), p)
    ensures FilledAt(chunks, p)
  {
  }

  /** The grid object of the placer: `SparseScene(VolGrid3d<Chunk<Cell, SscSize, ()>>)`. */
  class SparseScene {
    var chunks: Chunks

    /** `VolGrid3d::new()`: no chunk at all. */
    constructor ()
      ensures chunks == map[]
    {
      chunks := map[];
    }

    /** `get_key_arc`: the chunk under `key`, if any. */
    function GetKey(key: Vec3): (r: Option<Chunk>)
      reads this
      ensures r.Some? <==> key in chunks
      ensures r.Some? ==> r.value == chunks[key]
    {
      if key in chunks then Some(chunks[key]) else None
    }

    /** `insert`: put `chunk` under `key`, replacing any chunk there. */
    method Insert(key: Vec3, chunk: Chunk)
      modifies this
      ensures chunks == old(chunks)[key := chunk]
    {
      chunks := chunks[key := chunk];
    }

    /** `set`: write one cell; `ok` is false (the `NoSuchChunk` error) when its chunk is missing. */
    method Set(pos: Vec3, cell: Cell) returns (ok: bool)
      modifies this
      ensures ok <==> PosKey(pos) in old(chunks)
      ensures ok ==> WriteCell(old(chunks), pos, cell) == Some(chunks)
      ensures !ok ==> chunks == old(chunks)
    {
      var key := PosKey(pos);
      ok := key in chunks;
      if ok {
        chunks := chunks[key := chunks[key].Set(ChunkOffs(pos), cell)];
      }
    }
  }
}
