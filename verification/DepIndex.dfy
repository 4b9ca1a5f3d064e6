/** The forward index as a value: buckets of dependent keys with their generation stamps,
    and the per-GVR floors. The tracker and the resolve protocol share these definitions. */
module DepIndex {
  import opened DepKeys

  /** A forward bucket: the keys that depend on a coordinate, and the sequence number of
      the last event that touched it. */
  datatype Bucket = Bucket(keys: set<L1Key>, stamp: nat)

  type Forward = map<DepKey, Bucket>

  type Floors = map<GVR, nat>

  function FloorOf(floors: Floors, g: GVR): nat {
    if g in floors then floors[g] else 0
  }

  function RaiseFloor(floors: Floors, g: GVR, seqNo: nat): Floors {
    floors[g := Max(FloorOf(floors, g), seqNo)]
  }

  /** The generation a dependency key is judged by: its bucket, or the GVR floor when it
      has no bucket. */
  function MovedAt(f: Forward, floors: Floors, dk: DepKey): nat {
    if dk in f then f[dk].stamp else FloorOf(floors, dk.gvr)
  }

  predicate MovedSince(f: Forward, floors: Floors, dk: DepKey, q: nat) {
    MovedAt(f, floors, dk) > q
  }

  /** The bucket an edge is about to join: a cold bucket inherits the floor of its GVR. */
  function BucketFor(f: Forward, floors: Floors, dk: DepKey): Bucket {
    if dk in f then f[dk] else Bucket({}, FloorOf(floors, dk.gvr))
  }

  predicate HasEdge(f: Forward, dk: DepKey, k: L1Key) {
    dk in f && k in f[dk].keys
  }

  function AddEdge(f: Forward, floors: Floors, dk: DepKey, k: L1Key): Forward {
    var b := BucketFor(f, floors, dk);
    f[dk := Bucket(b.keys + {k}, b.stamp)]
  }

  /** Drops every edge of a key and prunes the buckets it leaves empty. */
  function StripKey(f: Forward, k: L1Key): Forward {
    map dk | dk in f && f[dk].keys - {k} != {} :: Bucket(f[dk].keys - {k}, f[dk].stamp)
  }

  function StampBucket(f: Forward, dk: DepKey, s: nat): Forward {
    if dk in f then f[dk := Bucket(f[dk].keys, Max(f[dk].stamp, s))] else f
  }

  /** Every bucket a change hits carries at least its sequence number. */
  function StampHits(f: Forward, c: Change, s: nat): Forward {
    map dk | dk in f :: if Hits(c, dk) then Bucket(f[dk].keys, Max(f[dk].stamp, s)) else f[dk]
  }

  /** The edges held by the forward index. */
  function Edges(f: Forward): set<(DepKey, L1Key)> {
    set dk, k | dk in f && k in f[dk].keys :: (dk, k)
  }

  /** The dependent keys a change reaches. */
  function Matched(f: Forward, c: Change): set<L1Key> {
    set dk, k | dk in f && Hits(c, dk) && k in f[dk].keys :: k
  }
}
