/** Index arithmetic of the flat raw-sample buffer the host fills: for each track in
    order, `numSamples` contiguous samples; a transform sample is 10 doubles
    (rotation quaternion at +0, translation at +4, scale at +7), a scalar sample
    is one double. Offsets are counted in doubles. */
module Layout {
  import opened Native

  /** Doubles per transform sample: 4 rotation + 3 translation + 3 scale. */
  const TRANSFORM_DOUBLES: nat := 10
  const ROTATION_OFFSET: nat := 0
  const TRANSLATION_OFFSET: nat := 4
  const SCALE_OFFSET: nat := 7
  /** Doubles read by `quat_load`. */
  const QUAT_WIDTH: nat := 4

  /** Position of sample `s` of track `t` when every track holds `numSamples` slots. */
  function FlatIndex(t: nat, s: nat, numSamples: nat): nat {
    numSamples * t + s
  }

  /** The inverse of FlatIndex: which track and which sample a flat slot belongs to. */
  function TrackOf(k: nat, numSamples: nat): nat
    requires numSamples > 0
  {
    k / numSamples
  }

  function SampleOf(k: nat, numSamples: nat): nat
    requires numSamples > 0
  {
    k % numSamples
  }

  lemma MulMonotone(a: nat, b: nat, c: nat)
    requires b <= c
    ensures a * b <= a * c
  {
    assert a * c == a * b + a * (c - b);
  }

  /** Every (track, sample) pair in range lands inside the first `numSamples * numTracks` slots,
      and TrackOf/SampleOf recover the pair. */
  lemma FlatIndexRoundTrip(t: nat, s: nat, numSamples: nat, numTracks: nat)
    requires t < numTracks && s < numSamples
    ensures FlatIndex(t, s, numSamples) < numSamples * numTracks
    ensures TrackOf(FlatIndex(t, s, numSamples), numSamples) == t
    ensures SampleOf(FlatIndex(t, s, numSamples), numSamples) == s
  {
    MulMonotone(numSamples, t + 1, numTracks);
    var k := FlatIndex(t, s, numSamples);
    var q, r := k / numSamples, k % numSamples;
    assert k == numSamples * q + r;
    if q < t {
      MulMonotone(numSamples, q + 1, t);
      assert false;
    } else if q > t {
      MulMonotone(numSamples, t + 1, q);
      assert false;
    }
  }

  /** Every flat slot below `numSamples * numTracks` is the slot of exactly the pair
      TrackOf/SampleOf name, and that pair is in range: FlatIndex is onto. */
  lemma UnflattenRoundTrip(k: nat, numSamples: nat, numTracks: nat)
    requires k < numSamples * numTracks
    ensures numSamples > 0
    ensures TrackOf(k, numSamples) < numTracks && SampleOf(k, numSamples) < numSamples
    ensures FlatIndex(TrackOf(k, numSamples), SampleOf(k, numSamples), numSamples) == k
  {
    var q := k / numSamples;
    if q >= numTracks {
      MulMonotone(numSamples, numTracks, q);
    }
  }

  /** Two distinct (track, sample) pairs in range never share a slot. */
  lemma FlatIndexInjective(t: nat, s: nat, t': nat, s': nat, numSamples: nat, numTracks: nat)
    requires t < numTracks && s < numSamples && t' < numTracks && s' < numSamples
    requires (t, s) != (t', s')
    ensures FlatIndex(t, s, numSamples) != FlatIndex(t', s', numSamples)
  {
    FlatIndexRoundTrip(t, s, numSamples, numTracks);
    FlatIndexRoundTrip(t', s', numSamples, numTracks);
  }

  /** First double of transform sample `s` of track `t`. */
  function TransformBase(t: nat, s: nat, numSamples: nat): nat {
    TRANSFORM_DOUBLES * FlatIndex(t, s, numSamples)
  }

  /** The 10-double block of every transform sample in range lies inside the
      `10 * numSamples * numTracks` doubles of the raw buffer, starting at
      `10 * numSamples * t + 10 * s`. */
  lemma TransformBlockInBounds(t: nat, s: nat, numSamples: nat, numTracks: nat)
    requires t < numTracks && s < numSamples
    ensures TransformBase(t, s, numSamples) == 10 * numSamples * t + 10 * s
    ensures TransformBase(t, s, numSamples) + TRANSFORM_DOUBLES <= 10 * numSamples * numTracks
  {
    FlatIndexRoundTrip(t, s, numSamples, numTracks);
    assert 10 * numSamples * numTracks == 10 * (numSamples * numTracks);
    assert 10 * numSamples * t == 10 * (numSamples * t);
  }

  /** The block of the last sample of the last track ends exactly at the end of the
      `10 * numSamples * numTracks` doubles. */
  lemma LastTransformBlockEnd(numSamples: nat, numTracks: nat)
    requires 0 < numSamples && 0 < numTracks
    ensures TransformBase(numTracks - 1, numSamples - 1, numSamples) + TRANSFORM_DOUBLES == 10 * numSamples * numTracks
  {
    assert numSamples * numTracks == numSamples * (numTracks - 1) + numSamples;
    assert 10 * numSamples * numTracks == 10 * (numSamples * numTracks);
  }

  /** The 10-double blocks of two distinct transform samples do not overlap. */
  lemma TransformBlocksDisjoint(t: nat, s: nat, t': nat, s': nat, numSamples: nat, numTracks: nat)
    requires t < numTracks && s < numSamples && t' < numTracks && s' < numSamples
    requires (t, s) != (t', s')
    ensures TransformBase(t, s, numSamples) + TRANSFORM_DOUBLES <= TransformBase(t', s', numSamples)
         || TransformBase(t', s', numSamples) + TRANSFORM_DOUBLES <= TransformBase(t, s, numSamples)
  {
    FlatIndexInjective(t, s, t', s', numSamples, numTracks);
  }

  /** `transform_index * 10 * num_samples_per_track` and
      `(sample_index * 10) + transform_raw_data_offset`, both in `uint32_t`. */
  function TransformOffset32(t: u32, s: u32, numSamples: u32): (r: u32)
    ensures r == Wrap32(TransformBase(t, s, numSamples))
  {
    TransformOffsetWrap(t, s, numSamples);
    Add32(Mul32(s, 10), Mul32(Mul32(t, 10), numSamples))
  }

  lemma TransformOffsetWrap(t: u32, s: u32, numSamples: u32)
    ensures Add32(Mul32(s, 10), Mul32(Mul32(t, 10), numSamples)) == Wrap32(TransformBase(t, s, numSamples))
  {
    var a: nat, b: nat := s * 10, t * 10 * numSamples;
    Mul32Chain(t, 10, numSamples);
    WrapAdd(Mul32(s, 10), b);
    WrapAdd(b, a);
    TransformBaseExpanded(t, s, numSamples);
  }

  lemma TransformBaseExpanded(t: nat, s: nat, numSamples: nat)
    ensures TransformBase(t, s, numSamples) == t * 10 * numSamples + s * 10
  {
  }

  /** `sample_index + track_index * num_samples_per_track`, in `uint32_t`. */
  function ScalarOffset32(t: u32, s: u32, numSamples: u32): (r: u32)
    ensures r == Wrap32(FlatIndex(t, s, numSamples))
  {
    WrapAdd(s, t * numSamples);
    assert FlatIndex(t, s, numSamples) == s + t * numSamples;
    Add32(s, Mul32(t, numSamples))
  }

  /** When the raw buffer's double count `10 * numSamples * numTracks` fits in 32 bits,
      the wrapping offset the source computes is the exact block start. */
  lemma TransformOffsetExact(t: u32, s: u32, numSamples: u32, numTracks: nat)
    requires t < numTracks && s < numSamples
    requires 10 * numSamples * numTracks <= U32_LIMIT
    ensures TransformOffset32(t, s, numSamples) == TransformBase(t, s, numSamples)
  {
    TransformBlockInBounds(t, s, numSamples, numTracks);
    MulMonotone(10 * t, 1, numSamples);
    MulMonotone(10, numSamples * t, numSamples * t + s);
    assert 10 * t * numSamples == 10 * numSamples * t;
    assert Mul32(t, 10) == 10 * t;
    assert Mul32(Mul32(t, 10), numSamples) == 10 * numSamples * t;
  }

  /** When `numSamples * numTracks` fits in 32 bits, the wrapping scalar offset is the
      flat index of the sample. */
  lemma ScalarOffsetExact(t: u32, s: u32, numSamples: u32, numTracks: nat)
    requires t < numTracks && s < numSamples
    requires numSamples * numTracks <= U32_LIMIT
    ensures ScalarOffset32(t, s, numSamples) == FlatIndex(t, s, numSamples)
  {
    FlatIndexRoundTrip(t, s, numSamples, numTracks);
    assert t * numSamples == numSamples * t;
  }

  /** A load of `width` consecutive doubles starting at `offset`. */
  datatype RawRead = RawRead(offset: nat, width: nat)

  /** The three loads `build_clip` issues for one transform sample. */
  datatype QvvRead = QvvRead(rotation: RawRead, translation: RawRead, scale: RawRead)

  predicate Within(r: RawRead, lo: nat, hi: nat) {
    lo <= r.offset && r.offset + r.width <= hi
  }

  predicate Disjoint(a: RawRead, b: RawRead) {
    a.offset + a.width <= b.offset || b.offset + b.width <= a.offset
  }

  /** The loads of a transform sample whose block starts at `base`, with vector loads
      of `vectorWidth` doubles (`vector_load3` reads 3, `vector_load` reads 4). */
  function QvvReadAt(base: nat, vectorWidth: nat): QvvRead {
    QvvRead(RawRead(base + ROTATION_OFFSET, QUAT_WIDTH),
            RawRead(base + TRANSLATION_OFFSET, vectorWidth),
            RawRead(base + SCALE_OFFSET, vectorWidth))
  }

  /** With 3-wide vector loads the rotation, translation and scale loads are pairwise
      disjoint and all lie within the sample's own 10-double block; with wider loads
      the scale load leaves the block. */
  lemma QvvReadSplit(base: nat, vectorWidth: nat)
    ensures var q := QvvReadAt(base, vectorWidth);
      && Disjoint(q.rotation, q.translation)
      && (vectorWidth <= 3 ==> Disjoint(q.translation, q.scale) && Disjoint(q.rotation, q.scale))
      && (Within(q.scale, base, base + TRANSFORM_DOUBLES) <==> vectorWidth <= 3)
      && (vectorWidth <= 3 ==>
            Within(q.rotation, base, base + TRANSFORM_DOUBLES) && Within(q.translation, base, base + TRANSFORM_DOUBLES))
  {
  }
}
