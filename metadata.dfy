/** The metadata buffer the host hands to the encoder, read as doubles: a 4-double
    header (`num_tracks`, sample type tag, `num_samples_per_track`, `sample_rate`)
    followed by one descriptor per track, 7 doubles for a transform track and 2 for
    a scalar track. */
module Metadata {
  import opened Native

  const DOUBLE_SIZE: nat := 8
  const HEADER_DOUBLES: nat := 4
  /** `sizeof(qvv_track_description) / sizeof(double)` */
  const TRANSFORM_DESC_DOUBLES: nat := 7
  /** `sizeof(scalar_track_description) / sizeof(double)` */
  const SCALAR_DESC_DOUBLES: nat := 2

  /** `enum class sample_types` */
  const SAMPLE_TYPE_QVVD: int := 0
  const SAMPLE_TYPE_FLOATD: int := 1

  /** `qvv_track_description`, field by field. */
  datatype TransformDesc = TransformDesc(
    outputIndex: real,
    parentIndex: real,
    precision: real,
    shellDistance: real,
    constantRotationThreshold: real,
    constantTranslationThreshold: real,
    constantScaleThreshold: real)

  /** `scalar_track_description` */
  datatype ScalarDesc = ScalarDesc(outputIndex: real, precision: real)

  /** The buffer behind the (pointer, size) pair holds `metadataSize` bytes. */
  predicate HoldsMetadata(metadata: seq<real>, metadataSize: u32) {
    |metadata| == metadataSize / DOUBLE_SIZE
  }

  /** `static_cast<sample_types>(metadata_[1])` reads word 1 and is defined. */
  predicate TagReadable(metadata: seq<real>) {
    |metadata| >= 2 && FitsI32(metadata[1])
  }

  /** The tag converted to `sample_types`: 0 (`qvvd`) exactly for a word in (-1, 1),
      1 (`floatd`) exactly for a word in [1, 2). */
  function SampleType(metadata: seq<real>): (r: i32)
    requires TagReadable(metadata)
    ensures r == SAMPLE_TYPE_QVVD <==> -1.0 < metadata[1] < 1.0
    ensures r == SAMPLE_TYPE_FLOATD <==> 1.0 <= metadata[1] < 2.0
  {
    CastI32(metadata[1])
  }

  /** The whole header can be read and both counts converted to `uint32_t`. */
  predicate HeaderReadable(metadata: seq<real>) {
    |metadata| >= HEADER_DOUBLES && FitsU32(metadata[0]) && FitsU32(metadata[2])
  }

  /** `static_cast<uint32_t>(metadata_[0])`: the integer part of word 0. */
  function NumTracks(metadata: seq<real>): (r: u32)
    requires HeaderReadable(metadata)
    ensures 0.0 <= metadata[0] ==> r as real <= metadata[0] < r as real + 1.0
    ensures metadata[0] < 0.0 ==> r == 0
  {
    CastU32(metadata[0])
  }

  /** `static_cast<uint32_t>(metadata_[2])`: the integer part of word 2. */
  function NumSamples(metadata: seq<real>): (r: u32)
    requires HeaderReadable(metadata)
    ensures 0.0 <= metadata[2] ==> r as real <= metadata[2] < r as real + 1.0
    ensures metadata[2] < 0.0 ==> r == 0
  {
    CastU32(metadata[2])
  }

  function SampleRate(metadata: seq<real>): real
    requires HeaderReadable(metadata)
  {
    metadata[3]
  }

  /** `sizeof(double) * 4 + sizeof(qvv_track_description) * num_tracks` in `size_t`. */
  function TransformMetadataSize(numTracks: u32): (r: u32)
    ensures r == (32 + 56 * numTracks) % U32_LIMIT
  {
    WrapAdd(32, 56 * numTracks);
    Add32(32, Mul32(56, numTracks))
  }

  /** `sizeof(double) * 4 + sizeof(scalar_track_description) * num_tracks` in `size_t`. */
  function ScalarMetadataSize(numTracks: u32): (r: u32)
    ensures r == (32 + 16 * numTracks) % U32_LIMIT
  {
    WrapAdd(32, 16 * numTracks);
    Add32(32, Mul32(16, numTracks))
  }

  /** `sizeof(double) * 10 * num_samples_per_track * num_tracks` in `size_t`. */
  function TransformRawSize(numSamples: u32, numTracks: u32): (r: u32)
    ensures r == (80 * numSamples * numTracks) % U32_LIMIT
  {
    Mul32Chain(80, numSamples, numTracks);
    Mul32(Mul32(80, numSamples), numTracks)
  }

  /** `sizeof(double) * num_samples_per_track * num_tracks` in `size_t`. */
  function ScalarRawSize(numSamples: u32, numTracks: u32): (r: u32)
    ensures r == (8 * numSamples * numTracks) % U32_LIMIT
  {
    Mul32Chain(8, numSamples, numTracks);
    Mul32(Mul32(8, numSamples), numTracks)
  }

  /** The transform raw buffer's byte count is 8 bytes per double of its
      `10 * S * N` doubles. */
  lemma TransformRawBytes(numSamples: nat, numTracks: nat)
    ensures 80 * numSamples * numTracks == DOUBLE_SIZE * (10 * numSamples * numTracks)
  {
  }

  /** Without wrap-around, the expected transform raw size is 8 bytes for each of the
      `10 * S * N` doubles. */
  lemma TransformRawSizeExact(numSamples: u32, numTracks: u32)
    requires 80 * numSamples * numTracks < U32_LIMIT
    ensures TransformRawSize(numSamples, numTracks) == DOUBLE_SIZE * (10 * numSamples * numTracks)
  {
    TransformRawBytes(numSamples, numTracks);
  }

  /** When the metadata size check passes without wrap-around, the buffer holds the
      header and exactly `numTracks` descriptors. */
  lemma MetadataSizeFixesTable(metadata: seq<real>, metadataSize: u32, numTracks: u32, descDoubles: nat)
    requires HoldsMetadata(metadata, metadataSize)
    requires metadataSize == 32 + 8 * descDoubles * numTracks
    ensures |metadata| == HEADER_DOUBLES + descDoubles * numTracks
  {
    assert metadataSize == 8 * (HEADER_DOUBLES + descDoubles * numTracks);
  }

  function TransformDescAt(metadata: seq<real>, i: nat): TransformDesc
    requires HEADER_DOUBLES + TRANSFORM_DESC_DOUBLES * (i + 1) <= |metadata|
  {
    var b := HEADER_DOUBLES + TRANSFORM_DESC_DOUBLES * i;
    TransformDesc(metadata[b], metadata[b + 1], metadata[b + 2], metadata[b + 3],
                  metadata[b + 4], metadata[b + 5], metadata[b + 6])
  }

  /** The first `count` entries of the descriptor table (`metadata_ + 4`). */
  function TransformDescs(metadata: seq<real>, count: nat): (descs: seq<TransformDesc>)
    requires HEADER_DOUBLES + TRANSFORM_DESC_DOUBLES * count <= |metadata|
  {
    seq(count, i requires 0 <= i < count => TransformDescAt(metadata, i))
  }

  function ScalarDescAt(metadata: seq<real>, i: nat): ScalarDesc
    requires HEADER_DOUBLES + SCALAR_DESC_DOUBLES * (i + 1) <= |metadata|
  {
    var b := HEADER_DOUBLES + SCALAR_DESC_DOUBLES * i;
    ScalarDesc(metadata[b], metadata[b + 1])
  }

  function ScalarDescs(metadata: seq<real>, count: nat): (descs: seq<ScalarDesc>)
    requires HEADER_DOUBLES + SCALAR_DESC_DOUBLES * count <= |metadata|
  {
    seq(count, i requires 0 <= i < count => ScalarDescAt(metadata, i))
  }

  /** The compression settings `compress_transforms` takes from the first descriptor,
      or the fact that this read falls past the end of the metadata buffer. */
  datatype SettingsRead =
    | Thresholds(rotationThreshold: real, translationThreshold: real, scaleThreshold: real, precision: real)
    | PastEndOfMetadata

  /** `track_descriptions->constant_rotation_threshold` and its three siblings: read
      whether or not a first descriptor exists. */
  function ReadSettings(metadata: seq<real>): (r: SettingsRead)
    ensures r.PastEndOfMetadata? <==> |metadata| < HEADER_DOUBLES + TRANSFORM_DESC_DOUBLES
    ensures r.Thresholds? ==>
      && r.precision == metadata[6]
      && r.rotationThreshold == metadata[8]
      && r.translationThreshold == metadata[9]
      && r.scaleThreshold == metadata[10]
  {
    if HEADER_DOUBLES + TRANSFORM_DESC_DOUBLES <= |metadata| then
      var d := TransformDescAt(metadata, 0);
      Thresholds(d.constantRotationThreshold, d.constantTranslationThreshold, d.constantScaleThreshold, d.precision)
    else
      PastEndOfMetadata
  }

  /** Once the transform metadata size check has passed, the settings read stays inside
      the metadata buffer exactly when there is at least one track. */
  lemma SettingsInBounds(metadata: seq<real>, metadataSize: u32, numTracks: u32)
    requires HoldsMetadata(metadata, metadataSize)
    requires metadataSize == 32 + 56 * numTracks
    ensures ReadSettings(metadata).PastEndOfMetadata? <==> numTracks == 0
  {
    MetadataSizeFixesTable(metadata, metadataSize, numTracks, TRANSFORM_DESC_DOUBLES);
  }
}
