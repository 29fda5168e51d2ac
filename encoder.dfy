/** The encoder entry point `compress` of the native module: it dispatches on the
    sample type tag, checks the metadata and raw buffer sizes against the header,
    builds the codec's input from the flat buffers, calls the codec, and copies the
    compressed bytes back over the front of the caller's raw buffer. The codec's
    compression calls are function parameters. */
module Encoder {
  import opened Native
  import opened Layout
  import opened Metadata
  import opened ClipBuild

  /** `acl::k_invalid_track_index` */
  const INVALID_TRACK_INDEX: u32 := 0xFFFF_FFFF

  /** Return codes of `compress`, besides the compressed size. */
  const UNSUPPORTED_SAMPLE_TYPE: int := 0
  const INVALID_METADATA_SIZE: int := -1
  const INVALID_RAW_DATA_SIZE: int := -2
  const COMPRESSION_FAILED: int := -3
  const RAW_BUFFER_TOO_SMALL: int := -4

  // ---------------------------------------------------------------------------
  // Scalar track array (the track loop of compress_scalars)

  /** Every scalar descriptor's `output_index` can be converted to `uint32_t`. */
  predicate TrackIndicesCastable(descs: seq<ScalarDesc>) {
    forall i :: 0 <= i < |descs| ==> descs[i].outputIndex < 4294967296.0
  }

  /** `index >= 0.0 ? static_cast<uint32_t>(index) : acl::k_invalid_track_index` */
  function TrackIndex(index: real): (r: u32)
    requires index < 4294967296.0
    ensures index >= 0.0 ==> r as real <= index < r as real + 1.0
    ensures index < 0.0 ==> r == INVALID_TRACK_INDEX
  {
    if index >= 0.0 then CastU32(index) else INVALID_TRACK_INDEX
  }

  /** `acl::track_float1f` as far as the glue fills it: its description and, per
      sample, the one double `scalar_load` reads. */
  datatype ScalarTrack = ScalarTrack(outputIndex: u32, precision: real, samples: seq<RawRead>)

  /** `acl::track_array` of scalar tracks. */
  datatype TrackArray = TrackArray(tracks: seq<ScalarTrack>, numSamples: u32, sampleRate: real)

  /** What `compress_track_list` is given. */
  datatype TrackListRequest = TrackListRequest(tracks: TrackArray, raw: seq<byte>)

  function ScalarSamples(t: u32, numSamples: u32): seq<RawRead> {
    seq(numSamples, s requires 0 <= s < numSamples => RawRead(ScalarOffset32(t, s, numSamples), 1))
  }

  function TrackArraySpec(descs: seq<ScalarDesc>, numSamples: u32, sampleRate: real): TrackArray
    requires |descs| < U32_LIMIT && TrackIndicesCastable(descs)
  {
    TrackArray(
      seq(|descs|, t requires 0 <= t < |descs| =>
        ScalarTrack(TrackIndex(descs[t].outputIndex), descs[t].precision, ScalarSamples(t, numSamples))),
      numSamples, sampleRate)
  }

  /** The track loop of `compress_scalars`: one track per descriptor, each reserving
      `num_samples_per_track` samples filled from the raw buffer. */
  method BuildTrackArray(descs: seq<ScalarDesc>, numTracks: u32, numSamples: u32, sampleRate: real)
    returns (tracks: TrackArray)
    requires |descs| == numTracks && TrackIndicesCastable(descs)
    ensures tracks == TrackArraySpec(descs, numSamples, sampleRate)
  {
    var trackArray := new ScalarTrack[numTracks];
    for trackIndex := 0 to numTracks
      invariant forall k :: 0 <= k < trackIndex ==>
        trackArray[k] == ScalarTrack(TrackIndex(descs[k].outputIndex), descs[k].precision, ScalarSamples(k, numSamples))
    {
      var desc := descs[trackIndex];
      var trackOffset := Mul32(trackIndex, numSamples);
      var samples := new RawRead[numSamples];
      for sampleIndex := 0 to numSamples
        invariant forall k :: 0 <= k < trackIndex ==>
          trackArray[k] == ScalarTrack(TrackIndex(descs[k].outputIndex), descs[k].precision, ScalarSamples(k, numSamples))
        invariant forall k :: 0 <= k < sampleIndex ==> samples[k] == RawRead(ScalarOffset32(trackIndex, k, numSamples), 1)
      {
        var sampleOffset := Add32(sampleIndex, trackOffset);
        samples[sampleIndex] := RawRead(sampleOffset, 1);
      }
      assert samples[..] == ScalarSamples(trackIndex, numSamples);
      trackArray[trackIndex] := ScalarTrack(TrackIndex(desc.outputIndex), desc.precision, samples[..]);
    }
    assert trackArray[..] == TrackArraySpec(descs, numSamples, sampleRate).tracks;
    tracks := TrackArray(trackArray[..], numSamples, sampleRate);
  }

  /** When the raw byte count `8 * S * N` fits in 32 bits, scalar sample (t, s) reads
      the single double `S * t + s`, and this is a bijection from the sample grid onto
      the first `S * N` doubles: every such double is read by exactly the sample
      TrackOf/SampleOf name. */
  lemma ScalarReadsBijective(descs: seq<ScalarDesc>, numSamples: u32, sampleRate: real, t: nat, s: nat, k: nat)
    requires |descs| < U32_LIMIT && TrackIndicesCastable(descs)
    requires 8 * numSamples * |descs| < U32_LIMIT
    requires t < |descs| && s < numSamples
    ensures var tracks := TrackArraySpec(descs, numSamples, sampleRate).tracks;
      && tracks[t].samples[s] == RawRead(FlatIndex(t, s, numSamples), 1)
      && FlatIndex(t, s, numSamples) < numSamples * |descs|
      && (k < numSamples * |descs| ==>
            TrackOf(k, numSamples) < |descs| && SampleOf(k, numSamples) < numSamples &&
            tracks[TrackOf(k, numSamples)].samples[SampleOf(k, numSamples)] == RawRead(k, 1))
  {
    var n := |descs|;
    assert numSamples * n <= U32_LIMIT by {
      assert 8 * numSamples * n == 8 * (numSamples * n);
    }
    ScalarOffsetExact(t, s, numSamples, n);
    FlatIndexRoundTrip(t, s, numSamples, n);
    if k < numSamples * n {
      UnflattenRoundTrip(k, numSamples, n);
      ScalarOffsetExact(TrackOf(k, numSamples), SampleOf(k, numSamples), numSamples, n);
    }
  }

  // ---------------------------------------------------------------------------
  // Outcomes and return codes

  /** How a call of `compress` ends. */
  datatype EncodeOutcome =
    | UnsupportedSampleType
    | InvalidMetadataSize
    | InvalidRawDataSize
    | CompressionFailed
    | RawBufferTooSmall
    | Compressed(bytes: Bytes)

  /** The `int` that `compress` returns for an outcome; the compressed size is a
      `uint32_t` converted to `int`. */
  function ReturnCode(o: EncodeOutcome): (r: i32)
    ensures !o.Compressed? ==> -4 <= r <= 0
    ensures o.Compressed? ==> Wrap32(r) == |o.bytes| && (r >= 0 <==> |o.bytes| < I32_LIMIT)
  {
    match o
    case UnsupportedSampleType => UNSUPPORTED_SAMPLE_TYPE
    case InvalidMetadataSize => INVALID_METADATA_SIZE
    case InvalidRawDataSize => INVALID_RAW_DATA_SIZE
    case CompressionFailed => COMPRESSION_FAILED
    case RawBufferTooSmall => RAW_BUFFER_TOO_SMALL
    case Compressed(bytes) => AsInt32(|bytes|)
  }

  /** The raw buffer after the call: on success the compressed bytes overwrite its
      front and the rest is kept; otherwise it is untouched. */
  ghost predicate CopiedBack(before: seq<byte>, after: seq<byte>, o: EncodeOutcome)
    ensures CopiedBack(before, after, o) ==> |after| == |before|
    ensures CopiedBack(before, after, o) && o.Compressed? ==>
      && |o.bytes| <= |after|
      && after[..|o.bytes|] == o.bytes
      && forall i :: |o.bytes| <= i < |before| ==> after[i] == before[i]
  {
    if o.Compressed? then
      |o.bytes| <= |before| && after == o.bytes + before[|o.bytes|..]
    else
      after == before
  }

  /** Whenever the compressed size stays below 2^31, a negative return code means the
      raw buffer was not modified, and a non-negative code other than 0 is the number of
      bytes written back. */
  lemma NegativeCodeLeavesRaw(before: seq<byte>, after: seq<byte>, o: EncodeOutcome)
    requires CopiedBack(before, after, o)
    requires o.Compressed? ==> |o.bytes| < I32_LIMIT
    ensures ReturnCode(o) < 0 ==> after == before
    ensures o.Compressed? ==> ReturnCode(o) == |o.bytes| && after[..|o.bytes|] == o.bytes
  {
  }

  /** A compressed size of 2^31 bytes or more comes back as a negative code although
      the raw buffer was overwritten; 2^32 - 1 bytes read as -1, the code for an
      invalid metadata size. */
  lemma LargeSizeReadsAsError(bytes: Bytes)
    requires I32_LIMIT <= |bytes|
    ensures ReturnCode(Compressed(bytes)) < 0
    ensures ReturnCode(Compressed(bytes)) == |bytes| - U32_LIMIT
    ensures |bytes| == U32_LIMIT - 1 ==> ReturnCode(Compressed(bytes)) == INVALID_METADATA_SIZE
  {
  }

  // ---------------------------------------------------------------------------
  // compress_transforms

  /** The calls of `compress_transforms` that have defined behaviour: once both size
      checks pass the descriptor table is read and converted, and the clip indexes its
      bones with `uint16_t`, so there are at most 65535 transforms. */
  predicate TransformsDefined(metadata: seq<real>, metadataSize: u32, rawSize: nat)
    requires HeaderReadable(metadata)
  {
    var n := NumTracks(metadata);
    metadataSize == TransformMetadataSize(n) && rawSize >= TransformRawSize(NumSamples(metadata), n) ==>
      && n < U16_LIMIT
      && HEADER_DOUBLES + TRANSFORM_DESC_DOUBLES * n <= |metadata|
      && IndicesCastable(TransformDescs(metadata, n))
  }

  /** The skeleton, clip and settings handed to `compress_clip`. */
  function TransformRequest(metadata: seq<real>, raw: seq<byte>): ClipRequest
    requires HeaderReadable(metadata)
    requires NumTracks(metadata) < U16_LIMIT
    requires HEADER_DOUBLES + TRANSFORM_DESC_DOUBLES * NumTracks(metadata) <= |metadata|
    requires IndicesCastable(TransformDescs(metadata, NumTracks(metadata)))
  {
    var n := NumTracks(metadata);
    var descs := TransformDescs(metadata, n);
    ClipRequest(SkeletonSpec(descs, n), ClipSpec(descs, NumSamples(metadata), SampleRate(metadata), VECTOR_LOAD3_WIDTH),
                ReadSettings(metadata), raw)
  }

  /** `compress_transforms`: -1 exactly when the metadata size differs from
      `32 + 56 * N` (in `size_t`); then -2 exactly when the raw buffer is shorter than
      `80 * S * N` (in `size_t`, a lower bound, not an equality); then -3 exactly when
      the codec fails; then -4 exactly when the compressed bytes do not fit the raw
      buffer; otherwise success with the codec's bytes. */
  function TransformsOutcome(metadata: seq<real>, metadataSize: u32, raw: Bytes,
                             compressClip: ClipRequest -> LibraryResult): (o: EncodeOutcome)
    requires HeaderReadable(metadata) && HoldsMetadata(metadata, metadataSize)
    requires TransformsDefined(metadata, metadataSize, |raw|)
    ensures var n, s := NumTracks(metadata), NumSamples(metadata);
      var metadataOk := metadataSize == (32 + 56 * n) % U32_LIMIT;
      var sizesOk := metadataOk && |raw| >= (80 * s * n) % U32_LIMIT;
      && (o == InvalidMetadataSize <==> !metadataOk)
      && (o == InvalidRawDataSize <==> metadataOk && |raw| < (80 * s * n) % U32_LIMIT)
      && (o == CompressionFailed <==> sizesOk && compressClip(TransformRequest(metadata, raw)).Failed?)
      && (o == RawBufferTooSmall <==>
            sizesOk && compressClip(TransformRequest(metadata, raw)).Produced? && |raw| < |compressClip(TransformRequest(metadata, raw)).bytes|)
      && (o.Compressed? ==> sizesOk && compressClip(TransformRequest(metadata, raw)) == Produced(o.bytes) &&
                            |o.bytes| <= |raw|)
      && !o.UnsupportedSampleType?
  {
    var n, s := NumTracks(metadata), NumSamples(metadata);
    if TransformMetadataSize(n) != metadataSize then InvalidMetadataSize
    else if |raw| < TransformRawSize(s, n) then InvalidRawDataSize
    else
      match compressClip(TransformRequest(metadata, raw))
      case Failed => CompressionFailed
      case Produced(bytes) => if |raw| < |bytes| then RawBufferTooSmall else Compressed(bytes)
  }

  /** `std::memcpy(raw_data, compressed, compressed_size)` */
  method CopyInto(raw: array<byte>, bytes: seq<byte>)
    requires |bytes| <= raw.Length
    modifies raw
    ensures raw[..] == bytes + old(raw[..])[|bytes|..]
  {
    forall i | 0 <= i < |bytes| {
      raw[i] := bytes[i];
    }
    assert raw[..] == bytes + old(raw[..])[|bytes|..];
  }

  method CompressTransforms(metadata: seq<real>, metadataSize: u32, raw: array<byte>,
                            compressClip: ClipRequest -> LibraryResult) returns (r: int)
    requires raw.Length < U32_LIMIT
    requires HeaderReadable(metadata) && HoldsMetadata(metadata, metadataSize)
    requires TransformsDefined(metadata, metadataSize, raw.Length)
    modifies raw
    ensures var o := TransformsOutcome(metadata, metadataSize, old(raw[..]), compressClip);
      r == ReturnCode(o) && CopiedBack(old(raw[..]), raw[..], o)
  {
    var numTracks := NumTracks(metadata);
    var numSamples := NumSamples(metadata);
    var sampleRate := SampleRate(metadata);
    if TransformMetadataSize(numTracks) != metadataSize {
      return INVALID_METADATA_SIZE;
    }
    if raw.Length < TransformRawSize(numSamples, numTracks) {
      return INVALID_RAW_DATA_SIZE;
    }
    var descs := TransformDescs(metadata, numTracks);
    var skeleton := BuildSkeleton(descs, numTracks);
    var clip := BuildClip(descs, skeleton, numTracks, numSamples, sampleRate, VECTOR_LOAD3_WIDTH);
    var result := compressClip(ClipRequest(skeleton, clip, ReadSettings(metadata), raw[..]));
    assert result == compressClip(TransformRequest(metadata, raw[..]));
    if result.Failed? {
      return COMPRESSION_FAILED;
    }
    var compressedSize := |result.bytes|;
    if raw.Length < compressedSize {
      return RAW_BUFFER_TOO_SMALL;
    }
    CopyInto(raw, result.bytes);
    r := AsInt32(compressedSize);
  }

  // ---------------------------------------------------------------------------
  // compress_scalars

  /** The calls of `compress_scalars` that have defined behaviour: once both size
      checks pass, the descriptor table the loop reads lies inside the metadata buffer
      and every `output_index` converts to `uint32_t`. */
  predicate ScalarsDefined(metadata: seq<real>, metadataSize: u32, rawSize: nat)
    requires HeaderReadable(metadata)
  {
    var n := NumTracks(metadata);
    metadataSize == ScalarMetadataSize(n) && rawSize >= ScalarRawSize(NumSamples(metadata), n) ==>
      && HEADER_DOUBLES + SCALAR_DESC_DOUBLES * n <= |metadata|
      && TrackIndicesCastable(ScalarDescs(metadata, n))
  }

  function ScalarRequest(metadata: seq<real>, raw: seq<byte>): TrackListRequest
    requires HeaderReadable(metadata)
    requires HEADER_DOUBLES + SCALAR_DESC_DOUBLES * NumTracks(metadata) <= |metadata|
    requires TrackIndicesCastable(ScalarDescs(metadata, NumTracks(metadata)))
  {
    TrackListRequest(TrackArraySpec(ScalarDescs(metadata, NumTracks(metadata)), NumSamples(metadata), SampleRate(metadata)), raw)
  }

  /** `compress_scalars`: the same check order as the transform path, with
      `32 + 16 * N` metadata bytes and at least `8 * S * N` raw bytes (both in `size_t`). */
  function ScalarsOutcome(metadata: seq<real>, metadataSize: u32, raw: Bytes,
                          compressTracks: TrackListRequest -> LibraryResult): (o: EncodeOutcome)
    requires HeaderReadable(metadata) && HoldsMetadata(metadata, metadataSize)
    requires ScalarsDefined(metadata, metadataSize, |raw|)
    ensures var n, s := NumTracks(metadata), NumSamples(metadata);
      var metadataOk := metadataSize == (32 + 16 * n) % U32_LIMIT;
      var sizesOk := metadataOk && |raw| >= (8 * s * n) % U32_LIMIT;
      && (o == InvalidMetadataSize <==> !metadataOk)
      && (o == InvalidRawDataSize <==> metadataOk && |raw| < (8 * s * n) % U32_LIMIT)
      && (o == CompressionFailed <==> sizesOk && compressTracks(ScalarRequest(metadata, raw)).Failed?)
      && (o == RawBufferTooSmall <==>
            sizesOk && compressTracks(ScalarRequest(metadata, raw)).Produced? && |raw| < |compressTracks(ScalarRequest(metadata, raw)).bytes|)
      && (o.Compressed? ==> sizesOk && compressTracks(ScalarRequest(metadata, raw)) == Produced(o.bytes) &&
                            |o.bytes| <= |raw|)
      && !o.UnsupportedSampleType?
  {
    var n, s := NumTracks(metadata), NumSamples(metadata);
    if ScalarMetadataSize(n) != metadataSize then InvalidMetadataSize
    else if |raw| < ScalarRawSize(s, n) then InvalidRawDataSize
    else
      match compressTracks(ScalarRequest(metadata, raw))
      case Failed => CompressionFailed
      case Produced(bytes) => if |raw| < |bytes| then RawBufferTooSmall else Compressed(bytes)
  }

  method CompressScalars(metadata: seq<real>, metadataSize: u32, raw: array<byte>,
                         compressTracks: TrackListRequest -> LibraryResult) returns (r: int)
    requires raw.Length < U32_LIMIT
    requires HeaderReadable(metadata) && HoldsMetadata(metadata, metadataSize)
    requires ScalarsDefined(metadata, metadataSize, raw.Length)
    modifies raw
    ensures var o := ScalarsOutcome(metadata, metadataSize, old(raw[..]), compressTracks);
      r == ReturnCode(o) && CopiedBack(old(raw[..]), raw[..], o)
  {
    var numTracks := NumTracks(metadata);
    var numSamples := NumSamples(metadata);
    var sampleRate := SampleRate(metadata);
    if ScalarMetadataSize(numTracks) != metadataSize {
      return INVALID_METADATA_SIZE;
    }
    if raw.Length < ScalarRawSize(numSamples, numTracks) {
      return INVALID_RAW_DATA_SIZE;
    }
    var descs := ScalarDescs(metadata, numTracks);
    var tracks := BuildTrackArray(descs, numTracks, numSamples, sampleRate);
    var result := compressTracks(TrackListRequest(tracks, raw[..]));
    assert result == compressTracks(ScalarRequest(metadata, raw[..]));
    if result.Failed? {
      return COMPRESSION_FAILED;
    }
    var compressedSize := |result.bytes|;
    if raw.Length < compressedSize {
      return RAW_BUFFER_TOO_SMALL;
    }
    CopyInto(raw, result.bytes);
    r := AsInt32(compressedSize);
  }

  // ---------------------------------------------------------------------------
  // compress

  /** The calls of `compress` that have defined behaviour: the tag converts to the
      enumeration, and the path it selects reads a full header and is defined. */
  predicate CompressDefined(metadata: seq<real>, metadataSize: u32, rawSize: nat) {
    && TagReadable(metadata)
    && (SampleType(metadata) == SAMPLE_TYPE_QVVD ==>
          HeaderReadable(metadata) && TransformsDefined(metadata, metadataSize, rawSize))
    && (SampleType(metadata) == SAMPLE_TYPE_FLOATD ==>
          HeaderReadable(metadata) && ScalarsDefined(metadata, metadataSize, rawSize))
  }

  /** `compress`: tag 0 takes the transform path, tag 1 the scalar path, and any other
      tag is unsupported, decided from word 1 alone before any size is read. */
  function CompressOutcome(metadata: seq<real>, metadataSize: u32, raw: Bytes,
                           compressClip: ClipRequest -> LibraryResult,
                           compressTracks: TrackListRequest -> LibraryResult): (o: EncodeOutcome)
    requires HoldsMetadata(metadata, metadataSize) && CompressDefined(metadata, metadataSize, |raw|)
    ensures o.UnsupportedSampleType? <==> SampleType(metadata) !in {SAMPLE_TYPE_QVVD, SAMPLE_TYPE_FLOATD}
    ensures SampleType(metadata) == SAMPLE_TYPE_QVVD ==> o == TransformsOutcome(metadata, metadataSize, raw, compressClip)
    ensures SampleType(metadata) == SAMPLE_TYPE_FLOATD ==> o == ScalarsOutcome(metadata, metadataSize, raw, compressTracks)
  {
    var sampleType := SampleType(metadata);
    if sampleType == SAMPLE_TYPE_QVVD then TransformsOutcome(metadata, metadataSize, raw, compressClip)
    else if sampleType == SAMPLE_TYPE_FLOATD then ScalarsOutcome(metadata, metadataSize, raw, compressTracks)
    else UnsupportedSampleType
  }

  method Compress(metadata: seq<real>, metadataSize: u32, raw: array<byte>,
                  compressClip: ClipRequest -> LibraryResult,
                  compressTracks: TrackListRequest -> LibraryResult) returns (r: int)
    requires raw.Length < U32_LIMIT
    requires HoldsMetadata(metadata, metadataSize) && CompressDefined(metadata, metadataSize, raw.Length)
    modifies raw
    ensures var o := CompressOutcome(metadata, metadataSize, old(raw[..]), compressClip, compressTracks);
      r == ReturnCode(o) && CopiedBack(old(raw[..]), raw[..], o)
  {
    var sampleType := SampleType(metadata);
    if sampleType == SAMPLE_TYPE_QVVD {
      r := CompressTransforms(metadata, metadataSize, raw, compressClip);
    } else if sampleType == SAMPLE_TYPE_FLOATD {
      r := CompressScalars(metadata, metadataSize, raw, compressTracks);
    } else {
      r := UNSUPPORTED_SAMPLE_TYPE;
    }
  }

  // ---------------------------------------------------------------------------
  // Size checks without and with wrap-around

  /** When `32 + 56 * N` and `80 * S * N` fit in 32 bits, the transform path returns -1
      exactly when the metadata size is not `32 + 56 * N` and -2 exactly when it is but
      the raw buffer holds fewer than `80 * S * N` bytes. */
  lemma TransformSizeChecksExact(metadata: seq<real>, metadataSize: u32, raw: Bytes,
                                 compressClip: ClipRequest -> LibraryResult)
    requires HeaderReadable(metadata) && HoldsMetadata(metadata, metadataSize)
    requires TransformsDefined(metadata, metadataSize, |raw|)
    requires 32 + 56 * NumTracks(metadata) < U32_LIMIT
    requires 80 * NumSamples(metadata) * NumTracks(metadata) < U32_LIMIT
    ensures var n, s := NumTracks(metadata), NumSamples(metadata);
      var o := TransformsOutcome(metadata, metadataSize, raw, compressClip);
      && (o == InvalidMetadataSize <==> metadataSize != 32 + 56 * n)
      && (o == InvalidRawDataSize <==> metadataSize == 32 + 56 * n && |raw| < 80 * s * n)
  {
    var n: nat, s: nat := NumTracks(metadata), NumSamples(metadata);
    assert Wrap32(32 + 56 * n) == 32 + 56 * n;
    assert Wrap32(80 * s * n) == 80 * s * n;
  }

  /** The scalar-path counterpart of TransformSizeChecksExact, with `32 + 16 * N` and
      `8 * S * N`. */
  lemma ScalarSizeChecksExact(metadata: seq<real>, metadataSize: u32, raw: Bytes,
                              compressTracks: TrackListRequest -> LibraryResult)
    requires HeaderReadable(metadata) && HoldsMetadata(metadata, metadataSize)
    requires ScalarsDefined(metadata, metadataSize, |raw|)
    requires 32 + 16 * NumTracks(metadata) < U32_LIMIT
    requires 8 * NumSamples(metadata) * NumTracks(metadata) < U32_LIMIT
    ensures var n, s := NumTracks(metadata), NumSamples(metadata);
      var o := ScalarsOutcome(metadata, metadataSize, raw, compressTracks);
      && (o == InvalidMetadataSize <==> metadataSize != 32 + 16 * n)
      && (o == InvalidRawDataSize <==> metadataSize == 32 + 16 * n && |raw| < 8 * s * n)
  {
    var n: nat, s: nat := NumTracks(metadata), NumSamples(metadata);
    assert Wrap32(32 + 16 * n) == 32 + 16 * n;
    assert Wrap32(8 * s * n) == 8 * s * n;
  }

  /** The raw size check is computed in 32 bits: with one transform track of 53687092
      samples the expected size wraps to 64 bytes, so a 64-byte raw buffer passes the
      -2 check while the clip's second sample already loads from double 10, past the 8
      doubles the buffer holds. */
  lemma RawSizeCheckWraps()
    ensures 80 * 53687092 * 1 > U32_LIMIT
    ensures TransformRawSize(53687092, 1) == 64
    ensures TransformOffset32(0, 1, 53687092) == 10
  {
  }
}
