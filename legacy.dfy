/** The earlier encoder entry point `compress` (sources/acl.cpp): transform tracks
    only, an exact raw size, small integers returned in place of a pointer to report
    errors, and a read-only raw buffer, with the compressed clip returned as a
    separate buffer. Its `build_clip` loads translations and scales with
    `vector_load` (4 doubles). */
module Legacy {
  import opened Native
  import opened Layout
  import opened Metadata
  import opened ClipBuild
  import Encoder

  /** The pointer values `compress` returns to report an error. */
  const UNSUPPORTED_SAMPLE_TYPE: nat := 0
  const INVALID_METADATA_SIZE: nat := 1
  const INVALID_RAW_DATA_SIZE: nat := 2
  const COMPRESSION_FAILED: nat := 3

  /** The `unsigned char*` the function returns: an error sentinel or the clip. */
  datatype LegacyResult = Sentinel(code: nat) | CompressedClip(bytes: Bytes)

  /** The calls with defined behaviour: the whole header is read and converted before
      the sample type is checked; once all checks pass the descriptor table is read,
      converted and indexed by `uint16_t`. */
  predicate LegacyDefined(metadata: seq<real>, metadataSize: u32, rawSize: nat) {
    && HeaderReadable(metadata) && TagReadable(metadata)
    && (var n := NumTracks(metadata);
        SampleType(metadata) == SAMPLE_TYPE_QVVD && metadataSize == TransformMetadataSize(n) &&
        rawSize == TransformRawSize(NumSamples(metadata), n) ==>
          && n < U16_LIMIT
          && HEADER_DOUBLES + TRANSFORM_DESC_DOUBLES * n <= |metadata|
          && IndicesCastable(TransformDescs(metadata, n)))
  }

  /** The skeleton, clip and settings the legacy path hands to `compress_clip`. */
  function LegacyRequest(metadata: seq<real>, raw: seq<byte>): ClipRequest
    requires HeaderReadable(metadata)
    requires NumTracks(metadata) < U16_LIMIT
    requires HEADER_DOUBLES + TRANSFORM_DESC_DOUBLES * NumTracks(metadata) <= |metadata|
    requires IndicesCastable(TransformDescs(metadata, NumTracks(metadata)))
  {
    var n := NumTracks(metadata);
    var descs := TransformDescs(metadata, n);
    ClipRequest(SkeletonSpec(descs, n), ClipSpec(descs, NumSamples(metadata), SampleRate(metadata), VECTOR_LOAD_WIDTH),
                ReadSettings(metadata), raw)
  }

  /** The legacy `compress`: sentinel 0 for any tag but transforms; then 1 exactly when
      the metadata size is not `32 + 56 * N`; then 2 exactly when the raw size is not
      exactly `80 * S * N` (both in `size_t`); then 3 exactly when the codec fails;
      otherwise the codec's compressed clip. */
  function LegacyOutcome(metadata: seq<real>, metadataSize: u32, raw: Bytes,
                         compressClip: ClipRequest -> LibraryResult): (r: LegacyResult)
    requires LegacyDefined(metadata, metadataSize, |raw|)
    ensures var n, s := NumTracks(metadata), NumSamples(metadata);
      var transforms := SampleType(metadata) == SAMPLE_TYPE_QVVD;
      var metadataOk := metadataSize == (32 + 56 * n) % U32_LIMIT;
      var sizesOk := transforms && metadataOk && |raw| == (80 * s * n) % U32_LIMIT;
      && (r == Sentinel(UNSUPPORTED_SAMPLE_TYPE) <==> !transforms)
      && (r == Sentinel(INVALID_METADATA_SIZE) <==> transforms && !metadataOk)
      && (r == Sentinel(INVALID_RAW_DATA_SIZE) <==> transforms && metadataOk && |raw| != (80 * s * n) % U32_LIMIT)
      && (r == Sentinel(COMPRESSION_FAILED) <==> sizesOk && compressClip(LegacyRequest(metadata, raw)).Failed?)
      && (r.CompressedClip? <==> sizesOk && compressClip(LegacyRequest(metadata, raw)).Produced?)
      && (r.CompressedClip? ==> compressClip(LegacyRequest(metadata, raw)) == Produced(r.bytes))
      && (r.Sentinel? ==> r.code <= COMPRESSION_FAILED)
  {
    var n, s := NumTracks(metadata), NumSamples(metadata);
    if SampleType(metadata) != SAMPLE_TYPE_QVVD then Sentinel(UNSUPPORTED_SAMPLE_TYPE)
    else if TransformMetadataSize(n) != metadataSize then Sentinel(INVALID_METADATA_SIZE)
    else if TransformRawSize(s, n) != |raw| then Sentinel(INVALID_RAW_DATA_SIZE)
    else
      match compressClip(LegacyRequest(metadata, raw))
      case Failed => Sentinel(COMPRESSION_FAILED)
      case Produced(bytes) => CompressedClip(bytes)
  }

  /** `compress` takes `const unsigned char* raw_data`: it has no `modifies` clause and
      returns the codec's buffer rather than copying it back. */
  method Compress(metadata: seq<real>, metadataSize: u32, raw: array<byte>,
                  compressClip: ClipRequest -> LibraryResult) returns (r: LegacyResult)
    requires raw.Length < U32_LIMIT
    requires LegacyDefined(metadata, metadataSize, raw.Length)
    ensures r == LegacyOutcome(metadata, metadataSize, raw[..], compressClip)
  {
    var numTracks := NumTracks(metadata);
    var sampleType := SampleType(metadata);
    var numSamples := NumSamples(metadata);
    var sampleRate := SampleRate(metadata);
    if sampleType != SAMPLE_TYPE_QVVD {
      return Sentinel(UNSUPPORTED_SAMPLE_TYPE);
    }
    if TransformMetadataSize(numTracks) != metadataSize {
      return Sentinel(INVALID_METADATA_SIZE);
    }
    if TransformRawSize(numSamples, numTracks) != raw.Length {
      return Sentinel(INVALID_RAW_DATA_SIZE);
    }
    var descs := TransformDescs(metadata, numTracks);
    var skeleton := BuildSkeleton(descs, numTracks);
    var clip := BuildClip(descs, skeleton, numTracks, numSamples, sampleRate, VECTOR_LOAD_WIDTH);
    var result := compressClip(ClipRequest(skeleton, clip, ReadSettings(metadata), raw[..]));
    assert result == compressClip(LegacyRequest(metadata, raw[..]));
    if result.Failed? {
      return Sentinel(COMPRESSION_FAILED);
    }
    r := CompressedClip(result.bytes);
  }

  /** The legacy checks agree with the transform path of the newer encoder on the
      metadata size, and its exact raw size check is stricter: every raw buffer it
      accepts the newer encoder accepts too, and one byte more is accepted only by the
      newer encoder. */
  lemma StricterThanEncoder(metadata: seq<real>, metadataSize: u32, raw: Bytes,
                            compressClip: ClipRequest -> LibraryResult, longer: Bytes)
    requires LegacyDefined(metadata, metadataSize, |raw|) && HoldsMetadata(metadata, metadataSize)
    requires SampleType(metadata) == SAMPLE_TYPE_QVVD
    requires Encoder.TransformsDefined(metadata, metadataSize, |raw|)
    requires Encoder.TransformsDefined(metadata, metadataSize, |longer|)
    requires LegacyDefined(metadata, metadataSize, |longer|)
    requires |longer| == TransformRawSize(NumSamples(metadata), NumTracks(metadata)) + 1
    ensures var legacy := LegacyOutcome(metadata, metadataSize, raw, compressClip);
      var encoder := Encoder.TransformsOutcome(metadata, metadataSize, raw, compressClip);
      && (legacy == Sentinel(INVALID_METADATA_SIZE) <==> encoder == Encoder.InvalidMetadataSize)
      && (legacy.CompressedClip? || legacy == Sentinel(COMPRESSION_FAILED) ==>
            encoder != Encoder.InvalidMetadataSize && encoder != Encoder.InvalidRawDataSize)
    ensures metadataSize == TransformMetadataSize(NumTracks(metadata)) ==>
      && LegacyOutcome(metadata, metadataSize, longer, compressClip) == Sentinel(INVALID_RAW_DATA_SIZE)
      && Encoder.TransformsOutcome(metadata, metadataSize, longer, compressClip) != Encoder.InvalidRawDataSize
  {
  }

  /** Once the legacy checks pass for at least one track and one sample, the raw buffer
      holds exactly `10 * S * N` doubles and the last sample's 4-wide scale load ends
      one double (8 bytes) past its end. */
  lemma LegacyScaleLoadOverruns(metadata: seq<real>, metadataSize: u32, raw: Bytes)
    requires LegacyDefined(metadata, metadataSize, |raw|)
    requires SampleType(metadata) == SAMPLE_TYPE_QVVD
    requires metadataSize == TransformMetadataSize(NumTracks(metadata))
    requires |raw| == TransformRawSize(NumSamples(metadata), NumTracks(metadata))
    requires 0 < NumTracks(metadata) && 0 < NumSamples(metadata)
    requires 80 * NumSamples(metadata) * NumTracks(metadata) < U32_LIMIT
    ensures var q := LegacyRequest(metadata, raw).clip.bones[NumTracks(metadata) - 1].samples[NumSamples(metadata) - 1];
      DOUBLE_SIZE * (q.scale.offset + q.scale.width) == |raw| + DOUBLE_SIZE
  {
    var n, s := NumTracks(metadata), NumSamples(metadata);
    var descs := TransformDescs(metadata, n);
    assert LegacyRequest(metadata, raw).clip == ClipSpec(descs, s, SampleRate(metadata), VECTOR_LOAD_WIDTH);
    WideLoadReadsPastEnd(descs, s, SampleRate(metadata));
    TransformRawSizeExact(s, n);
  }
}
