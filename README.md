# acl-js native glue, modelled in Dafny

acl-js exposes the Animation Compression Library (ACL) to JavaScript through a
WebAssembly module. The JavaScript side fills two flat buffers of doubles:

- a metadata buffer: a 4-double header (track count, sample type tag, samples per
  track, sample rate), then one descriptor per track;
- a raw data buffer: the samples, track by track.

It then calls the exported C++ entry points by byte offset. This project models that
C++ glue:

- the encoder entry point `compress` in `src-encoder-cpp/encoder.cpp`, with its
  transform path `compress_transforms` and its scalar path `compress_scalars`;
- the earlier encoder `compress` in `sources/acl.cpp`;
- the decoder entry points `decompress_tracks` and `decompress_track`, and the two
  track writers, in `src-decoder-cpp/decoder.cpp`.

The glue checks sizes, lays samples out, maps indices and returns error codes. The
codec itself is not modelled: compression is a function parameter, and what the codec
reports about a compressed buffer is an input.

Modules, in dependency order:

- `Native` (`native.dfy`) covers the wasm32 target:
  - `size_t` and `uint32_t` arithmetic wraps modulo 2^32;
  - conversion of the compressed size to the returned `int`;
  - `double`-to-integer casts truncate toward zero.
- `Layout` (`layout.dfy`) covers the index arithmetic of the raw buffer. A transform
  sample `(t, s)` is the 10-double block at `10 * S * t + 10 * s`, split into
  rotation (+0), translation (+4) and scale (+7). A scalar sample is at `S * t + s`.
  The offsets are computed in `uint32_t` exactly as the source does.
- `Metadata` (`metadata.dfy`) covers the header words, the expected metadata and raw
  sizes, the descriptor tables, and the compression settings read from descriptor 0.
- `ClipBuild` (`clipbuild.dfy`) covers `build_skeleton` and `build_clip`, which both
  encoders share. They are array-filling loops proved against specification functions.
  A sample records which raw doubles the codec loads. The vector load width is a
  parameter: 3 for `vector_load3` in `encoder.cpp`, 4 for `vector_load` in `acl.cpp`.
- `Encoder` (`encoder.dfy`) covers `compress`, `compress_transforms`,
  `compress_scalars` and the scalar track loop. The outcome functions state every
  return code as an if-and-only-if, in the fixed check order. The methods change the
  caller's raw buffer in place, as the `memcpy` does.
- `Legacy` (`legacy.dfy`) covers the `acl.cpp` `compress`. It returns small integer
  sentinels or the compressed clip, and it never writes the raw buffer.
- `Decoder` (`decoder.dfy`) covers both decoder entry points as guard chains, with a
  reference definition (`FirstFailure` over a list of guards). It also covers the two
  track writers as classes over a `float` array.

Two facts about the code are easy to miss:

- `encoder.cpp` only requires the raw buffer to be at least the header-derived size
  (`encoder.cpp` lines 127 and 184). `acl.cpp` requires equality (line 126).
- Neither decoder entry point has a code for a failed context initialisation. They
  return only 0, -1, -2, -3, -4 and, for `decompress_track`, -5 (`decoder.cpp`
  lines 69-196).

Several contracts describe the code as written, wrap-around included:

- `RawSizeCheckWraps` shows that the transform raw-size check wraps for large `S * N`.
- `LargeSizeReadsAsError` shows that a compressed size of at least 2^31 reads back as
  a negative code, -1 for 2^32 - 1 bytes, although the raw buffer was overwritten.
- `LegacyScaleLoadOverruns` shows that the legacy 4-wide scale load of the last sample
  reads one double past the raw buffer.
- `TrackListOutputCheckWraps` shows that the decoder's output-size check wraps for
  2^30 tracks.
- `HugeTrackListAcceptsNegativeIndex` shows that a negative track index is accepted
  for a list of more than 2^31 tracks.

## Model

| member | source | states |
|---|---|---|
| Native.Wrap32 | acl-js/src-encoder-cpp/encoder.cpp:122 | a `size_t` value is the mathematical value modulo 2^32, unchanged when it already fits |
| Native.AsInt32 | acl-js/src-encoder-cpp/encoder.cpp:155-167 | the `uint32_t` compressed size returned as `int` is congruent to it and is non-negative exactly when it is below 2^31 |
| Native.CastU32 | acl-js/src-encoder-cpp/encoder.cpp:118-119 | `static_cast<uint32_t>` of a double truncates toward zero: the result is the integer part of a non-negative input |
| Native.CastU16 | acl-js/src-encoder-cpp/encoder.cpp:74 | `static_cast<uint16_t>` of a double truncates toward zero |
| Native.CastI32 | acl-js/src-encoder-cpp/encoder.cpp:243 | the conversion of the tag double to the `sample_types` enumeration truncates toward zero |
| Layout.FlatIndexRoundTrip | acl-js/src-encoder-cpp/encoder.cpp:203-206 | `S * t + s` lies below `S * N` for t < N and s < S, and dividing by S recovers t and s |
| Layout.UnflattenRoundTrip | acl-js/src-encoder-cpp/encoder.cpp:203-206 | every index below `S * N` is `S * t + s` for one pair with t < N and s < S |
| Layout.FlatIndexInjective | acl-js/src-encoder-cpp/encoder.cpp:203-206 | distinct (track, sample) pairs get distinct raw indices |
| Layout.TransformBlockInBounds | acl-js/src-encoder-cpp/encoder.cpp:94-97 | sample (t, s) starts at `10 * S * t + 10 * s`, and its 10 doubles end at or before `10 * S * N` |
| Layout.LastTransformBlockEnd | acl-js/src-encoder-cpp/encoder.cpp:94-97 | the block of the last sample of the last track ends exactly at `10 * S * N` |
| Layout.TransformBlocksDisjoint | acl-js/src-encoder-cpp/encoder.cpp:94-97 | the 10-double blocks of distinct samples do not overlap |
| Layout.TransformOffsetExact | acl-js/src-encoder-cpp/encoder.cpp:94-97 | when `10 * S * N` fits in 32 bits, the `uint32_t` offset computed by the loop equals the mathematical block start |
| Layout.TransformOffset32 | acl-js/src-encoder-cpp/encoder.cpp:94-97 | the `uint32_t` sample offset `(s * 10) + t * 10 * S` is the mathematical block start `10 * (S * t + s)` reduced modulo 2^32 |
| Layout.ScalarOffset32 | acl-js/src-encoder-cpp/encoder.cpp:203-206 | the `uint32_t` sample offset `s + t * S` is the flat index `S * t + s` reduced modulo 2^32 |
| Layout.ScalarOffsetExact | acl-js/src-encoder-cpp/encoder.cpp:203-206 | when `S * N` fits in 32 bits, the `uint32_t` scalar offset equals `S * t + s` |
| Layout.QvvReadSplit | acl-js/src-encoder-cpp/encoder.cpp:99-106 | rotation +0..3, translation +4 and scale +7 loads of width at most 3 are disjoint and inside the 10-double block; the scale load stays inside exactly when the width is at most 3 |
| Metadata.SampleType | acl-js/src-encoder-cpp/encoder.cpp:243 | the tag converts to `qvvd` (0) exactly for a word 1 in (-1, 1), and to `floatd` (1) exactly for a word 1 in [1, 2) |
| Metadata.NumTracks | acl-js/src-encoder-cpp/encoder.cpp:118 | `num_tracks` is the integer part of header word 0 |
| Metadata.NumSamples | acl-js/src-encoder-cpp/encoder.cpp:119 | `num_samples_per_track` is the integer part of header word 2 |
| Metadata.ReadSettings | acl-js/src-encoder-cpp/encoder.cpp:143-146 | the settings are descriptor 0's precision (double 6) and rotation, translation and scale thresholds (doubles 8, 9, 10); the read is past the end exactly when the buffer holds fewer than 11 doubles |
| Metadata.TransformMetadataSize | acl-js/src-encoder-cpp/encoder.cpp:122 | the expected metadata size is `32 + 56 * N` modulo 2^32 |
| Metadata.ScalarMetadataSize | acl-js/src-encoder-cpp/encoder.cpp:179 | the expected metadata size is `32 + 16 * N` modulo 2^32 |
| Metadata.TransformRawSize | acl-js/src-encoder-cpp/encoder.cpp:126 | the expected raw size is `80 * S * N` modulo 2^32, evaluated left to right in `size_t` |
| Metadata.ScalarRawSize | acl-js/src-encoder-cpp/encoder.cpp:183 | the expected raw size is `8 * S * N` modulo 2^32 |
| Metadata.TransformRawSizeExact | acl-js/src-encoder-cpp/encoder.cpp:126 | without wrap-around the expected raw size is 8 bytes for each of the `10 * S * N` doubles |
| Metadata.MetadataSizeFixesTable | acl-js/src-encoder-cpp/encoder.cpp:122-124 | a metadata buffer of the expected size holds exactly the header plus N descriptors |
| Metadata.SettingsInBounds | acl-js/src-encoder-cpp/encoder.cpp:143-146 | the thresholds read from descriptor 0 lie inside the metadata buffer exactly when there is at least one track |
| ClipBuild.BoneIndex | acl-js/src-encoder-cpp/encoder.cpp:74 | a non-negative index maps to its truncated value, a negative one to `k_invalid_bone_index` |
| ClipBuild.BoneIndexInvalid | acl-js/src-encoder-cpp/encoder.cpp:92 | the mapped index is the invalid-bone sentinel exactly when the double is negative or at least 65535 |
| ClipBuild.SkeletonSpec | acl-js/src-encoder-cpp/encoder.cpp:64-80 | one bone per transform (count truncated to `uint16_t`), with the descriptor's shell distance and a parent that is the sentinel exactly for a negative or out-of-range parent index |
| ClipBuild.BuildSkeleton | acl-js/src-encoder-cpp/encoder.cpp:64-80 | the loop fills the bone array to exactly SkeletonSpec; `build_skeleton` in `sources/acl.cpp` (lines 59-75) is the same loop |
| ClipBuild.BuildClip | acl-js/src-encoder-cpp/encoder.cpp:82-111 | the nested loops build exactly ClipSpec: each bone's output index mapped, and each sample loading from its `uint32_t` block offset +0, +4 and +7; `build_clip` in `sources/acl.cpp` (lines 77-106) is the same loop with 4-wide loads |
| ClipBuild.ClipReadsInBounds | acl-js/src-encoder-cpp/encoder.cpp:94-106 | with 3-wide loads and no wrap-around, every sample's loads lie inside its own block, inside `10 * S * N`, and blocks of distinct samples are disjoint |
| ClipBuild.WideLoadReadsPastEnd | acl-js/sources/acl.cpp:89-101 | with 4-wide loads the last sample's scale load ends at `10 * S * N + 1`, one double past the samples |
| Encoder.TrackIndex | acl-js/src-encoder-cpp/encoder.cpp:198 | a non-negative output index maps to its truncated value, a negative one to `k_invalid_track_index` |
| Encoder.BuildTrackArray | acl-js/src-encoder-cpp/encoder.cpp:192-213 | the track loop builds exactly TrackArraySpec: one track per descriptor, with sample s of track t loaded from `uint32_t` offset `t * S + s` |
| Encoder.ScalarReadsBijective | acl-js/src-encoder-cpp/encoder.cpp:203-207 | without wrap-around, sample (t, s) reads double `S * t + s`, and every double below `S * N` is read by exactly the sample its quotient and remainder name |
| Encoder.ReturnCode | acl-js/src-encoder-cpp/encoder.cpp:155-167 | error outcomes return 0 to -4; success returns the compressed size as `int`, non-negative exactly when below 2^31 |
| Encoder.NegativeCodeLeavesRaw | acl-js/src-encoder-cpp/encoder.cpp:151-167 | when the compressed size is below 2^31, a negative return leaves the raw buffer unchanged, and on success the result is the compressed size and the buffer starts with the compressed bytes (above that size see LargeSizeReadsAsError) |
| Encoder.LargeSizeReadsAsError | acl-js/src-encoder-cpp/encoder.cpp:155-167 | a compressed size of 2^31 or more returns the negative `int` `size - 2^32` although the copy happened; 2^32 - 1 returns -1 |
| Encoder.TransformsOutcome | acl-js/src-encoder-cpp/encoder.cpp:113-168 | -1 iff the metadata size is not `32 + 56 * N`; -2 iff it is and the raw size is below `80 * S * N`; -3 iff both pass and the codec fails; -4 iff the codec's bytes exceed the raw buffer; otherwise the codec's bytes |
| Encoder.CopiedBack | acl-js/src-encoder-cpp/encoder.cpp:162-167 | the raw buffer keeps its length; after a success its front holds the compressed bytes and every later byte is the old one |
| Encoder.CopyInto | acl-js/src-encoder-cpp/encoder.cpp:164 | the buffer's front becomes the bytes and every later byte is unchanged |
| Encoder.CompressTransforms | acl-js/src-encoder-cpp/encoder.cpp:113-168 | returns the code of TransformsOutcome and leaves the raw buffer copied back on success, untouched otherwise |
| Encoder.ScalarsOutcome | acl-js/src-encoder-cpp/encoder.cpp:170-237 | the same ordered if-and-only-if codes with `32 + 16 * N` metadata bytes and a lower bound of `8 * S * N` raw bytes |
| Encoder.CompressScalars | acl-js/src-encoder-cpp/encoder.cpp:170-237 | returns the code of ScalarsOutcome and leaves the raw buffer copied back on success, untouched otherwise |
| Encoder.CompressOutcome | acl-js/src-encoder-cpp/encoder.cpp:239-251 | tag 0 takes the transform path and tag 1 the scalar path; any other tag is unsupported (code 0) |
| Encoder.Compress | acl-js/src-encoder-cpp/encoder.cpp:239-251 | returns the code of CompressOutcome; an unsupported tag leaves the raw buffer untouched |
| Encoder.TransformSizeChecksExact | acl-js/src-encoder-cpp/encoder.cpp:122-128 | without wrap-around, -1 iff the metadata size is not `32 + 56 * N`, and -2 iff it is but the raw buffer is shorter than `80 * S * N` |
| Encoder.ScalarSizeChecksExact | acl-js/src-encoder-cpp/encoder.cpp:179-185 | without wrap-around, -1 iff the metadata size is not `32 + 16 * N`, and -2 iff it is but the raw buffer is shorter than `8 * S * N` |
| Encoder.RawSizeCheckWraps | acl-js/src-encoder-cpp/encoder.cpp:126-128 | for one track of 53687092 samples the expected raw size wraps to 64 bytes while the second sample starts at double 10 |
| Legacy.LegacyOutcome | acl-js/sources/acl.cpp:108-154 | sentinel 0 iff the tag is not transforms; 1 iff the metadata size is not `32 + 56 * N`; 2 iff the raw size is not exactly `80 * S * N`; 3 iff the codec fails; otherwise the codec's clip |
| Legacy.Compress | acl-js/sources/acl.cpp:108-154 | returns LegacyOutcome and modifies nothing: the raw buffer is read-only |
| Legacy.StricterThanEncoder | acl-js/sources/acl.cpp:125-127 | the legacy metadata check agrees with the newer transform path; a raw buffer the legacy code accepts passes the newer checks, and one byte more passes only the newer checks |
| Legacy.LegacyScaleLoadOverruns | acl-js/sources/acl.cpp:97-100 | once the legacy checks pass, the raw buffer holds exactly `10 * S * N` doubles and the last scale load ends 8 bytes past it |
| Decoder.FirstFailure | acl-js/src-decoder-cpp/decoder.cpp:69-130 | evaluating a chain of checks yields 0 iff no check fails, and otherwise the code of the first failing check |
| Decoder.DetectFormat | acl-js/src-decoder-cpp/decoder.cpp:74-103 | clip format only for a valid clip, track-list format only for valid tracks, and unrecognised exactly when neither reading is valid |
| Decoder.TracksGuards | acl-js/src-decoder-cpp/decoder.cpp:69-130 | the checks of `decompress_tracks` all carry negative codes |
| Decoder.TrackGuards | acl-js/src-decoder-cpp/decoder.cpp:132-196 | the checks of `decompress_track` all carry negative codes |
| Decoder.DecompressTracks | acl-js/src-decoder-cpp/decoder.cpp:69-130 | the result is one of 0, -1, -2, -3, -4; null gives -1; -2 iff neither format is valid; 0 iff the declared size, output size (count times sample size, in `size_t`) and alignment checks all pass |
| Decoder.DecompressTracksFollowsGuards | acl-js/src-decoder-cpp/decoder.cpp:69-130 | the result is the first failure of the ordered checks null, format, declared size, output size, alignment |
| Decoder.ClipFormatTakesPrecedenceForTrack | acl-js/src-decoder-cpp/decoder.cpp:137-167 | for `decompress_track` too, a valid clip gives the same result whatever the track-list reading says, and never -2 |
| Decoder.ClipFormatTakesPrecedence | acl-js/src-decoder-cpp/decoder.cpp:74-103 | a valid clip gives the same result whatever the track-list reading says, and never -2 |
| Decoder.TrackListWritesInBounds | acl-js/src-decoder-cpp/decoder.cpp:105-124 | after success on a track list without wrap-around, every track's `float` slot lies inside the output buffer |
| Decoder.ClipPoseWritesInBounds | acl-js/src-decoder-cpp/decoder.cpp:80-96 | after success on a clip without wrap-around, every bone's `qvvf` lies inside the output buffer |
| Decoder.TrackListOutputCheckWraps | acl-js/src-decoder-cpp/decoder.cpp:108-111 | with 2^30 tracks the required output size wraps to 0 and an empty output passes |
| Decoder.DecompressTrack | acl-js/src-decoder-cpp/decoder.cpp:132-196 | the result is one of 0 to -5; null gives -1; -2 iff neither format is valid; -5 only after the size and alignment checks pass; 0 iff every check passes, with one sample of output required and the index compared as `uint32_t` |
| Decoder.DecompressTrackFollowsGuards | acl-js/src-decoder-cpp/decoder.cpp:132-196 | the result is the first failure of the ordered checks null, format, declared size, output size, alignment, track index |
| Decoder.OneSampleOfOutputSuffices | acl-js/src-decoder-cpp/decoder.cpp:143-144 | whether the output is too small does not depend on the number of bones or tracks |
| Decoder.NegativeIndexRejected | acl-js/src-decoder-cpp/decoder.cpp:150-151 | a negative index yields -5 once the earlier checks pass: always for a clip, and for a track list of at most 2^31 tracks |
| Decoder.AcceptedIndexInRange | acl-js/src-decoder-cpp/decoder.cpp:150-160 | on success the index is a valid non-negative track (a bone index below 65535 for a clip), and the output holds one sample |
| Decoder.HugeTrackListAcceptsNegativeIndex | acl-js/src-decoder-cpp/decoder.cpp:178-180 | a track list of 2^32 - 1 tracks accepts index -2 |
| Decoder.ScalarTrackWriter.constructor | acl-js/src-decoder-cpp/decoder.cpp:42-45 | the writer keeps the caller's output array |
| Decoder.ScalarTrackWriter.WriteFloat1 | acl-js/src-decoder-cpp/decoder.cpp:47-50 | `output[track_index]` gets the value and every other slot is unchanged |
| Decoder.SingleScalarTrackWriter.constructor | acl-js/src-decoder-cpp/decoder.cpp:57-60 | the writer keeps the caller's output array |
| Decoder.SingleScalarTrackWriter.WriteFloat1 | acl-js/src-decoder-cpp/decoder.cpp:62-66 | `output[0]` gets the value whatever the track index, and every other slot is unchanged |

## Left out

- Floating point: doubles are `real`, and the `float` values handed to the codec
  (sample rate, precision, thresholds) are not rounded. `rtm::degrees` and
  `quat_normalize` are not applied. A sample records which raw doubles it loads, not
  their values.
- Raw bytes are not reinterpreted as doubles: the metadata is a sequence of reals.
  The raw buffer is a byte sequence whose offsets are counted in doubles (8 bytes).
- The codec: `compress_clip`, `compress_track_list`, `is_valid`, `get_size`,
  `get_num_tracks`, decompression contexts, `seek` and `decompress_*`. These are
  foreign calls. Compression is a function parameter; the decoder's view of a
  compressed buffer and `sizeof`/`alignof(rtm::qvvf)` are inputs.
- `sample_time` and `rounding_policy` only reach the codec's `seek` and are not
  parameters of the decoder model.
- What the codec writes through the writers and the `DefaultOutputWriter` is not
  modelled. The writers are modelled, and the in-bounds lemmas state that every slot
  the codec may address exists.
- The `ANSIAllocator`: allocation, deallocation, and the lifetime of the clip returned
  by the legacy `compress`.
- `acl::is_aligned_to` masks with `alignment - 1`. It is modelled as divisibility,
  which agrees for the power-of-two alignments it is called with.
- Undefined behaviour is excluded by `requires` rather than modelled:
  - a `double` cast to an integer type out of range;
  - a header word or a track descriptor read past the metadata buffer. The read of
    descriptor 0's thresholds when there are no tracks (`encoder.cpp` lines 143-146,
    `acl.cpp` lines 140-143) is not excluded: it is modelled as `PastEndOfMetadata`
    and handed to the codec as such;
  - more than 65535 transforms indexed by `uint16_t`;
  - a writer index past the output array.
- Native.CastI32: the `sample_types` enumeration conversion is modelled as truncation
  to `int`; values outside its range are excluded by `requires`.
- ClipBuild.BuildClip: the clip's bone array is built fresh rather than obtained from
  `AnimationClip::get_animated_bone`.
- The regression tester (`tools/regression_tester/main.cpp`), `make.py` and
  `decoder.h` are not part of this model: they are file I/O, build tooling and
  declarations.
- The JavaScript host side (arena, track collections, sampling) is not part of this
  model.
