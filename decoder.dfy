/** The decoder entry points of the native module, `decompress_tracks` and
    `decompress_track`: a fixed chain of guards that either rejects the call with an
    error code or hands the buffers to the codec, plus the two track writers through
    which the codec stores decompressed scalar values. What the codec reports about a
    compressed buffer (its validity, declared size and track count) is an input;
    seeking and decompressing themselves are not modelled. */
module Decoder {
  import opened Native
  import Layout

  /** Return codes of both entry points. */
  const SUCCESS: int := 0
  const INVALID_ARGUMENT: int := -1
  const CORRUPTED_DATA: int := -2
  const OUTPUT_TOO_SMALL: int := -3
  const MISALIGNED_OUTPUT: int := -4
  const INVALID_TRACK_INDEX: int := -5

  /** `sizeof(float)` and `alignof(float)` */
  const FLOAT_SIZE: u32 := 4

  /** What the codec reports about the buffer read as an `acl::CompressedClip`:
      `is_valid(false).empty()`, `get_size()` and the header's `num_bones`. */
  datatype ClipView = ClipView(valid: bool, size: u32, numBones: u16)

  /** What the codec reports about the buffer read as `acl::compressed_tracks`:
      `is_valid(false).empty()`, `get_size()` and `get_num_tracks()`. */
  datatype TracksView = TracksView(valid: bool, size: u32, numTracks: u32)

  /** The `compressed_buffer` pointer: null, or bytes both views are read from. */
  datatype CompressedBuffer = Null | Buffer(asClip: ClipView, asTracks: TracksView)

  /** The `output_buffer` pointer, as an address, and `output_buffer_size`. */
  datatype OutputBuffer = OutputBuffer(address: u32, size: u32)

  type Alignment = a: u32 | 1 <= a witness 1

  /** `sizeof(rtm::qvvf)` and `alignof(rtm::qvvf)`, which depend on how the math
      library is built. */
  datatype QvvfLayout = QvvfLayout(size: u32, align: Alignment)

  /** `acl::is_aligned_to`, for the power-of-two alignments it is called with. */
  predicate IsAlignedTo(address: u32, align: Alignment) {
    address % align == 0
  }

  // ---------------------------------------------------------------------------
  // The guard chain as data: a reference definition of both entry points

  /** One check of an entry point: whether it fails, and the code it then returns. */
  datatype Guard = Guard(fails: bool, code: int)

  predicate ErrorCodes(guards: seq<Guard>) {
    forall i :: 0 <= i < |guards| ==> guards[i].code < 0
  }

  /** Evaluating a chain of checks in order: the code of the first one that fails,
      or success when none does. */
  function FirstFailure(guards: seq<Guard>): (r: int)
    requires ErrorCodes(guards)
    ensures r == SUCCESS <==> forall i :: 0 <= i < |guards| ==> !guards[i].fails
    ensures r != SUCCESS ==>
      exists i :: 0 <= i < |guards| && guards[i].fails && guards[i].code == r &&
        forall j :: 0 <= j < i ==> !guards[j].fails
  {
    if |guards| == 0 then SUCCESS
    else if guards[0].fails then guards[0].code
    else
      var r := FirstFailure(guards[1..]);
      assert forall i :: 1 <= i < |guards| ==> guards[i] == guards[1..][i - 1];
      r
  }

  /** The format the buffer is read in: clip first, track list only if it is not a
      valid clip. */
  datatype Format = ClipFormat | TrackListFormat | Unrecognized

  function DetectFormat(buffer: CompressedBuffer): (f: Format)
    requires buffer.Buffer?
    ensures f == ClipFormat <==> buffer.asClip.valid
    ensures f == TrackListFormat <==> !buffer.asClip.valid && buffer.asTracks.valid
    ensures f == Unrecognized <==> !buffer.asClip.valid && !buffer.asTracks.valid
  {
    if buffer.asClip.valid then ClipFormat
    else if buffer.asTracks.valid then TrackListFormat
    else Unrecognized
  }

  /** The size the detected format declares for itself. */
  function DeclaredSize(buffer: CompressedBuffer): u32
    requires buffer.Buffer?
  {
    if DetectFormat(buffer) == ClipFormat then buffer.asClip.size else buffer.asTracks.size
  }

  /** The number of tracks of the detected format (bones of a clip). */
  function TrackCount(buffer: CompressedBuffer): u32
    requires buffer.Buffer?
  {
    if DetectFormat(buffer) == ClipFormat then buffer.asClip.numBones else buffer.asTracks.numTracks
  }

  /** The size and alignment of one decompressed sample: a `qvvf` for a clip, a
      `float` for a track list. */
  function SampleSize(buffer: CompressedBuffer, qvvf: QvvfLayout): u32
    requires buffer.Buffer?
  {
    if DetectFormat(buffer) == ClipFormat then qvvf.size else FLOAT_SIZE
  }

  function SampleAlign(buffer: CompressedBuffer, qvvf: QvvfLayout): Alignment
    requires buffer.Buffer?
  {
    if DetectFormat(buffer) == ClipFormat then qvvf.align else FLOAT_SIZE
  }

  /** The checks of `decompress_tracks`, in order. */
  function TracksGuards(buffer: CompressedBuffer, bufferSize: u32, output: OutputBuffer, qvvf: QvvfLayout)
    : (guards: seq<Guard>)
    ensures ErrorCodes(guards)
  {
    if buffer.Null? then [Guard(true, INVALID_ARGUMENT)]
    else if DetectFormat(buffer) == Unrecognized then [Guard(true, CORRUPTED_DATA)]
    else [
      Guard(bufferSize < DeclaredSize(buffer), INVALID_ARGUMENT),
      Guard(output.size < Mul32(TrackCount(buffer), SampleSize(buffer, qvvf)), OUTPUT_TOO_SMALL),
      Guard(!IsAlignedTo(output.address, SampleAlign(buffer, qvvf)), MISALIGNED_OUTPUT)
    ]
  }

  /** The checks of `decompress_track`, in order: one sample of output suffices, and
      the track index, reinterpreted as `uint32_t`, is checked last. */
  function TrackGuards(buffer: CompressedBuffer, bufferSize: u32, trackIndex: i32, output: OutputBuffer,
                       qvvf: QvvfLayout): (guards: seq<Guard>)
    ensures ErrorCodes(guards)
  {
    if buffer.Null? then [Guard(true, INVALID_ARGUMENT)]
    else if DetectFormat(buffer) == Unrecognized then [Guard(true, CORRUPTED_DATA)]
    else [
      Guard(bufferSize < DeclaredSize(buffer), INVALID_ARGUMENT),
      Guard(output.size < SampleSize(buffer, qvvf), OUTPUT_TOO_SMALL),
      Guard(!IsAlignedTo(output.address, SampleAlign(buffer, qvvf)), MISALIGNED_OUTPUT),
      Guard(Wrap32(trackIndex) >= TrackCount(buffer), INVALID_TRACK_INDEX)
    ]
  }

  // ---------------------------------------------------------------------------
  // decompress_tracks

  /** The code `decompress_tracks` returns before (on success) the codec seeks to
      `sample_time` and writes every track into the output buffer. */
  function DecompressTracks(buffer: CompressedBuffer, bufferSize: u32, output: OutputBuffer, qvvf: QvvfLayout)
    : (r: int)
    ensures r in {SUCCESS, INVALID_ARGUMENT, CORRUPTED_DATA, OUTPUT_TOO_SMALL, MISALIGNED_OUTPUT}
    ensures buffer.Null? ==> r == INVALID_ARGUMENT
    ensures r == CORRUPTED_DATA <==> buffer.Buffer? && DetectFormat(buffer) == Unrecognized
    ensures r == SUCCESS <==>
      buffer.Buffer? && DetectFormat(buffer) != Unrecognized &&
      bufferSize >= DeclaredSize(buffer) &&
      output.size >= Mul32(TrackCount(buffer), SampleSize(buffer, qvvf)) &&
      IsAlignedTo(output.address, SampleAlign(buffer, qvvf))
  {
    if buffer.Null? then INVALID_ARGUMENT
    else if buffer.asClip.valid then
      var clip := buffer.asClip;
      if bufferSize < clip.size then INVALID_ARGUMENT
      else if output.size < Mul32(clip.numBones, qvvf.size) then OUTPUT_TOO_SMALL
      else if !IsAlignedTo(output.address, qvvf.align) then MISALIGNED_OUTPUT
      else SUCCESS
    else if buffer.asTracks.valid then
      var tracks := buffer.asTracks;
      if bufferSize < tracks.size then INVALID_ARGUMENT
      else if output.size < Mul32(tracks.numTracks, FLOAT_SIZE) then OUTPUT_TOO_SMALL
      else if !IsAlignedTo(output.address, FLOAT_SIZE) then MISALIGNED_OUTPUT
      else SUCCESS
    else CORRUPTED_DATA
  }

  /** `decompress_tracks` evaluates its checks in the fixed order null, format,
      declared size, output size, alignment. */
  lemma DecompressTracksFollowsGuards(buffer: CompressedBuffer, bufferSize: u32, output: OutputBuffer,
                                      qvvf: QvvfLayout)
    ensures DecompressTracks(buffer, bufferSize, output, qvvf) == FirstFailure(TracksGuards(buffer, bufferSize, output, qvvf))
  {
    var g := TracksGuards(buffer, bufferSize, output, qvvf);
    if buffer.Buffer? && DetectFormat(buffer) != Unrecognized {
      assert FirstFailure(g[2..]) == if g[2].fails then g[2].code else FirstFailure(g[3..]);
      assert FirstFailure(g[1..]) == if g[1].fails then g[1].code else FirstFailure(g[2..]) by {
        assert g[1..][1..] == g[2..];
      }
    }
  }

  /** A valid clip is decoded as a clip whatever the track-list reading says. */
  lemma ClipFormatTakesPrecedence(clip: ClipView, t1: TracksView, t2: TracksView, bufferSize: u32,
                                  output: OutputBuffer, qvvf: QvvfLayout)
    requires clip.valid
    ensures DecompressTracks(Buffer(clip, t1), bufferSize, output, qvvf)
         == DecompressTracks(Buffer(clip, t2), bufferSize, output, qvvf)
    ensures DecompressTracks(Buffer(clip, t1), bufferSize, output, qvvf) != CORRUPTED_DATA
  {
  }

  /** When the track list is accepted and `num_tracks * sizeof(float)` does not wrap,
      the output buffer holds a `float` for every track the codec writes. */
  lemma TrackListWritesInBounds(buffer: CompressedBuffer, bufferSize: u32, output: OutputBuffer,
                                qvvf: QvvfLayout, trackIndex: nat)
    requires DecompressTracks(buffer, bufferSize, output, qvvf) == SUCCESS
    requires DetectFormat(buffer) == TrackListFormat
    requires buffer.asTracks.numTracks * FLOAT_SIZE < U32_LIMIT
    requires trackIndex < buffer.asTracks.numTracks
    ensures FLOAT_SIZE * trackIndex + FLOAT_SIZE <= output.size
    ensures trackIndex < output.size / FLOAT_SIZE
  {
  }

  /** When the clip is accepted and `num_bones * sizeof(qvvf)` does not wrap, the
      output buffer holds a `qvvf` for every bone the codec writes. */
  lemma ClipPoseWritesInBounds(buffer: CompressedBuffer, bufferSize: u32, output: OutputBuffer,
                               qvvf: QvvfLayout, boneIndex: nat)
    requires DecompressTracks(buffer, bufferSize, output, qvvf) == SUCCESS
    requires DetectFormat(buffer) == ClipFormat
    requires buffer.asClip.numBones * qvvf.size < U32_LIMIT
    requires boneIndex < buffer.asClip.numBones
    ensures qvvf.size * boneIndex + qvvf.size <= output.size
  {
    var n: nat, size: nat := buffer.asClip.numBones, qvvf.size;
    assert size * boneIndex + size == size * (boneIndex + 1);
    assert size * (boneIndex + 1) <= size * n by { Layout.MulMonotone(size, boneIndex + 1, n); }
  }

  /** The output-size check of the track-list branch is computed in `size_t`: with
      2^30 tracks the required size wraps to 0 and an empty output is accepted. */
  lemma TrackListOutputCheckWraps(bufferSize: u32)
    ensures var buffer := Buffer(ClipView(false, 0, 0), TracksView(true, 0, 0x4000_0000));
      DecompressTracks(buffer, bufferSize, OutputBuffer(0, 0), QvvfLayout(48, 16)) == SUCCESS
  {
    assert Mul32(0x4000_0000, FLOAT_SIZE) == 0;
  }

  // ---------------------------------------------------------------------------
  // decompress_track

  /** The code `decompress_track` returns before (on success) the codec seeks to
      `sample_time` and writes the one requested track into the output buffer. */
  function DecompressTrack(buffer: CompressedBuffer, bufferSize: u32, trackIndex: i32, output: OutputBuffer,
                           qvvf: QvvfLayout): (r: int)
    ensures r in {SUCCESS, INVALID_ARGUMENT, CORRUPTED_DATA, OUTPUT_TOO_SMALL, MISALIGNED_OUTPUT, INVALID_TRACK_INDEX}
    ensures buffer.Null? ==> r == INVALID_ARGUMENT
    ensures r == CORRUPTED_DATA <==> buffer.Buffer? && DetectFormat(buffer) == Unrecognized
    ensures r == INVALID_TRACK_INDEX ==>
      buffer.Buffer? && bufferSize >= DeclaredSize(buffer) && output.size >= SampleSize(buffer, qvvf) &&
      IsAlignedTo(output.address, SampleAlign(buffer, qvvf))
    ensures r == SUCCESS <==>
      buffer.Buffer? && DetectFormat(buffer) != Unrecognized &&
      bufferSize >= DeclaredSize(buffer) &&
      output.size >= SampleSize(buffer, qvvf) &&
      IsAlignedTo(output.address, SampleAlign(buffer, qvvf)) &&
      Wrap32(trackIndex) < TrackCount(buffer)
  {
    if buffer.Null? then INVALID_ARGUMENT
    else if buffer.asClip.valid then
      var clip := buffer.asClip;
      if bufferSize < clip.size then INVALID_ARGUMENT
      else if output.size < qvvf.size then OUTPUT_TOO_SMALL
      else if !IsAlignedTo(output.address, qvvf.align) then MISALIGNED_OUTPUT
      else if Wrap32(trackIndex) >= clip.numBones then INVALID_TRACK_INDEX
      else SUCCESS
    else if buffer.asTracks.valid then
      var tracks := buffer.asTracks;
      if bufferSize < tracks.size then INVALID_ARGUMENT
      else if output.size < FLOAT_SIZE then OUTPUT_TOO_SMALL
      else if !IsAlignedTo(output.address, FLOAT_SIZE) then MISALIGNED_OUTPUT
      else if Wrap32(trackIndex) >= tracks.numTracks then INVALID_TRACK_INDEX
      else SUCCESS
    else CORRUPTED_DATA
  }

  /** `decompress_track` evaluates its checks in the fixed order null, format,
      declared size, output size, alignment, track index. */
  lemma DecompressTrackFollowsGuards(buffer: CompressedBuffer, bufferSize: u32, trackIndex: i32,
                                     output: OutputBuffer, qvvf: QvvfLayout)
    ensures DecompressTrack(buffer, bufferSize, trackIndex, output, qvvf)
         == FirstFailure(TrackGuards(buffer, bufferSize, trackIndex, output, qvvf))
  {
    var g := TrackGuards(buffer, bufferSize, trackIndex, output, qvvf);
    if buffer.Buffer? && DetectFormat(buffer) != Unrecognized {
      assert FirstFailure(g[3..]) == if g[3].fails then g[3].code else FirstFailure(g[4..]);
      assert FirstFailure(g[2..]) == if g[2].fails then g[2].code else FirstFailure(g[3..]) by {
        assert g[2..][1..] == g[3..];
      }
      assert FirstFailure(g[1..]) == if g[1].fails then g[1].code else FirstFailure(g[2..]) by {
        assert g[1..][1..] == g[2..];
      }
    }
  }

  /** `decompress_track` also reads a valid clip as a clip whatever the track-list
      reading says. */
  lemma ClipFormatTakesPrecedenceForTrack(clip: ClipView, t1: TracksView, t2: TracksView, bufferSize: u32,
                                          trackIndex: i32, output: OutputBuffer, qvvf: QvvfLayout)
    requires clip.valid
    ensures DecompressTrack(Buffer(clip, t1), bufferSize, trackIndex, output, qvvf)
         == DecompressTrack(Buffer(clip, t2), bufferSize, trackIndex, output, qvvf)
    ensures DecompressTrack(Buffer(clip, t1), bufferSize, trackIndex, output, qvvf) != CORRUPTED_DATA
  {
  }

  /** Whether `decompress_track` finds the output too small does not depend on how
      many tracks the buffer holds: one sample of output is required. */
  lemma OneSampleOfOutputSuffices(clip: ClipView, tracks: TracksView, numBones: u16, numTracks: u32,
                                  bufferSize: u32, trackIndex: i32, output: OutputBuffer, qvvf: QvvfLayout)
    ensures var other := Buffer(clip.(numBones := numBones), tracks.(numTracks := numTracks));
      DecompressTrack(Buffer(clip, tracks), bufferSize, trackIndex, output, qvvf) == OUTPUT_TOO_SMALL
      <==> DecompressTrack(other, bufferSize, trackIndex, output, qvvf) == OUTPUT_TOO_SMALL
  {
  }

  /** A negative `track_index` becomes at least 2^31 as `uint32_t`, so once the
      earlier checks pass it is rejected with -5: always for a clip, whose bone count
      is a `uint16_t`, and for a track list of at most 2^31 tracks. */
  lemma NegativeIndexRejected(buffer: CompressedBuffer, bufferSize: u32, trackIndex: i32, output: OutputBuffer,
                              qvvf: QvvfLayout)
    requires trackIndex < 0
    requires buffer.Buffer? && DetectFormat(buffer) != Unrecognized
    requires bufferSize >= DeclaredSize(buffer)
    requires output.size >= SampleSize(buffer, qvvf) && IsAlignedTo(output.address, SampleAlign(buffer, qvvf))
    requires DetectFormat(buffer) == TrackListFormat ==> buffer.asTracks.numTracks <= I32_LIMIT
    ensures DecompressTrack(buffer, bufferSize, trackIndex, output, qvvf) == INVALID_TRACK_INDEX
  {
    assert Wrap32(trackIndex) == trackIndex + U32_LIMIT by {
      ModOfShift(trackIndex + U32_LIMIT, -1);
    }
  }

  /** On success the index names an existing track: for a clip the codec's
      `uint16_t` bone index is the index itself, and for a track list of at most
      2^31 tracks the index is not negative. The output then holds one sample. */
  lemma AcceptedIndexInRange(buffer: CompressedBuffer, bufferSize: u32, trackIndex: i32, output: OutputBuffer,
                             qvvf: QvvfLayout)
    requires DecompressTrack(buffer, bufferSize, trackIndex, output, qvvf) == SUCCESS
    requires DetectFormat(buffer) == TrackListFormat ==> buffer.asTracks.numTracks <= I32_LIMIT
    ensures 0 <= trackIndex < TrackCount(buffer)
    ensures DetectFormat(buffer) == ClipFormat ==> trackIndex < U16_LIMIT - 1
    ensures SampleSize(buffer, qvvf) <= output.size
  {
    if trackIndex < 0 {
      NegativeIndexRejected(buffer, bufferSize, trackIndex, output, qvvf);
    }
  }

  /** A track list of 2^32 - 1 tracks accepts the index -2, which the codec then
      receives as the `uint32_t` 2^32 - 2. */
  lemma HugeTrackListAcceptsNegativeIndex(bufferSize: u32)
    ensures var buffer := Buffer(ClipView(false, 0, 0), TracksView(true, 0, 0xFFFF_FFFF));
      DecompressTrack(buffer, bufferSize, -2, OutputBuffer(0, 4), QvvfLayout(48, 16)) == SUCCESS
  {
    assert Wrap32(-2) == 0xFFFF_FFFE;
  }

  // ---------------------------------------------------------------------------
  // Track writers: the callbacks through which the codec stores scalar values

  /** `scalar_track_writer`: stores each track's value at its index in the caller's
      `float` array. */
  class ScalarTrackWriter {
    const output: array<real>

    constructor(output: array<real>)
      ensures this.output == output
    {
      this.output := output;
    }

    /** `write_float1`: the slot of the track gets the value, every other slot is
        unchanged. */
    method WriteFloat1(trackIndex: u32, value: real)
      requires trackIndex < output.Length
      modifies output
      ensures output[trackIndex] == value
      ensures forall i :: 0 <= i < output.Length && i != trackIndex ==> output[i] == old(output[i])
    {
      output[trackIndex] := value;
    }
  }

  /** `single_scalar_track_writer`: stores the one requested track's value at the
      start of the caller's `float` array, whatever its index. */
  class SingleScalarTrackWriter {
    const output: array<real>

    constructor(output: array<real>)
      ensures this.output == output
    {
      this.output := output;
    }

    /** `write_float1`: the first slot gets the value; the track index is ignored and
        every other slot is unchanged. */
    method WriteFloat1(trackIndex: u32, value: real)
      requires 1 <= output.Length
      modifies output
      ensures output[0] == value
      ensures forall i :: 1 <= i < output.Length ==> output[i] == old(output[i])
    {
      output[0] := value;
    }
  }
}
