/** `build_skeleton` and `build_clip`: the loops that turn the transform descriptor
    table and the flat raw buffer into the rigid skeleton and animation clip the
    codec compresses. The new encoder and the legacy encoder share this code and
    differ only in how many doubles a translation or scale load reads
    (`vector_load3` reads 3, `vector_load` reads 4), which is a parameter here.
    Raw doubles are not decoded: each clip sample records the loads it issues. */
module ClipBuild {
  import opened Native
  import opened Layout
  import opened Metadata

  /** `acl::k_invalid_bone_index` */
  const INVALID_BONE_INDEX: u16 := 0xFFFF
  /** `rtm::vector_load3` */
  const VECTOR_LOAD3_WIDTH: nat := 3
  /** `rtm::vector_load` */
  const VECTOR_LOAD_WIDTH: nat := 4

  /** Every descriptor's `parent_index` can be converted to `uint16_t` (a negative
      value is never converted). */
  predicate ParentIndicesCastable(descs: seq<TransformDesc>) {
    forall i :: 0 <= i < |descs| ==> descs[i].parentIndex < 65536.0
  }

  /** Both the `output_index` and the `parent_index` of every descriptor can be
      converted to `uint16_t`. */
  predicate IndicesCastable(descs: seq<TransformDesc>) {
    && ParentIndicesCastable(descs)
    && forall i :: 0 <= i < |descs| ==> descs[i].outputIndex < 65536.0
  }

  /** `index >= 0.0 ? static_cast<uint16_t>(index) : acl::k_invalid_bone_index` */
  function BoneIndex(index: real): (r: u16)
    requires index < 65536.0
    ensures index >= 0.0 ==> r as real <= index < r as real + 1.0
    ensures index < 0.0 ==> r == INVALID_BONE_INDEX
  {
    if index >= 0.0 then CastU16(index) else INVALID_BONE_INDEX
  }

  /** A descriptor index maps to the invalid-bone sentinel exactly when it is negative
      or truncates to 65535, the sentinel's own value. */
  lemma BoneIndexInvalid(index: real)
    requires index < 65536.0
    ensures BoneIndex(index) == INVALID_BONE_INDEX <==> index < 0.0 || index >= 65535.0
  {
  }

  /** `acl::RigidBone`, the two fields the loop sets. */
  datatype RigidBone = RigidBone(vertexDistance: real, parentIndex: u16)

  /** One loads-per-sample track of the clip: `output_index` and, per sample, the
      rotation, translation and scale loads. */
  datatype AnimatedBone = AnimatedBone(outputIndex: u16, samples: seq<QvvRead>)

  /** `acl::AnimationClip` as far as the glue fills it. */
  datatype AnimationClip = AnimationClip(bones: seq<AnimatedBone>, numSamples: u32, sampleRate: real)

  /** What a compression call of the codec library reports: failure (`result.any()`)
      or the compressed buffer, whose `get_size()` is a `uint32_t`. */
  datatype LibraryResult = Failed | Produced(bytes: Bytes)

  /** What `compress_clip` is given: the skeleton, the clip, the settings taken from
      the first descriptor, and the raw bytes the clip's loads read. */
  datatype ClipRequest = ClipRequest(skeleton: seq<RigidBone>, clip: AnimationClip, settings: SettingsRead, raw: seq<byte>)

  /** The skeleton `build_skeleton` returns: `num_transforms` bones are filled, and the
      skeleton keeps `static_cast<uint16_t>(num_transforms)` of them. */
  function SkeletonSpec(descs: seq<TransformDesc>, numTransforms: u32): (skeleton: seq<RigidBone>)
    requires |descs| == numTransforms && ParentIndicesCastable(descs)
    ensures |skeleton| == numTransforms % U16_LIMIT
    ensures forall i :: 0 <= i < |skeleton| ==>
      skeleton[i].vertexDistance == descs[i].shellDistance &&
      (skeleton[i].parentIndex == INVALID_BONE_INDEX <==> descs[i].parentIndex < 0.0 || descs[i].parentIndex >= 65535.0)
  {
    var skeleton := seq(numTransforms % U16_LIMIT, i requires 0 <= i < numTransforms % U16_LIMIT =>
      RigidBone(descs[i].shellDistance, BoneIndex(descs[i].parentIndex)));
    assert forall i :: 0 <= i < |skeleton| ==> skeleton[i].parentIndex == BoneIndex(descs[i].parentIndex);
    forall i | 0 <= i < |skeleton| {
      BoneIndexInvalid(descs[i].parentIndex);
    }
    skeleton
  }

  method BuildSkeleton(descs: seq<TransformDesc>, numTransforms: u32) returns (skeleton: seq<RigidBone>)
    requires |descs| == numTransforms && ParentIndicesCastable(descs)
    ensures skeleton == SkeletonSpec(descs, numTransforms)
  {
    var bones := new RigidBone[numTransforms];
    for transformIndex := 0 to numTransforms
      invariant forall k :: 0 <= k < transformIndex ==>
        bones[k] == RigidBone(descs[k].shellDistance, BoneIndex(descs[k].parentIndex))
    {
      var desc := descs[transformIndex];
      bones[transformIndex] := RigidBone(desc.shellDistance, BoneIndex(desc.parentIndex));
    }
    skeleton := bones[..numTransforms % U16_LIMIT];
  }

  /** The loads of every sample of transform `t`, at the `uint32_t` offsets the loop computes. */
  function BoneSamples(t: u32, numSamples: u32, vectorWidth: nat): seq<QvvRead> {
    seq(numSamples, s requires 0 <= s < numSamples => QvvReadAt(TransformOffset32(t, s, numSamples), vectorWidth))
  }

  /** The clip `build_clip` returns. */
  function ClipSpec(descs: seq<TransformDesc>, numSamples: u32, sampleRate: real, vectorWidth: nat): AnimationClip
    requires |descs| < U16_LIMIT && IndicesCastable(descs)
  {
    AnimationClip(
      seq(|descs|, t requires 0 <= t < |descs| =>
        AnimatedBone(BoneIndex(descs[t].outputIndex), BoneSamples(t, numSamples, vectorWidth))),
      numSamples, sampleRate)
  }

  /** `build_clip`: the clip has one animated bone per skeleton bone, and the loop over
      transforms and samples fills each one. `get_animated_bone` takes a `uint16_t`
      index below the bone count, so the skeleton must hold every transform. */
  method BuildClip(descs: seq<TransformDesc>, skeleton: seq<RigidBone>, numTransforms: u32,
                   numSamples: u32, sampleRate: real, vectorWidth: nat) returns (clip: AnimationClip)
    requires |descs| == numTransforms == |skeleton| && numTransforms < U16_LIMIT && IndicesCastable(descs)
    ensures clip == ClipSpec(descs, numSamples, sampleRate, vectorWidth)
  {
    var bones := new AnimatedBone[|skeleton|];
    for transformIndex := 0 to numTransforms
      invariant forall k :: 0 <= k < transformIndex ==>
        bones[k] == AnimatedBone(BoneIndex(descs[k].outputIndex), BoneSamples(k, numSamples, vectorWidth))
    {
      var outputIndex := BoneIndex(descs[transformIndex].outputIndex);
      var transformOffset := Mul32(Mul32(transformIndex, 10), numSamples);
      var samples := new QvvRead[numSamples];
      for sampleIndex := 0 to numSamples
        invariant forall k :: 0 <= k < transformIndex ==>
          bones[k] == AnimatedBone(BoneIndex(descs[k].outputIndex), BoneSamples(k, numSamples, vectorWidth))
        invariant forall k :: 0 <= k < sampleIndex ==>
          samples[k] == QvvReadAt(TransformOffset32(transformIndex, k, numSamples), vectorWidth)
      {
        var sampleOffset := Add32(Mul32(sampleIndex, 10), transformOffset);
        samples[sampleIndex] := QvvReadAt(sampleOffset, vectorWidth);
      }
      assert samples[..] == BoneSamples(transformIndex, numSamples, vectorWidth);
      bones[transformIndex] := AnimatedBone(outputIndex, samples[..]);
    }
    assert bones[..] == ClipSpec(descs, numSamples, sampleRate, vectorWidth).bones;
    clip := AnimationClip(bones[..], numSamples, sampleRate);
  }

  /** With 3-wide vector loads and a raw buffer whose byte count `80 * S * N` fits in
      32 bits, every load of every clip sample stays inside the `10 * S * N` doubles of
      the raw buffer and inside its own sample's 10-double block, so loads of two
      distinct samples never touch the same double. */
  lemma ClipReadsInBounds(descs: seq<TransformDesc>, numSamples: u32, sampleRate: real,
                          t: nat, s: nat, t': nat, s': nat)
    requires |descs| < U16_LIMIT && IndicesCastable(descs)
    requires 80 * numSamples * |descs| < U32_LIMIT
    requires t < |descs| && s < numSamples && t' < |descs| && s' < numSamples
    ensures var clip := ClipSpec(descs, numSamples, sampleRate, VECTOR_LOAD3_WIDTH);
      var q := clip.bones[t].samples[s];
      var lo, hi := TransformBase(t, s, numSamples), TransformBase(t, s, numSamples) + TRANSFORM_DOUBLES;
      && lo == 10 * numSamples * t + 10 * s
      && Within(q.rotation, lo, hi) && Within(q.translation, lo, hi) && Within(q.scale, lo, hi)
      && hi <= 10 * numSamples * |descs|
      && ((t, s) != (t', s') ==> hi <= TransformBase(t', s', numSamples) || TransformBase(t', s', numSamples) + TRANSFORM_DOUBLES <= lo)
  {
    var n := |descs|;
    TransformRawBytes(numSamples, n);
    TransformOffsetExact(t, s, numSamples, n);
    TransformBlockInBounds(t, s, numSamples, n);
    QvvReadSplit(TransformBase(t, s, numSamples), VECTOR_LOAD3_WIDTH);
    if (t, s) != (t', s') {
      TransformBlocksDisjoint(t, s, t', s', numSamples, n);
    }
  }

  /** With 4-wide vector loads (the legacy encoder), the scale load of the last sample of
      the last track reads one double past the `10 * S * N` doubles of the raw buffer. */
  lemma WideLoadReadsPastEnd(descs: seq<TransformDesc>, numSamples: u32, sampleRate: real)
    requires 0 < |descs| < U16_LIMIT && IndicesCastable(descs) && 0 < numSamples
    requires 80 * numSamples * |descs| < U32_LIMIT
    ensures var clip := ClipSpec(descs, numSamples, sampleRate, VECTOR_LOAD_WIDTH);
      var q := clip.bones[|descs| - 1].samples[numSamples - 1];
      q.scale.offset + q.scale.width == 10 * numSamples * |descs| + 1
  {
    var n := |descs|;
    TransformRawBytes(numSamples, n);
    var t, s := n - 1, numSamples - 1;
    TransformOffsetExact(t, s, numSamples, n);
    LastTransformBlockEnd(numSamples, n);
    assert ClipSpec(descs, numSamples, sampleRate, VECTOR_LOAD_WIDTH).bones[t].samples[s]
        == QvvReadAt(TransformBase(t, s, numSamples), VECTOR_LOAD_WIDTH);
  }
}
