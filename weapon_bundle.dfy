/** The multi-weapon bundle (weapon.ts lines 294-313): a little-endian
    32-bit count, then that many frames, each a 32-bit size followed by the
    bytes of one weapon packet. */
module WeaponBundle {
  import opened Wrappers
  import opened Bytes
  import opened WeaponCodec

  /** What decoding the frames reports: the sub-packets and the cursor
      position after the last frame. */
  type Frames<T> = (seq<T>, nat)

  /** How one frame's bytes are decoded. */
  type FrameDecoder<T> = seq<byte> -> Result<Parsed<T>, CodecError>

  /** The bundle decodes each frame as a weapon packet whose game time
      starts two bytes in, with the given field decoder. */
  function DecodeFrame(decodeFields: FieldDecoder): FrameDecoder<WeaponObject>
  {
    subData => ParseWeaponPacket(subData, 2, decodeFields)
  }

  /** Decodes `remaining` frames from `cursor` on: the sub-packets in wire
      order and the cursor after the last frame. A frame whose size runs
      past the end is cut short by `Slice` and decoding carries on past it. */
  function ParseFrames<T>(data: seq<byte>, cursor: nat, remaining: nat, decode: FrameDecoder<T>)
    : Result<Frames<T>, CodecError>
    decreases remaining
  {
    if remaining == 0 then Success(([], cursor))
    else if |data| < cursor + 4 then Failure(OutOfRange(cursor))
    else
      var size := ReadU32LE(data, cursor);
      var subData := Slice(data, cursor + 4, cursor + 4 + size);
      match decode(subData)
      case Failure(e) => Failure(e)
      case Success(sub) => Prepend([sub.value], ParseFrames(data, cursor + 4 + size, remaining - 1, decode))
  }

  /** Decoded frames: one sub-packet per frame, and at least the four
      size bytes of each frame passed over. */
  lemma {:induction false} ParseFramesBounds<T>(data: seq<byte>, cursor: nat, remaining: nat, decode: FrameDecoder<T>)
    ensures var r := ParseFrames(data, cursor, remaining, decode);
            r.Success? ==> |r.value.0| == remaining && r.value.1 >= cursor + 4 * remaining
    decreases remaining
  {
    if remaining > 0 && cursor + 4 <= |data| {
      var size := ReadU32LE(data, cursor);
      ParseFramesBounds(data, cursor + 4 + size, remaining - 1, decode);
    }
  }

  /** Puts sub-packets decoded earlier in front of a decoding's result. */
  function Prepend<T>(earlier: seq<T>, r: Result<Frames<T>, CodecError>): Result<Frames<T>, CodecError>
  {
    match r
    case Failure(e) => Failure(e)
    case Success((later, end)) => Success((earlier + later, end))
  }

  lemma PrependNothing<T>(r: Result<Frames<T>, CodecError>)
    ensures Prepend([], r) == r
  {
    if r.Success? {
      assert [] + r.value.0 == r.value.0;
    }
  }

  lemma PrependTwice<T>(a: seq<T>, b: seq<T>, r: Result<Frames<T>, CodecError>)
    ensures Prepend(a, Prepend(b, r)) == Prepend(a + b, r)
  {
    if r.Success? {
      assert a + (b + r.value.0) == a + b + r.value.0;
    }
  }

  /** One step of the frame loop: a frame the decoder accepts puts its
      sub-packet in front of what the frames after it decode to. */
  lemma ParseFramesStep<T>(data: seq<byte>, cursor: nat, remaining: nat, decode: FrameDecoder<T>, size: nat, v: T)
    requires remaining > 0 && cursor + 4 <= |data| && ReadU32LE(data, cursor) == size
    requires decode(Slice(data, cursor + 4, cursor + 4 + size)).Success?
    requires decode(Slice(data, cursor + 4, cursor + 4 + size)).value.value == v
    ensures ParseFrames(data, cursor, remaining, decode)
              == Prepend([v], ParseFrames(data, cursor + 4 + size, remaining - 1, decode))
  {
  }

  lemma PrependSuccess<T>(v: T, r: Result<Frames<T>, CodecError>, later: seq<T>, end: nat)
    requires r == Success((later, end))
    ensures Prepend([v], r) == Success(([v] + later, end))
  {
  }

  /** The bundle layout read with any frame decoder: the sub-packets in
      wire order, and as length the start offset minus the end offset. */
  function ParseBundle<T>(data: seq<byte>, offset: nat, decode: FrameDecoder<T>): (r: Result<Parsed<seq<T>>, CodecError>)
    ensures r.Success? ==>
              offset + 4 <= |data|
              && |r.value.value| == ReadU32LE(data, offset)
              && r.value.length <= -4 - 4 * |r.value.value|
  {
    if |data| < offset + 4 then Failure(OutOfRange(offset))
    else
      var n := ReadU32LE(data, offset);
      match ParseFrames(data, offset + 4, n, decode)
      case Failure(e) => Failure(e)
      case Success((packets, end)) =>
        ParseFramesBounds(data, offset + 4, n, decode);
        Success(Parsed(packets, offset - end))
  }

  /** A bundle whose frames decode reports the start offset minus the
      cursor after the last frame. */
  lemma ParseBundleOfFrames<T>(data: seq<byte>, offset: nat, decode: FrameDecoder<T>, n: nat, packets: seq<T>, end: nat, length: int)
    requires offset + 4 <= |data| && ReadU32LE(data, offset) == n
    requires ParseFrames(data, offset + 4, n, decode) == Success((packets, end))
    requires length == offset - end
    ensures ParseBundle(data, offset, decode) == Success(Parsed(packets, length))
  {
  }

  /** `parseMultiWeaponPacket(data, offset)` as a function of its input. */
  function MultiWeaponPacket(data: seq<byte>, offset: nat, decodeFields: FieldDecoder): Result<Parsed<seq<WeaponObject>>, CodecError>
  {
    ParseBundle(data, offset, DecodeFrame(decodeFields))
  }

  /** `parseMultiWeaponPacket(data, offset)`: the bundle loop, decoding
      each frame as a weapon packet. */
  method ParseMultiWeaponPacket(data: seq<byte>, offset: nat, decodeFields: FieldDecoder) returns (r: Result<Parsed<seq<WeaponObject>>, CodecError>)
    ensures r == MultiWeaponPacket(data, offset, decodeFields)
  {
    r := DecodeBundle(data, offset, DecodeFrame(decodeFields));
  }

  /** The body of `parseMultiWeaponPacket` with the frame decoder as a
      parameter: it reads the count, then advances a cursor through the
      frames and collects the sub-packets, stopping at the first read that
      fails. */
  method DecodeBundle<T>(data: seq<byte>, offset: nat, decode: FrameDecoder<T>) returns (r: Result<Parsed<seq<T>>, CodecError>)
    ensures r == ParseBundle(data, offset, decode)
  {
    if |data| < offset + 4 {
      return Failure(OutOfRange(offset));
    }
    var n := ReadU32LE(data, offset);
    var cursor: nat := offset + 4;
    var packets: seq<T> := [];
    var i := 0;
    PrependNothing(ParseFrames(data, cursor, n, decode));
    while i < n
      invariant 0 <= i <= n
      invariant Prepend(packets, ParseFrames(data, cursor, n - i, decode)) == ParseFrames(data, offset + 4, n, decode)
    {
      if |data| < cursor + 4 {
        return Failure(OutOfRange(cursor));
      }
      var size := ReadU32LE(data, cursor);
      var subData := Slice(data, cursor + 4, cursor + 4 + size);
      var sub := decode(subData);
      if sub.Failure? {
        return Failure(sub.error);
      }
      PrependTwice(packets, [sub.value.value], ParseFrames(data, cursor + 4 + size, n - i - 1, decode));
      cursor := cursor + 4 + size;
      packets := packets + [sub.value.value];
      i := i + 1;
    }
    assert packets + [] == packets;
    return Success(Parsed(packets, offset - cursor));
  }

  /** Every slice's size fits the 32-bit size word. */
  predicate FitSizes(slices: seq<seq<byte>>)
  {
    slices == [] || (|slices[0]| < TWO_32 && FitSizes(slices[1..]))
  }

  /** The decoder accepts every slice. */
  predicate Accepted<T>(slices: seq<seq<byte>>, decode: FrameDecoder<T>)
  {
    slices == [] || (decode(slices[0]).Success? && Accepted(slices[1..], decode))
  }

  /** The frames of a bundle: each slice behind its 32-bit size. */
  function FrameBytes(slices: seq<seq<byte>>): (r: seq<byte>)
    requires FitSizes(slices)
    ensures |r| >= 4 * |slices|
  {
    if slices == [] then []
    else U32LE(|slices[0]|) + slices[0] + FrameBytes(slices[1..])
  }

  /** A whole bundle: the frame count, then the frames. */
  function Bundle(slices: seq<seq<byte>>): (r: seq<byte>)
    requires |slices| < TWO_32
    requires FitSizes(slices)
    ensures |r| == 4 + |FrameBytes(slices)|
  {
    U32LE(|slices|) + FrameBytes(slices)
  }

  /** The sub-packet decoded from each slice, for slices the decoder accepts. */
  function DecodeSlices<T>(slices: seq<seq<byte>>, decode: FrameDecoder<T>): (r: seq<T>)
    requires Accepted(slices, decode)
    ensures |r| == |slices|
  {
    if slices == [] then []
    else [decode(slices[0]).value.value] + DecodeSlices(slices[1..], decode)
  }

  /** The first frame of a bundle: its size, its bytes, and the frames
      after it. */
  lemma FirstFrame(prefix: seq<byte>, slices: seq<seq<byte>>, suffix: seq<byte>)
    requires slices != []
    requires FitSizes(slices)
    ensures var data := prefix + FrameBytes(slices) + suffix;
            var s := slices[0];
            |prefix| + 4 + |s| <= |data|
            && ReadU32LE(data, |prefix|) == |s|
            && data[|prefix| + 4..|prefix| + 4 + |s|] == s
            && data == prefix + U32LE(|s|) + s + FrameBytes(slices[1..]) + suffix
  {
    var s := slices[0];
    var rest := FrameBytes(slices[1..]);
    assert FrameBytes(slices) == U32LE(|s|) + s + rest;
    Regroup(prefix, U32LE(|s|), s, rest, suffix);
    ReadU32LEOfU32LE(prefix, |s|, s + rest + suffix);
  }

  /** Regrouping a concatenation of five parts. */
  lemma Regroup(p: seq<byte>, h: seq<byte>, s: seq<byte>, f: seq<byte>, x: seq<byte>)
    ensures p + (h + s + f) + x == p + h + (s + f + x)
    ensures p + (h + s + f) + x == p + h + s + f + x
    ensures (p + h + (s + f + x))[|p| + |h|..|p| + |h| + |s|] == s
  {
  }

  /** The count and the frames that follow it. */
  lemma BundleHeader(prefix: seq<byte>, slices: seq<seq<byte>>, suffix: seq<byte>)
    requires |slices| < TWO_32
    requires FitSizes(slices)
    ensures var data := prefix + Bundle(slices) + suffix;
            |prefix| + 4 <= |data|
            && ReadU32LE(data, |prefix|) == |slices|
            && data == (prefix + U32LE(|slices|)) + FrameBytes(slices) + suffix
  {
    Associate(prefix, U32LE(|slices|), FrameBytes(slices), suffix);
    ReadU32LEOfU32LE(prefix, |slices|, FrameBytes(slices) + suffix);
  }

  lemma Associate(a: seq<byte>, b: seq<byte>, c: seq<byte>, d: seq<byte>)
    ensures a + (b + c) + d == a + b + (c + d)
    ensures a + (b + c) + d == (a + b) + c + d
  {
  }

  /** `slices` lie one after another in `data` from `cursor` on, each
      behind its 32-bit size. */
  ghost predicate FramesAt(data: seq<byte>, cursor: nat, slices: seq<seq<byte>>)
    decreases slices
  {
    slices == [] ||
    (var s := slices[0];
     cursor + 4 + |s| <= |data| && ReadU32LE(data, cursor) == |s|
     && data[cursor + 4..cursor + 4 + |s|] == s
     && FramesAt(data, cursor + 4 + |s|, slices[1..]))
  }

  /** The bytes a run of frames occupies. */
  function FramesSize(slices: seq<seq<byte>>): (n: nat)
    ensures n >= 4 * |slices|
  {
    if slices == [] then 0 else 4 + |slices[0]| + FramesSize(slices[1..])
  }

  /** The frames of `FrameBytes` lie where they were written. */
  lemma {:induction false} FramesAtFrameBytes(prefix: seq<byte>, slices: seq<seq<byte>>, suffix: seq<byte>)
    requires FitSizes(slices)
    ensures |FrameBytes(slices)| == FramesSize(slices)
    ensures FramesAt(prefix + FrameBytes(slices) + suffix, |prefix|, slices)
    decreases slices
  {
    if slices != [] {
      var s := slices[0];
      var front := prefix + U32LE(|s|) + s;
      FirstFrame(prefix, slices, suffix);
      FramesAtFrameBytes(front, slices[1..], suffix);
      assert |front| == |prefix| + 4 + |s|;
      assert FramesSize(slices) == 4 + |s| + FramesSize(slices[1..]);
    }
  }

  /** Frames the decoder accepts decode to their sub-packets, in order, and
      the cursor ends exactly after the last frame. */
  lemma {:induction false} ParseFramesOfFramesAt<T>(data: seq<byte>, cursor: nat, slices: seq<seq<byte>>, decode: FrameDecoder<T>)
    requires FramesAt(data, cursor, slices)
    requires Accepted(slices, decode)
    ensures ParseFrames(data, cursor, |slices|, decode)
              == Success((DecodeSlices(slices, decode), cursor + FramesSize(slices)))
    decreases slices
  {
    if slices == [] {
      assert DecodeSlices(slices, decode) == [];
      assert ParseFrames(data, cursor, |slices|, decode) == Success(([], cursor));
      assert FramesSize(slices) == 0;
    } else {
      var s := slices[0];
      assert |slices[1..]| == |slices| - 1;
      SliceWithin(data, cursor + 4, cursor + 4 + |s|);
      var v := decode(s).value.value;
      ParseFramesStep(data, cursor, |slices|, decode, |s|, v);
      ParseFramesOfFramesAt(data, cursor + 4 + |s|, slices[1..], decode);
      DecodeSlicesCons(slices, decode);
      assert FramesSize(slices) == 4 + |s| + FramesSize(slices[1..]);
      PrependSuccess(v, ParseFrames(data, cursor + 4 + |s|, |slices| - 1, decode),
                     DecodeSlices(slices[1..], decode), cursor + 4 + |s| + FramesSize(slices[1..]));
    }
  }

  /** The first slice's sub-packet comes first. */
  lemma DecodeSlicesCons<T>(slices: seq<seq<byte>>, decode: FrameDecoder<T>)
    requires slices != []
    requires Accepted(slices, decode)
    ensures Accepted(slices[1..], decode)
    ensures DecodeSlices(slices, decode) == [decode(slices[0]).value.value] + DecodeSlices(slices[1..], decode)
  {
  }

  /** The count and the frames of `slices` lie in `data` from `offset` on. */
  ghost predicate BundleAt(data: seq<byte>, offset: nat, slices: seq<seq<byte>>)
  {
    offset + 4 <= |data| && ReadU32LE(data, offset) == |slices| && FramesAt(data, offset + 4, slices)
  }

  /** `Bundle` lays out the count and the frames where the decoder looks. */
  lemma BundleAtBundle(prefix: seq<byte>, slices: seq<seq<byte>>, suffix: seq<byte>)
    requires |slices| < TWO_32
    requires FitSizes(slices)
    ensures |Bundle(slices)| == 4 + FramesSize(slices)
    ensures BundleAt(prefix + Bundle(slices) + suffix, |prefix|, slices)
  {
    BundleHeader(prefix, slices, suffix);
    FramesAtFrameBytes(prefix + U32LE(|slices|), slices, suffix);
  }

  /** Every frame of six bytes or more whose fields decode is accepted:
      two leading bytes, then a game time, then the packet. */
  lemma DecodeFrameAccepts(s: seq<byte>, decodeFields: FieldDecoder)
    requires 6 <= |s| && FieldsDecode(s, 2, decodeFields)
    ensures DecodeFrame(decodeFields)(s).Success?
  {
  }

  /** Slices of six bytes or more whose fields decode, each with a 32-bit
      size, are frames the bundle decoder accepts. */
  lemma {:induction false} DecodeFrameAcceptsAll(slices: seq<seq<byte>>, decodeFields: FieldDecoder)
    requires forall i :: 0 <= i < |slices| ==> 6 <= |slices[i]| < TWO_32 && FieldsDecode(slices[i], 2, decodeFields)
    ensures FitSizes(slices) && Accepted(slices, DecodeFrame(decodeFields))
    decreases slices
  {
    if slices != [] {
      DecodeFrameAccepts(slices[0], decodeFields);
      assert forall i :: 0 <= i < |slices| - 1 ==> slices[1..][i] == slices[i + 1];
      DecodeFrameAcceptsAll(slices[1..], decodeFields);
    }
  }

  /** Decoding laid-out frames the decoder accepts: the sub-packets of
      the slices in order, and as length the bundle's size negated. */
  lemma ParseBundleOfBundleAt<T>(data: seq<byte>, offset: nat, slices: seq<seq<byte>>, decode: FrameDecoder<T>)
    requires BundleAt(data, offset, slices)
    requires Accepted(slices, decode)
    ensures ParseBundle(data, offset, decode)
              == Success(Parsed(DecodeSlices(slices, decode), -(4 + FramesSize(slices))))
  {
    ParseFramesOfFramesAt(data, offset + 4, slices, decode);
    ParseBundleOfFrames(data, offset, decode, |slices|, DecodeSlices(slices, decode), offset + 4 + FramesSize(slices),
                        -(4 + FramesSize(slices)));
  }

  /** Decoding a bundle gives back its slices' sub-packets in order, with
      the bundle's size negated as length. */
  lemma MultiWeaponPacketOfBundle(prefix: seq<byte>, slices: seq<seq<byte>>, suffix: seq<byte>, decodeFields: FieldDecoder)
    requires |slices| < TWO_32
    requires forall i :: 0 <= i < |slices| ==> 6 <= |slices[i]| < TWO_32 && FieldsDecode(slices[i], 2, decodeFields)
    ensures FitSizes(slices) && Accepted(slices, DecodeFrame(decodeFields))
    ensures MultiWeaponPacket(prefix + Bundle(slices) + suffix, |prefix|, decodeFields)
              == Success(Parsed(DecodeSlices(slices, DecodeFrame(decodeFields)), -|Bundle(slices)|))
  {
    DecodeFrameAcceptsAll(slices, decodeFields);
    ParseBundleOfBundle(prefix, slices, suffix, DecodeFrame(decodeFields));
  }

  /** The same for any frame decoder that accepts every slice. */
  lemma ParseBundleOfBundle<T>(prefix: seq<byte>, slices: seq<seq<byte>>, suffix: seq<byte>, decode: FrameDecoder<T>)
    requires |slices| < TWO_32
    requires FitSizes(slices)
    requires Accepted(slices, decode)
    ensures ParseBundle(prefix + Bundle(slices) + suffix, |prefix|, decode)
              == Success(Parsed(DecodeSlices(slices, decode), -|Bundle(slices)|))
  {
    BundleAtBundle(prefix, slices, suffix);
    ParseBundleOfBundleAt(prefix + Bundle(slices) + suffix, |prefix|, slices, decode);
  }

  /** A bundle of one frame whose size claims 100 bytes while only six
      follow: 14 bytes in all. */
  const OverlongBundle: seq<byte> := U32LE(1) + U32LE(100) + [0, 0, 0, 0, 0, 0]

  lemma OverlongBundleLayout()
    ensures |OverlongBundle| == 14
    ensures ReadU32LE(OverlongBundle, 0) == 1 && ReadU32LE(OverlongBundle, 4) == 100
    ensures Slice(OverlongBundle, 8, 108) == [0, 0, 0, 0, 0, 0]
  {
    var zeros: seq<byte> := [0, 0, 0, 0, 0, 0];
    assert OverlongBundle == [] + U32LE(1) + (U32LE(100) + zeros);
    ReadU32LEOfU32LE([], 1, U32LE(100) + zeros);
    ReadU32LEOfU32LE(U32LE(1), 100, zeros);
    SliceClampsEnd(OverlongBundle, 8, 108);
    assert OverlongBundle[8..] == zeros;
  }

  /** A bundle of one frame whose bytes the decoder accepts decodes to
      that frame's sub-packet, whatever its size word claims, with the
      claimed end negated as length. */
  lemma OneFrameBundle<T>(data: seq<byte>, decode: FrameDecoder<T>, size: nat, v: T)
    requires 8 <= |data| && ReadU32LE(data, 0) == 1 && ReadU32LE(data, 4) == size
    requires decode(Slice(data, 8, 8 + size)).Success?
    requires decode(Slice(data, 8, 8 + size)).value.value == v
    ensures ParseBundle(data, 0, decode) == Success(Parsed([v], -(8 + size)))
  {
    ParseFramesStep(data, 4, 1, decode, size, v);
    assert ParseFrames(data, 8 + size, 0, decode) == Success(([], 8 + size));
    assert [v] + [] == [v];
    ParseBundleOfFrames(data, 0, decode, 1, [v], 8 + size, -(8 + size));
  }

  /** A frame size past the end of the buffer goes unnoticed: the overlong
      bundle decodes, and the length it reports (108 in magnitude) exceeds
      the 14-byte buffer. */
  lemma OverlongFrameAccepted(decodeFields: FieldDecoder)
    ensures MultiWeaponPacket(OverlongBundle, 0, decodeFields).Success?
    ensures MultiWeaponPacket(OverlongBundle, 0, decodeFields).value.length == -108
    ensures |OverlongBundle| == 14
  {
    var zeros: seq<byte> := [0, 0, 0, 0, 0, 0];
    OverlongBundleLayout();
    ZerosFrameUnresolved(decodeFields);
    DecodeFrameAccepts(zeros, decodeFields);
    OneFrameBundle(OverlongBundle, DecodeFrame(decodeFields), 100, DecodeFrame(decodeFields)(zeros).value.value);
  }

  /** Six zero bytes hold no opcode past the game time, so nothing is
      left for the field decoder to refuse. */
  lemma ZerosFrameUnresolved(decodeFields: FieldDecoder)
    ensures FieldsDecode([0, 0, 0, 0, 0, 0], 2, decodeFields)
  {
    var zeros: seq<byte> := [0, 0, 0, 0, 0, 0];
    assert [0x83] + zeros[6..] == [0x83];
    PrefixOpcodes();
    assert PrefixValue([0x83], 1) == 0x83;
  }

  /** The corrected frame decoder: a frame must fit in the buffer. */
  function ParseFramesChecked<T>(data: seq<byte>, cursor: nat, remaining: nat, decode: FrameDecoder<T>)
    : Result<Frames<T>, CodecError>
    requires cursor <= |data|
    decreases remaining
  {
    if remaining == 0 then Success(([], cursor))
    else if |data| < cursor + 4 then Failure(OutOfRange(cursor))
    else
      var size := ReadU32LE(data, cursor);
      if |data| < cursor + 4 + size then Failure(OutOfRange(cursor + 4))
      else
        match decode(data[cursor + 4..cursor + 4 + size])
        case Failure(e) => Failure(e)
        case Success(sub) => Prepend([sub.value], ParseFramesChecked(data, cursor + 4 + size, remaining - 1, decode))
  }

  /** Frames the corrected decoder accepts lie inside the buffer. */
  lemma {:induction false} ParseFramesCheckedBounds<T>(data: seq<byte>, cursor: nat, remaining: nat, decode: FrameDecoder<T>)
    requires cursor <= |data|
    ensures var r := ParseFramesChecked(data, cursor, remaining, decode);
            r.Success? ==> |r.value.0| == remaining && cursor + 4 * remaining <= r.value.1 <= |data|
    decreases remaining
  {
    if remaining > 0 && cursor + 4 <= |data| {
      var size := ReadU32LE(data, cursor);
      if cursor + 4 + size <= |data| {
        ParseFramesCheckedBounds(data, cursor + 4 + size, remaining - 1, decode);
      }
    }
  }

  /** The corrected bundle layout reader: frames must fit in the buffer,
      and the length is the number of bytes consumed. */
  function ParseBundleChecked<T>(data: seq<byte>, offset: nat, decode: FrameDecoder<T>): (r: Result<Parsed<seq<T>>, CodecError>)
    ensures r.Success? ==>
              offset + 4 <= |data|
              && |r.value.value| == ReadU32LE(data, offset)
              && 4 + 4 * |r.value.value| <= r.value.length <= |data| - offset
  {
    if |data| < offset + 4 then Failure(OutOfRange(offset))
    else
      var n := ReadU32LE(data, offset);
      match ParseFramesChecked(data, offset + 4, n, decode)
      case Failure(e) => Failure(e)
      case Success((packets, end)) =>
        ParseFramesCheckedBounds(data, offset + 4, n, decode);
        Success(Parsed(packets, end - offset))
  }

  /** The corrected bundle decoder. */
  function MultiWeaponPacketChecked(data: seq<byte>, offset: nat, decodeFields: FieldDecoder): Result<Parsed<seq<WeaponObject>>, CodecError>
  {
    ParseBundleChecked(data, offset, DecodeFrame(decodeFields))
  }

  lemma ParseFramesCheckedStep<T>(data: seq<byte>, cursor: nat, remaining: nat, decode: FrameDecoder<T>, size: nat, v: T)
    requires remaining > 0 && cursor + 4 + size <= |data| && ReadU32LE(data, cursor) == size
    requires decode(data[cursor + 4..cursor + 4 + size]).Success?
    requires decode(data[cursor + 4..cursor + 4 + size]).value.value == v
    ensures ParseFramesChecked(data, cursor, remaining, decode)
              == Prepend([v], ParseFramesChecked(data, cursor + 4 + size, remaining - 1, decode))
  {
  }

  lemma {:induction false} ParseFramesCheckedOfFramesAt<T>(data: seq<byte>, cursor: nat, slices: seq<seq<byte>>, decode: FrameDecoder<T>)
    requires cursor <= |data| && FramesAt(data, cursor, slices)
    requires Accepted(slices, decode)
    ensures ParseFramesChecked(data, cursor, |slices|, decode)
              == Success((DecodeSlices(slices, decode), cursor + FramesSize(slices)))
    decreases slices
  {
    if slices != [] {
      var s := slices[0];
      assert |slices[1..]| == |slices| - 1;
      var v := decode(s).value.value;
      ParseFramesCheckedStep(data, cursor, |slices|, decode, |s|, v);
      ParseFramesCheckedOfFramesAt(data, cursor + 4 + |s|, slices[1..], decode);
      DecodeSlicesCons(slices, decode);
      assert FramesSize(slices) == 4 + |s| + FramesSize(slices[1..]);
      PrependSuccess(v, ParseFramesChecked(data, cursor + 4 + |s|, |slices| - 1, decode),
                     DecodeSlices(slices[1..], decode), cursor + 4 + |s| + FramesSize(slices[1..]));
    }
  }

  lemma ParseBundleCheckedOfBundleAt<T>(data: seq<byte>, offset: nat, slices: seq<seq<byte>>, decode: FrameDecoder<T>)
    requires BundleAt(data, offset, slices)
    requires Accepted(slices, decode)
    ensures ParseBundleChecked(data, offset, decode)
              == Success(Parsed(DecodeSlices(slices, decode), 4 + FramesSize(slices)))
  {
    ParseFramesCheckedOfFramesAt(data, offset + 4, slices, decode);
    ParseBundleCheckedOfFrames(data, offset, decode, |slices|, DecodeSlices(slices, decode), offset + 4 + FramesSize(slices),
                               4 + FramesSize(slices));
  }

  lemma ParseBundleCheckedOfFrames<T>(data: seq<byte>, offset: nat, decode: FrameDecoder<T>, n: nat, packets: seq<T>, end: nat, length: int)
    requires offset + 4 <= |data| && ReadU32LE(data, offset) == n
    requires ParseFramesChecked(data, offset + 4, n, decode) == Success((packets, end))
    requires length == end - offset
    ensures ParseBundleChecked(data, offset, decode) == Success(Parsed(packets, length))
  {
  }

  /** The corrected decoder gives back a bundle's sub-packets in order and
      reports exactly the bundle's size as its length. */
  lemma MultiWeaponPacketCheckedOfBundle(prefix: seq<byte>, slices: seq<seq<byte>>, suffix: seq<byte>, decodeFields: FieldDecoder)
    requires |slices| < TWO_32
    requires forall i :: 0 <= i < |slices| ==> 6 <= |slices[i]| < TWO_32 && FieldsDecode(slices[i], 2, decodeFields)
    ensures FitSizes(slices) && Accepted(slices, DecodeFrame(decodeFields))
    ensures MultiWeaponPacketChecked(prefix + Bundle(slices) + suffix, |prefix|, decodeFields)
              == Success(Parsed(DecodeSlices(slices, DecodeFrame(decodeFields)), |Bundle(slices)|))
  {
    DecodeFrameAcceptsAll(slices, decodeFields);
    ParseBundleCheckedOfBundle(prefix, slices, suffix, DecodeFrame(decodeFields));
  }

  lemma ParseBundleCheckedOfBundle<T>(prefix: seq<byte>, slices: seq<seq<byte>>, suffix: seq<byte>, decode: FrameDecoder<T>)
    requires |slices| < TWO_32
    requires FitSizes(slices)
    requires Accepted(slices, decode)
    ensures ParseBundleChecked(prefix + Bundle(slices) + suffix, |prefix|, decode)
              == Success(Parsed(DecodeSlices(slices, decode), |Bundle(slices)|))
  {
    BundleAtBundle(prefix, slices, suffix);
    ParseBundleCheckedOfBundleAt(prefix + Bundle(slices) + suffix, |prefix|, slices, decode);
  }

  /** The corrected decoder refuses a bundle whose first frame runs past
      the end of the buffer, naming the offset of that frame's bytes. */
  lemma FrameOverrunRefused<T>(data: seq<byte>, offset: nat, decode: FrameDecoder<T>, n: nat, size: nat)
    requires offset + 8 <= |data| && ReadU32LE(data, offset) == n && n > 0
    requires ReadU32LE(data, offset + 4) == size && |data| < offset + 8 + size
    ensures ParseBundleChecked(data, offset, decode) == Failure(OutOfRange(offset + 8))
  {
    assert ParseFramesChecked(data, offset + 4, n, decode) == Failure(OutOfRange(offset + 8));
  }

  /** The corrected decoder refuses the overlong bundle the original accepts. */
  lemma OverlongFrameRefused(decodeFields: FieldDecoder)
    ensures MultiWeaponPacketChecked(OverlongBundle, 0, decodeFields) == Failure(OutOfRange(8))
  {
    OverlongBundleLayout();
    FrameOverrunRefused(OverlongBundle, 0, DecodeFrame(decodeFields), 1, 100);
  }

}
