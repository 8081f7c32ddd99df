/** Length-delimited bundles of signed records, and the size-limited trailer that
    carries them behind a lookup answer.  The encoding of a single record is left
    abstract: a codec whose decoder inverts its encoder on the records at hand. */
module SignedBundles {
  import opened Wrappers

  type Byte = n: nat | n < 256

  type Bytes = seq<Byte>

  const MAX_SIGNED_ADDRESS_BYTES: nat := 40 * 1024
  const MAX_MESSAGE_SIZE: nat := 64 * 1024
  const MAX_LOOKUP_EXTENSION_RECORDS: nat := 256
  const LOOKUP_EXTENSION_MARKER: Bytes := [65, 68, 68, 82, 83, 73, 71, 49]

  datatype Fault = Codec(reason: nat) | RecordTooLong | BadBundle | Truncated

  datatype RecordCodec<!R> = RecordCodec(
    encode: R -> Result<Bytes, Fault>,
    decode: Bytes -> Result<R, Fault>)

  // ---------- lengths ----------

  function Be32(n: nat): Bytes
    requires n < 0x1_0000_0000
  {
    [n / 0x100_0000, n / 0x1_0000 % 256, n / 256 % 256, n % 256]
  }

  function FromBe32(b: Bytes): nat
    requires |b| == 4
  {
    (((b[0] as int) * 256 + b[1]) * 256 + b[2]) * 256 + b[3]
  }

  lemma Be32Inverse(n: nat)
    requires n < 0x1_0000_0000
    ensures FromBe32(Be32(n)) == n
    ensures var b := Be32(n);
            n == (b[0] as int) * 0x100_0000 + (b[1] as int) * 0x1_0000 + (b[2] as int) * 0x100 + b[3]
  {
    var lower := n / 256;
    var upper := lower / 256;
    var high := upper / 256;
    assert n / 0x1_0000 == upper && n / 0x100_0000 == high;
    assert n == lower * 256 + n % 256 && lower == upper * 256 + lower % 256 && upper == high * 256 + upper % 256;
  }

  // ---------- bundles ----------

  /** One record's payload, or why it cannot be bundled. */
  function Payload<R>(codec: RecordCodec<R>, r: R): (payload: Result<Bytes, Fault>)
    ensures payload.Ok? ==> |payload.value| <= MAX_SIGNED_ADDRESS_BYTES
  {
    var e := codec.encode(r);
    if e.Ok? && |e.value| > MAX_SIGNED_ADDRESS_BYTES then Err(RecordTooLong) else e
  }

  /** The record can be bundled and the decoder gives it back. */
  ghost predicate Sound<R>(codec: RecordCodec<R>, r: R) {
    Payload(codec, r).Ok? && codec.decode(Payload(codec, r).value) == Ok(r)
  }

  function Framed(payload: Bytes): Bytes
    requires |payload| <= MAX_SIGNED_ADDRESS_BYTES
  {
    Be32(|payload|) + payload
  }

  /** The bundle of `records`: the first fault met, or the frames one after another. */
  function Bundle<R>(codec: RecordCodec<R>, records: seq<R>): Result<Bytes, Fault> {
    if records == [] then Ok([])
    else
      var n := |records| - 1;
      var front := Bundle(codec, records[..n]);
      if front.Err? then front
      else
        var p := Payload(codec, records[n]);
        if p.Err? then p else Ok(front.value + Framed(p.value))
  }

  method EncodeRecordBundle<R>(codec: RecordCodec<R>, records: seq<R>) returns (r: Result<Bytes, Fault>)
    ensures r == Bundle(codec, records)
  {
    var bytes: Bytes := [];
    for i := 0 to |records|
      invariant Bundle(codec, records[..i]) == Ok(bytes)
    {
      assert records[..i + 1][..i] == records[..i];
      var encoded := codec.encode(records[i]);
      if encoded.Err? {
        BundleFault(codec, records, i);
        return Err(encoded.error);
      }
      if |encoded.value| > MAX_SIGNED_ADDRESS_BYTES {
        BundleFault(codec, records, i);
        return Err(RecordTooLong);
      }
      bytes := bytes + Be32(|encoded.value|) + encoded.value;
      assert bytes == Bundle(codec, records[..i]).value + Framed(encoded.value);
    }
    assert records[..|records|] == records;
    r := Ok(bytes);
  }

  /** The first fault decides. */
  lemma {:induction false} BundleFault<R>(codec: RecordCodec<R>, records: seq<R>, i: nat)
    requires i < |records| && Bundle(codec, records[..i]).Ok? && Payload(codec, records[i]).Err?
    ensures Bundle(codec, records) == Err(Payload(codec, records[i]).error)
    decreases |records|
  {
    var n := |records| - 1;
    if i < n {
      assert records[..n][..i] == records[..i];
      BundleFault(codec, records[..n], i);
    }
  }

  lemma BundleSnoc<R>(codec: RecordCodec<R>, records: seq<R>, x: R)
    ensures Bundle(codec, records + [x]).Ok? <==> Bundle(codec, records).Ok? && Payload(codec, x).Ok?
    ensures Bundle(codec, records + [x]).Ok? ==>
              Bundle(codec, records + [x]).value == Bundle(codec, records).value + Framed(Payload(codec, x).value)
  {
    assert (records + [x])[..|records|] == records;
  }

  /** `whole` is `front` followed by `back`, if both are there. */
  predicate Joins(front: Result<Bytes, Fault>, back: Result<Bytes, Fault>, whole: Result<Bytes, Fault>) {
    && (whole.Ok? <==> front.Ok? && back.Ok?)
    && (whole.Ok? ==> whole.value == front.value + back.value)
  }

  ghost predicate Splits<R>(codec: RecordCodec<R>, a: seq<R>, b: seq<R>) {
    Joins(Bundle(codec, a), Bundle(codec, b), Bundle(codec, a + b))
  }

  function Frame<R>(codec: RecordCodec<R>, r: R): Result<Bytes, Fault> {
    var p := Payload(codec, r);
    if p.Err? then p else Ok(Framed(p.value))
  }

  lemma SnocJoins<R>(codec: RecordCodec<R>, records: seq<R>, x: R)
    ensures Joins(Bundle(codec, records), Frame(codec, x), Bundle(codec, records + [x]))
  {
    BundleSnoc(codec, records, x);
  }

  lemma JoinsAssociate(a: Result<Bytes, Fault>, b: Result<Bytes, Fault>, x: Result<Bytes, Fault>,
                       ab: Result<Bytes, Fault>, bx: Result<Bytes, Fault>, abx: Result<Bytes, Fault>)
    requires Joins(a, b, ab) && Joins(b, x, bx) && Joins(ab, x, abx)
    ensures Joins(a, bx, abx)
  {
    if abx.Ok? { assert (a.value + b.value) + x.value == a.value + (b.value + x.value); }
  }

  lemma SplitsSnoc<R>(codec: RecordCodec<R>, a: seq<R>, b: seq<R>, x: R)
    requires Splits(codec, a, b)
    ensures Splits(codec, a, b + [x])
  {
    SnocJoins(codec, b, x);
    SnocJoins(codec, a + b, x);
    assert a + (b + [x]) == (a + b) + [x];
    JoinsAssociate(Bundle(codec, a), Bundle(codec, b), Frame(codec, x),
                   Bundle(codec, a + b), Bundle(codec, b + [x]), Bundle(codec, (a + b) + [x]));
  }

  /** Bundling is a homomorphism from concatenation to concatenation. */
  lemma {:induction false} BundleConcat<R>(codec: RecordCodec<R>, a: seq<R>, b: seq<R>)
    ensures Splits(codec, a, b)
    decreases |b|
  {
    if b == [] {
      assert a + b == a;
    } else {
      var n := |b| - 1;
      BundleConcat(codec, a, b[..n]);
      SplitsSnoc(codec, a, b[..n], b[n]);
      assert b == b[..n] + [b[n]];
    }
  }

  /** `decode_record_bundle`: at most `max` records, nothing left over, no short frame. */
  function Unbundle<R>(codec: RecordCodec<R>, bytes: Bytes, max: nat): Result<seq<R>, Fault>
    decreases |bytes|
  {
    if bytes == [] then Ok([])
    else if max == 0 || |bytes| < 4 then Err(BadBundle)
    else
      var length, rest := FromBe32(bytes[..4]), bytes[4..];
      if |rest| < length then Err(Truncated)
      else
        var r := DecodeOne(codec, rest[..length]);
        if r.Err? then Err(r.error)
        else Resume([r.value], Unbundle(codec, rest[length..], max - 1))
  }

  function DecodeOne<R>(codec: RecordCodec<R>, bytes: Bytes): Result<R, Fault> {
    if |bytes| > MAX_SIGNED_ADDRESS_BYTES then Err(RecordTooLong) else codec.decode(bytes)
  }

  /** What the loop has read so far, put in front of what is still to come. */
  function Resume<R>(records: seq<R>, rest: Result<seq<R>, Fault>): Result<seq<R>, Fault> {
    if rest.Err? then rest else Ok(records + rest.value)
  }

  /** The decoder has read `records` and `rest` is still to come. */
  ghost predicate Reading<R>(codec: RecordCodec<R>, bytes: Bytes, max: nat, records: seq<R>, rest: Bytes) {
    |records| <= max && Unbundle(codec, bytes, max) == Resume(records, Unbundle(codec, rest, max - |records|))
  }

  lemma ReadingStarts<R>(codec: RecordCodec<R>, bytes: Bytes, max: nat)
    ensures Reading(codec, bytes, max, [], bytes)
  {
    ResumeNothing(Unbundle(codec, bytes, max));
  }

  lemma ReadingEnds<R>(codec: RecordCodec<R>, bytes: Bytes, max: nat, records: seq<R>)
    requires Reading(codec, bytes, max, records, [])
    ensures Unbundle(codec, bytes, max) == Ok(records)
  {
    assert records + [] == records;
  }

  /** What the next frame leads to. */
  lemma ReadingOn<R>(codec: RecordCodec<R>, bytes: Bytes, max: nat, records: seq<R>, rest: Bytes)
    requires Reading(codec, bytes, max, records, rest) && rest != []
    ensures if |records| >= max || |rest| < 4 then Unbundle(codec, bytes, max) == Err(BadBundle)
            else
              var length, tail := FromBe32(rest[..4]), rest[4..];
              if length > |tail| then Unbundle(codec, bytes, max) == Err(Truncated)
              else
                var one := DecodeOne(codec, tail[..length]);
                if one.Err? then Unbundle(codec, bytes, max) == Err(one.error)
                else Reading(codec, bytes, max, records + [one.value], tail[length..])
  {
    if |records| < max && |rest| >= 4 {
      var length, tail := FromBe32(rest[..4]), rest[4..];
      if length <= |tail| && DecodeOne(codec, tail[..length]).Ok? {
        ResumeOne(records, DecodeOne(codec, tail[..length]).value,
                  Unbundle(codec, tail[length..], max - |records| - 1));
      }
    }
  }

  method DecodeRecordBundle<R>(codec: RecordCodec<R>, bytes: Bytes, max: nat) returns (r: Result<seq<R>, Fault>)
    ensures r == Unbundle(codec, bytes, max)
  {
    var rest, records: seq<R> := bytes, [];
    ReadingStarts(codec, bytes, max);
    while rest != []
      invariant Reading(codec, bytes, max, records, rest)
      decreases |rest|
    {
      ReadingOn(codec, bytes, max, records, rest);
      if |records| >= max || |rest| < 4 {
        return Err(BadBundle);
      }
      var length := FromBe32(rest[..4]);
      rest := rest[4..];
      if length > |rest| {
        return Err(Truncated);
      }
      var record := DecodeOne(codec, rest[..length]);
      if record.Err? {
        return Err(record.error);
      }
      records := records + [record.value];
      rest := rest[length..];
    }
    ReadingEnds(codec, bytes, max, records);
    r := Ok(records);
  }

  lemma ResumeNothing<R>(rest: Result<seq<R>, Fault>)
    ensures Resume([], rest) == rest
  {
    if rest.Ok? { assert [] + rest.value == rest.value; }
  }

  lemma ResumeOne<R>(records: seq<R>, record: R, rest: Result<seq<R>, Fault>)
    ensures Resume(records, Resume([record], rest)) == Resume(records + [record], rest)
  {
    if rest.Ok? { assert records + ([record] + rest.value) == (records + [record]) + rest.value; }
  }

  lemma UnbundleFramed<R>(codec: RecordCodec<R>, r: R, tail: Bytes, max: nat)
    requires Sound(codec, r) && max > 0
    ensures Unbundle(codec, Framed(Payload(codec, r).value) + tail, max) ==
            Resume([r], Unbundle(codec, tail, max - 1))
  {
    var p := Payload(codec, r).value;
    var bytes := Framed(p) + tail;
    Be32Inverse(|p|);
    assert bytes[..4] == Be32(|p|);
    assert bytes[4..] == p + tail;
    assert (p + tail)[..|p|] == p && (p + tail)[|p|..] == tail;
  }

  lemma BundleOne<R>(codec: RecordCodec<R>, r: R)
    requires Payload(codec, r).Ok?
    ensures Bundle(codec, [r]) == Ok(Framed(Payload(codec, r).value))
  {
    assert [r][..0] == [];
    assert Bundle(codec, [r][..0]) == Ok([]);
    assert [] + Framed(Payload(codec, r).value) == Framed(Payload(codec, r).value);
  }

  lemma RoundTripStep<R>(codec: RecordCodec<R>, first: R, rest: seq<R>, max: nat)
    requires Sound(codec, first) && max > 0 && Bundle(codec, rest).Ok?
    requires Unbundle(codec, Bundle(codec, rest).value, max - 1) == Ok(rest)
    ensures Bundle(codec, [first] + rest) == Ok(Framed(Payload(codec, first).value) + Bundle(codec, rest).value)
    ensures Unbundle(codec, Framed(Payload(codec, first).value) + Bundle(codec, rest).value, max) == Ok([first] + rest)
  {
    BundleOne(codec, first);
    BundleConcat(codec, [first], rest);
    UnbundleFramed(codec, first, Bundle(codec, rest).value, max);
  }

  /** The records can be bundled, and the bundle decodes to them. */
  ghost predicate RoundTrips<R>(codec: RecordCodec<R>, records: seq<R>, max: nat) {
    var b := Bundle(codec, records);
    b.Ok? && Unbundle(codec, b.value, max) == Ok(records)
  }

  lemma RoundTripGrows<R>(codec: RecordCodec<R>, records: seq<R>, max: nat)
    requires records != [] && max > 0 && Sound(codec, records[0]) && RoundTrips(codec, records[1..], max - 1)
    ensures RoundTrips(codec, records, max)
  {
    RoundTripStep(codec, records[0], records[1..], max);
    assert records == [records[0]] + records[1..];
  }

  /** Decoding inverts encoding: every list of sound records within the limit comes back. */
  lemma {:induction false} BundleRoundTrip<R>(codec: RecordCodec<R>, records: seq<R>, max: nat)
    requires forall r :: r in records ==> Sound(codec, r)
    requires |records| <= max
    ensures RoundTrips(codec, records, max)
    decreases |records|
  {
    if records == [] {
    } else {
      BundleRoundTrip(codec, records[1..], max - 1);
      RoundTripGrows(codec, records, max);
    }
  }

  /** `payloads` are the frames a decoder read `records` from. */
  ghost predicate ReadFrom<R(!new)>(codec: RecordCodec<R>, bytes: Bytes, payloads: seq<Bytes>, records: seq<R>)
    decreases |payloads|
  {
    && |payloads| == |records|
    && if payloads == [] then bytes == []
       else
         && |payloads[0]| <= MAX_SIGNED_ADDRESS_BYTES
         && |bytes| >= 4 + |payloads[0]|
         && bytes[..4 + |payloads[0]|] == Framed(payloads[0])
         && codec.decode(payloads[0]) == Ok(records[0])
         && ReadFrom(codec, bytes[4 + |payloads[0]|..], payloads[1..], records[1..])
  }

  /** Whatever is accepted is well formed: every byte belongs to a frame that decodes, and the limit holds. */
  lemma {:induction false} AcceptedIsWellFormed<R(!new)>(codec: RecordCodec<R>, bytes: Bytes, max: nat)
    requires Unbundle(codec, bytes, max).Ok?
    ensures |Unbundle(codec, bytes, max).value| <= max
    ensures exists payloads :: ReadFrom(codec, bytes, payloads, Unbundle(codec, bytes, max).value)
    decreases |bytes|
  {
    if bytes == [] {
      assert ReadFrom(codec, bytes, [], []);
    } else {
      var length, rest := FromBe32(bytes[..4]), bytes[4..];
      var tail := rest[length..];
      AcceptedIsWellFormed(codec, tail, max - 1);
      var more := Unbundle(codec, tail, max - 1).value;
      var payloads :| ReadFrom(codec, tail, payloads, more);
      assert Unbundle(codec, bytes, max).value == [codec.decode(rest[..length]).value] + more;
      FrameRead(codec, bytes, payloads, more);
    }
  }

  /** One frame in front of the frames already read. */
  lemma FrameRead<R(!new)>(codec: RecordCodec<R>, bytes: Bytes, payloads: seq<Bytes>, records: seq<R>)
    requires |bytes| >= 4 && FromBe32(bytes[..4]) <= MAX_SIGNED_ADDRESS_BYTES && 4 + FromBe32(bytes[..4]) <= |bytes|
    requires codec.decode(bytes[4..][..FromBe32(bytes[..4])]).Ok?
    requires ReadFrom(codec, bytes[4..][FromBe32(bytes[..4])..], payloads, records)
    ensures var p := bytes[4..][..FromBe32(bytes[..4])];
            ReadFrom(codec, bytes, [p] + payloads, [codec.decode(p).value] + records)
  {
    var length := FromBe32(bytes[..4]);
    var p := bytes[4..][..length];
    Be32Unique(bytes[..4]);
    CutFrame(bytes, length);
    assert ([p] + payloads)[1..] == payloads && ([codec.decode(p).value] + records)[1..] == records;
  }

  /** The first frame of well-formed bytes is what the decoder reads first. */
  lemma FirstFrame(bytes: Bytes, p: Bytes)
    requires |p| <= MAX_SIGNED_ADDRESS_BYTES && |bytes| >= 4 + |p| && bytes[..4 + |p|] == Framed(p)
    ensures FromBe32(bytes[..4]) == |p| && bytes[4..][..|p|] == p && bytes[4..][|p|..] == bytes[4 + |p|..]
  {
    Be32Inverse(|p|);
    CutFrame(bytes, |p|);
    assert bytes[..4] == bytes[..4 + |p|][..4] == Be32(|p|);
    assert bytes[4..][..|p|] == bytes[..4 + |p|][4..];
  }

  /** Whatever is well formed and within the limit is accepted. */
  lemma {:induction false} WellFormedIsAccepted<R(!new)>(
      codec: RecordCodec<R>, bytes: Bytes, max: nat, payloads: seq<Bytes>, records: seq<R>)
    requires ReadFrom(codec, bytes, payloads, records) && |records| <= max
    ensures Unbundle(codec, bytes, max) == Ok(records)
    decreases |payloads|
  {
    if payloads != [] {
      var p := payloads[0];
      FirstFrame(bytes, p);
      WellFormedIsAccepted(codec, bytes[4 + |p|..], max - 1, payloads[1..], records[1..]);
      assert [records[0]] + records[1..] == records;
    }
  }

  /** Acceptance is exact. */
  lemma AcceptedIff<R(!new)>(codec: RecordCodec<R>, bytes: Bytes, max: nat, records: seq<R>)
    ensures Unbundle(codec, bytes, max) == Ok(records) <==>
            |records| <= max && exists payloads :: ReadFrom(codec, bytes, payloads, records)
  {
    if Unbundle(codec, bytes, max) == Ok(records) { AcceptedIsWellFormed(codec, bytes, max); }
    if payloads :| |records| <= max && ReadFrom(codec, bytes, payloads, records) {
      WellFormedIsAccepted(codec, bytes, max, payloads, records);
    }
  }

  lemma CutFrame(bytes: Bytes, length: nat)
    requires 4 + length <= |bytes|
    ensures bytes[4 + length..] == bytes[4..][length..]
    ensures bytes[..4 + length] == bytes[..4] + bytes[4..][..length]
  {
  }

  lemma Be32Unique(b: Bytes)
    requires |b| == 4
    ensures FromBe32(b) < 0x1_0000_0000 && Be32(FromBe32(b)) == b
  {
    var high: int := b[0];
    var upper := high * 256 + b[1];
    var lower := upper * 256 + b[2];
    var n := lower * 256 + b[3];
    assert n / 256 == lower && n % 256 == b[3];
    assert n / 0x1_0000 == upper && lower % 256 == b[2];
    assert n / 0x100_0000 == high && upper % 256 == b[1];
    assert Be32(n) == b;
  }

  // ---------- the lookup trailer ----------

  ghost predicate AllEncode<R>(codec: RecordCodec<R>, records: seq<R>) {
    forall i :: 0 <= i < |records| ==> Payload(codec, records[i]).Ok?
  }

  lemma {:induction false} AllEncodeBundle<R>(codec: RecordCodec<R>, records: seq<R>)
    requires AllEncode(codec, records)
    ensures Bundle(codec, records).Ok?
    decreases |records|
  {
    if records != [] { AllEncodeBundle(codec, records[..|records| - 1]); }
  }

  /** In order, every record that still fits into `room` next to those already taken. */
  ghost function Fitting<R>(codec: RecordCodec<R>, records: seq<R>, room: int): (chosen: seq<R>)
    requires AllEncode(codec, records)
    ensures AllEncode(codec, chosen) && Bundle(codec, chosen).Ok?
    ensures |chosen| <= |records|
    ensures chosen != [] ==> |Bundle(codec, chosen).value| <= room
    ensures forall r :: r in chosen ==> r in records
  {
    if records == [] then []
    else
      var n := |records| - 1;
      var front := Fitting(codec, records[..n], room);
      var longer := front + [records[n]];
      AllEncodeBundle(codec, longer);
      if |Bundle(codec, longer).value| <= room then longer else front
  }

  lemma BundleOneIff<R>(codec: RecordCodec<R>, r: R)
    ensures Bundle(codec, [r]).Ok? <==> Payload(codec, r).Ok?
  {
    assert [r][..0] == [];
  }

  lemma FittingSnoc<R>(codec: RecordCodec<R>, a: seq<R>, x: R, room: int)
    requires AllEncode(codec, a) && Payload(codec, x).Ok?
    ensures AllEncode(codec, a + [x])
    ensures Fitting(codec, a + [x], room) ==
            var front := Fitting(codec, a, room);
            if |Bundle(codec, front + [x]).value| <= room then front + [x] else front
  {
    assert (a + [x])[..|a|] == a && (a + [x])[|a|] == x;
    assert AllEncode(codec, a + [x]);
  }

  lemma BuildStep<R>(codec: RecordCodec<R>, records: seq<R>, room: int, i: nat)
    requires i < |records| && AllEncode(codec, records[..i]) && Payload(codec, records[i]).Ok?
    ensures AllEncode(codec, records[..i + 1])
    ensures var before := Bundle(codec, Fitting(codec, records[..i], room)).value;
            var frame := Framed(Payload(codec, records[i]).value);
            Bundle(codec, Fitting(codec, records[..i + 1], room)).value ==
              if |before| + |frame| <= room then before + frame else before
  {
    var front, x := records[..i], records[i];
    var chosen := Fitting(codec, front, room);
    assert records[..i + 1] == front + [x];
    FittingSnoc(codec, front, x, room);
    AppendOne(codec, chosen, x);
    assert |Bundle(codec, chosen + [x]).value| == |Bundle(codec, chosen).value| + |Framed(Payload(codec, x).value)|;
  }

  /** The bundle of what fits, built one record at a time. */
  method BuildExtension<R>(codec: RecordCodec<R>, records: seq<R>, room: int) returns (r: Result<Bytes, Fault>)
    ensures r.Ok? <==> AllEncode(codec, records)
    ensures r.Ok? ==> r.value == Bundle(codec, Fitting(codec, records, room)).value
  {
    var extension: Bytes := [];
    for i := 0 to |records|
      invariant AllEncode(codec, records[..i])
      invariant extension == Bundle(codec, Fitting(codec, records[..i], room)).value
    {
      var encoded := EncodeRecordBundle(codec, [records[i]]);
      if encoded.Err? {
        BundleOneIff(codec, records[i]);
        return Err(encoded.error);
      }
      BundleOneIff(codec, records[i]);
      BundleOne(codec, records[i]);
      BuildStep(codec, records, room, i);
      if |extension| + |encoded.value| <= room {
        extension := extension + encoded.value;
      }
    }
    assert records[..|records|] == records;
    r := Ok(extension);
  }

  /** `append_lookup_extension`.  An error leaves the message as it was. */
  method AppendLookupExtension<R>(codec: RecordCodec<R>, bytes: Bytes, records: seq<R>)
    returns (r: Result<Bytes, Fault>)
    ensures r.Ok? <==> AllEncode(codec, Considered(records))
    ensures r.Ok? ==> r.value == Sent(codec, bytes, records)
    ensures r.Ok? ==> bytes <= r.value
    ensures r.Ok? && |bytes| <= MAX_MESSAGE_SIZE ==> |r.value| <= MAX_MESSAGE_SIZE
  {
    var extension := BuildExtension(codec, Considered(records), Room(bytes));
    if extension.Err? {
      return extension;
    }
    ghost var chosen := Fitting(codec, Considered(records), Room(bytes));
    EmptyBundle(codec, chosen);
    if extension.value != [] {
      return Ok(bytes + LOOKUP_EXTENSION_MARKER + extension.value);
    }
    r := Ok(bytes);
  }

  lemma EmptyBundle<R>(codec: RecordCodec<R>, records: seq<R>)
    requires Bundle(codec, records).Ok?
    ensures Bundle(codec, records).value == [] <==> records == []
  {
  }

  lemma AppendOne<R>(codec: RecordCodec<R>, chosen: seq<R>, r: R)
    requires Bundle(codec, chosen).Ok? && Payload(codec, r).Ok?
    ensures Bundle(codec, chosen + [r]) == Ok(Bundle(codec, chosen).value + Framed(Payload(codec, r).value))
    ensures Bundle(codec, chosen + [r]).value != []
  {
    assert (chosen + [r])[..|chosen|] == chosen;
  }

  function Considered<R>(records: seq<R>): seq<R> {
    if |records| <= MAX_LOOKUP_EXTENSION_RECORDS then records else records[..MAX_LOOKUP_EXTENSION_RECORDS]
  }

  function Room(bytes: Bytes): int {
    MAX_MESSAGE_SIZE - |bytes| - |LOOKUP_EXTENSION_MARKER|
  }

  /** `decode_lookup_extension`: an unknown or malformed trailer yields no records. */
  function DecodeLookupExtension<R>(codec: RecordCodec<R>, trailing: Bytes): seq<R> {
    if !(LOOKUP_EXTENSION_MARKER <= trailing) then []
    else
      var r := Unbundle(codec, trailing[|LOOKUP_EXTENSION_MARKER|..], MAX_LOOKUP_EXTENSION_RECORDS);
      if r.Ok? then r.value else []
  }

  /** The message a responder sends: its own bytes and, if any record fits, the marked bundle. */
  ghost function Sent<R>(codec: RecordCodec<R>, bytes: Bytes, records: seq<R>): Bytes
    requires AllEncode(codec, Considered(records))
  {
    var chosen := Fitting(codec, Considered(records), Room(bytes));
    bytes + if chosen == [] then [] else LOOKUP_EXTENSION_MARKER + Bundle(codec, chosen).value
  }

  /** The receiver reads back exactly the records the sender could fit. */
  lemma TrailerRoundTrip<R>(codec: RecordCodec<R>, bytes: Bytes, records: seq<R>)
    requires AllEncode(codec, Considered(records))
    requires forall r :: r in Considered(records) ==> Sound(codec, r)
    ensures DecodeLookupExtension(codec, Sent(codec, bytes, records)[|bytes|..])
         == Fitting(codec, Considered(records), Room(bytes))
  {
    var chosen := Fitting(codec, Considered(records), Room(bytes));
    if chosen == [] {
      assert Sent(codec, bytes, records)[|bytes|..] == [];
    } else {
      var trailer := LOOKUP_EXTENSION_MARKER + Bundle(codec, chosen).value;
      BundleRoundTrip(codec, chosen, MAX_LOOKUP_EXTENSION_RECORDS);
      AfterPrefix(bytes, trailer);
      MarkedBundle(codec, chosen);
    }
  }

  lemma AfterPrefix(bytes: Bytes, trailer: Bytes)
    ensures (bytes + trailer)[|bytes|..] == trailer
  {
  }

  lemma MarkedBundle<R>(codec: RecordCodec<R>, chosen: seq<R>)
    requires RoundTrips(codec, chosen, MAX_LOOKUP_EXTENSION_RECORDS)
    ensures DecodeLookupExtension(codec, LOOKUP_EXTENSION_MARKER + Bundle(codec, chosen).value) == chosen
  {
    var bundle := Bundle(codec, chosen).value;
    assert (LOOKUP_EXTENSION_MARKER + bundle)[|LOOKUP_EXTENSION_MARKER|..] == bundle;
  }

  /** Nothing that fits is dropped: if everything fits together, everything is sent. */
  lemma {:induction false} AllFitting<R>(codec: RecordCodec<R>, records: seq<R>, room: int)
    requires AllEncode(codec, records) && Bundle(codec, records).Ok?
    requires |Bundle(codec, records).value| <= room
    ensures Fitting(codec, records, room) == records
    decreases |records|
  {
    if records != [] {
      var n := |records| - 1;
      AppendOne(codec, records[..n], records[n]);
      assert records[..n] + [records[n]] == records;
      AllFitting(codec, records[..n], room);
    }
  }

  // ---------- what a trailer carries, record by record ----------

  /** The items that are marked, in order. */
  function Marked<T>(xs: seq<T>, marks: seq<bool>): seq<T>
    requires |marks| == |xs|
  {
    if xs == [] then []
    else
      var n := |xs| - 1;
      Marked(xs[..n], marks[..n]) + if marks[n] then [xs[n]] else []
  }

  function Total(sizes: seq<nat>): nat {
    if sizes == [] then 0 else Total(sizes[..|sizes| - 1]) + sizes[|sizes| - 1]
  }

  /** Item `i` is marked exactly when it still fits beside the items marked before it. */
  ghost predicate MarkedIfFits(sizes: seq<nat>, room: int, marks: seq<bool>, i: nat)
    requires |marks| == |sizes|
  {
    i < |sizes| ==> (marks[i] <==> Total(Marked(sizes[..i], marks[..i])) + sizes[i] <= room)
  }

  ghost predicate TakesWhatFits(sizes: seq<nat>, room: int, marks: seq<bool>) {
    |marks| == |sizes| && forall i: nat :: MarkedIfFits(sizes, room, marks, i)
  }

  lemma TakeOneMore(sizes: seq<nat>, z: nat, room: int, marks: seq<bool>)
    requires TakesWhatFits(sizes, room, marks)
    ensures TakesWhatFits(sizes + [z], room, marks + [Total(Marked(sizes, marks)) + z <= room])
  {
    var mark := Total(Marked(sizes, marks)) + z <= room;
    forall i: nat ensures MarkedIfFits(sizes + [z], room, marks + [mark], i) {
      assert MarkedIfFits(sizes, room, marks, i);
      if i <= |sizes| {
        assert (sizes + [z])[..i] == sizes[..i] && (marks + [mark])[..i] == marks[..i];
        assert i == |sizes| ==> sizes[..i] == sizes && marks[..i] == marks;
      }
    }
  }

  lemma MarkedSnoc<T>(xs: seq<T>, marks: seq<bool>, x: T, mark: bool)
    requires |marks| == |xs|
    ensures Marked(xs + [x], marks + [mark]) == Marked(xs, marks) + if mark then [x] else []
  {
    assert (xs + [x])[..|xs|] == xs && (marks + [mark])[..|xs|] == marks;
  }

  lemma TotalSnoc(sizes: seq<nat>, z: nat)
    ensures Total(sizes + [z]) == Total(sizes) + z
  {
    assert (sizes + [z])[..|sizes|] == sizes;
  }

  /** What each record takes up in a bundle: four bytes of length, and its payload. */
  ghost function FrameSizes<R>(codec: RecordCodec<R>, records: seq<R>): seq<nat>
    requires AllEncode(codec, records)
  {
    seq(|records|, i requires 0 <= i < |records| => 4 + |Payload(codec, records[i]).value|)
  }

  lemma FrameSizesSnoc<R>(codec: RecordCodec<R>, records: seq<R>, x: R)
    requires AllEncode(codec, records) && Payload(codec, x).Ok?
    ensures AllEncode(codec, records + [x])
    ensures FrameSizes(codec, records + [x]) == FrameSizes(codec, records) + [4 + |Payload(codec, x).value|]
  {
  }

  /** The marked records were chosen, by what fits, and take up their bundle. */
  ghost predicate ChosenBy<R>(codec: RecordCodec<R>, records: seq<R>, room: int, marks: seq<bool>, chosen: seq<R>) {
    && AllEncode(codec, records) && TakesWhatFits(FrameSizes(codec, records), room, marks)
    && chosen == Marked(records, marks)
  }

  ghost predicate Weighs<R>(codec: RecordCodec<R>, records: seq<R>, marks: seq<bool>, chosen: seq<R>)
    requires AllEncode(codec, records) && |marks| == |records|
  {
    Bundle(codec, chosen).Ok? && Total(Marked(FrameSizes(codec, records), marks)) == |Bundle(codec, chosen).value|
  }

  lemma WeighsMore<R>(codec: RecordCodec<R>, records: seq<R>, marks: seq<bool>, chosen: seq<R>, x: R, mark: bool)
    requires AllEncode(codec, records) && |marks| == |records| && Payload(codec, x).Ok?
    requires Weighs(codec, records, marks, chosen)
    ensures AllEncode(codec, records + [x])
    ensures Weighs(codec, records + [x], marks + [mark], if mark then chosen + [x] else chosen)
  {
    var sizes, z := FrameSizes(codec, records), 4 + |Payload(codec, x).value|;
    FrameSizesSnoc(codec, records, x);
    MarkedSnoc(sizes, marks, z, mark);
    if mark {
      TotalSnoc(Marked(sizes, marks), z);
      AppendOne(codec, chosen, x);
    } else {
      assert Marked(sizes, marks) + [] == Marked(sizes, marks);
    }
  }

  lemma ChosenMore<R>(codec: RecordCodec<R>, records: seq<R>, room: int, marks: seq<bool>, chosen: seq<R>, x: R)
    requires ChosenBy(codec, records, room, marks, chosen) && Payload(codec, x).Ok?
    ensures var mark := Total(Marked(FrameSizes(codec, records), marks)) + 4 + |Payload(codec, x).value| <= room;
            ChosenBy(codec, records + [x], room, marks + [mark], if mark then chosen + [x] else chosen)
  {
    var sizes, z := FrameSizes(codec, records), 4 + |Payload(codec, x).value|;
    var mark := Total(Marked(sizes, marks)) + z <= room;
    FrameSizesSnoc(codec, records, x);
    TakeOneMore(sizes, z, room, marks);
    MarkedSnoc(records, marks, x, mark);
    assert chosen + [] == chosen;
  }

  lemma FittingStep<R>(codec: RecordCodec<R>, records: seq<R>, x: R, room: int, marks: seq<bool>) returns (mark: bool)
    requires AllEncode(codec, records) && Payload(codec, x).Ok? && |marks| == |records|
    requires Weighs(codec, records, marks, Fitting(codec, records, room))
    ensures AllEncode(codec, records + [x])
    ensures mark <==> Total(Marked(FrameSizes(codec, records), marks)) + 4 + |Payload(codec, x).value| <= room
    ensures Fitting(codec, records + [x], room)
         == var chosen := Fitting(codec, records, room); if mark then chosen + [x] else chosen
  {
    mark := Total(Marked(FrameSizes(codec, records), marks)) + 4 + |Payload(codec, x).value| <= room;
    FittingSnoc(codec, records, x, room);
    AppendOne(codec, Fitting(codec, records, room), x);
  }

  /** Greedy, first record first: one that is left out would have burst the message. */
  lemma {:induction false} FittingIsGreedy<R>(codec: RecordCodec<R>, records: seq<R>, room: int)
    returns (marks: seq<bool>)
    requires AllEncode(codec, records)
    ensures ChosenBy(codec, records, room, marks, Fitting(codec, records, room))
    ensures Weighs(codec, records, marks, Fitting(codec, records, room))
    decreases |records|
  {
    marks := [];
    if records != [] {
      var n := |records| - 1;
      var front, x := records[..n], records[n];
      assert records == front + [x];
      marks := FittingIsGreedy(codec, front, room);
      var mark := FittingStep(codec, front, x, room, marks);
      ChosenMore(codec, front, room, marks, Fitting(codec, front, room), x);
      WeighsMore(codec, front, marks, Fitting(codec, front, room), x, mark);
      marks := marks + [mark];
    }
  }

  /** The receiver reads back, of the sender's first 256 records, exactly those that still fit into the
      64 KiB message behind the answer, the marker and the records taken before them. */
  lemma TrailerCarries<R>(codec: RecordCodec<R>, bytes: Bytes, records: seq<R>, first: seq<R>)
    returns (marks: seq<bool>)
    requires first == if |records| <= 256 then records else records[..256]
    requires AllEncode(codec, first) && forall r :: r in first ==> Sound(codec, r)
    ensures AllEncode(codec, Considered(records))
    ensures ChosenBy(codec, first, 64 * 1024 - |bytes| - 8, marks,
                     DecodeLookupExtension(codec, Sent(codec, bytes, records)[|bytes|..]))
  {
    RoomIs(bytes);
    ConsideredIs(records, first);
    TrailerRoundTrip(codec, bytes, records);
    marks := FittingIsGreedy(codec, Considered(records), Room(bytes));
  }

  lemma RoomIs(bytes: Bytes)
    ensures Room(bytes) == 64 * 1024 - |bytes| - 8
  {
  }

  lemma ConsideredIs<R>(records: seq<R>, first: seq<R>)
    requires first == if |records| <= 256 then records else records[..256]
    ensures Considered(records) == first
  {
  }
}
