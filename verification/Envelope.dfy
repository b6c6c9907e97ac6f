/** The wire form of an envelope, plain CDR with its encapsulation header (section 7.4 of
    OMG DDS-XTypes 1.3), and the size that is computed for it beforehand. */
module Envelope {
  import opened Faults

  type Byte = x: int | 0 <= x < 256
  type Bytes = seq<Byte>

  datatype Envelope = Envelope(
    sequence: nat,
    timestampMicroseconds: int,
    kind: Bytes,
    deviceId: Bytes,
    operation: Bytes,
    payload: Bytes,
    correlationId: Bytes,
    traceParent: Bytes,
    traceState: Bytes,
    businessName: Bytes,
    businessInstanceId: Bytes,
    status: int)

  const TWO_32 := 0x1_0000_0000
  const TWO_64 := 0x1_0000_0000_0000_0000

  /** The fields are in range: `uint64_t`, `int64_t`, `int32_t`, and lengths that a length
      word can hold. */
  ghost predicate Typed(e: Envelope) {
    && e.sequence < TWO_64
    && -(TWO_64 / 2) <= e.timestampMicroseconds < TWO_64 / 2
    && -(TWO_32 / 2) <= e.status < TWO_32 / 2
    && forall s | s in Strings(e) :: |s| + 1 < TWO_32
  }

  function Strings(e: Envelope): (s: seq<Bytes>)
    ensures |s| == 9
  {
    [e.kind, e.deviceId, e.operation, e.payload, e.correlationId, e.traceParent, e.traceState, e.businessName,
     e.businessInstanceId]
  }

  datatype Representation = Xcdr1 | Xcdr2

  /** `PLAIN_CDR` and `DELIMIT_CDR2`, plus the bit for little endian. */
  function Header(r: Representation, little: bool): (h: Bytes)
    ensures |h| == 4
  {
    [0, (if r.Xcdr1? then 0 else 8) + (if little then 1 else 0), 0, 0]
  }

  type Boundary = a: int | a == 4 || a == 8 witness 4

  /** Eight-byte numbers are aligned to eight, in the second version to four. */
  function Wide(r: Representation): Boundary {
    if r.Xcdr1? then 8 else 4
  }

  // -------- Numbers --------

  function Power(n: nat): (p: nat)
    ensures p > 0
  {
    if n == 0 then 1 else 256 * Power(n - 1)
  }

  function Little(x: nat, n: nat): (b: Bytes)
    ensures |b| == n
  {
    if n == 0 then [] else [x % 256] + Little(x / 256, n - 1)
  }

  function FromLittle(b: Bytes): nat {
    if b == [] then 0 else b[0] + 256 * FromLittle(b[1..])
  }

  function Reverse(b: Bytes): (r: Bytes)
    ensures |r| == |b|
    ensures forall i | 0 <= i < |b| :: r[i] == b[|b| - 1 - i]
  {
    if b == [] then [] else Reverse(b[1..]) + [b[0]]
  }

  function Ordered(b: Bytes, little: bool): (r: Bytes)
    ensures |r| == |b|
  {
    if little then b else Reverse(b)
  }

  function Unsigned(x: int, modulus: nat): int {
    if x < 0 then x + modulus else x
  }

  function Signed(x: int, modulus: nat): int {
    if x >= modulus / 2 then x - modulus else x
  }

  lemma {:induction false} FromLittleOfLittle(x: nat, n: nat)
    requires x < Power(n)
    ensures FromLittle(Little(x, n)) == x
  {
    if n > 0 {
      FromLittleOfLittle(x / 256, n - 1);
      assert Little(x, n)[1..] == Little(x / 256, n - 1);
    }
  }

  lemma OrderedTwice(b: Bytes, little: bool)
    ensures Ordered(Ordered(b, little), little) == b
  {
  }

  lemma Powers()
    ensures Power(4) == TWO_32 && Power(8) == TWO_64
  {
    assert Power(1) == 256 && Power(2) == 0x1_0000 && Power(3) == 0x100_0000 && Power(4) == 0x1_0000_0000;
    assert Power(5) == 0x100_0000_0000 && Power(6) == 0x1_0000_0000_0000 && Power(7) == 0x100_0000_0000_0000;
  }

  // -------- Writing --------

  lemma PadAligns4(position: nat)
    ensures (position + (4 - position % 4) % 4) % 4 == 0
  {
    var q, rest := position / 4, position % 4;
    if rest > 0 {
      assert position + (4 - rest) == 4 * (q + 1);
    }
  }

  lemma PadAligns8(position: nat)
    ensures (position + (8 - position % 8) % 8) % 8 == 0
  {
    var q, rest := position / 8, position % 8;
    if rest > 0 {
      assert position + (8 - rest) == 8 * (q + 1);
    }
  }

  function Pad(position: nat, alignment: Boundary): (n: nat)
    ensures n < alignment && (position + n) % alignment == 0
  {
    PadAligns4(position);
    PadAligns8(position);
    if alignment == 4 then (4 - position % 4) % 4 else (8 - position % 8) % 8
  }

  function Zeros(n: nat): (b: Bytes)
    ensures |b| == n
  {
    seq(n, _ => 0)
  }

  /** Positions count from the end of the header. */
  function PutNumber(body: Bytes, x: nat, size: nat, alignment: Boundary, little: bool): (r: Bytes)
    ensures |r| == |body| + Pad(|body|, alignment) + size && body <= r
  {
    body + Zeros(Pad(|body|, alignment)) + Ordered(Little(x, size), little)
  }

  function PutString(body: Bytes, s: Bytes, little: bool): (r: Bytes)
    ensures |r| == |body| + Pad(|body|, 4) + 4 + |s| + 1 && body <= r
  {
    PutNumber(body, |s| + 1, 4, 4, little) + (s + [0])
  }

  function PutStrings(body: Bytes, strings: seq<Bytes>, little: bool): (r: Bytes)
    ensures body <= r
  {
    if strings == [] then body
    else PutString(PutStrings(body, strings[..|strings| - 1], little), strings[|strings| - 1], little)
  }

  /** The two wide numbers, which need no padding. */
  function Scalars(e: Envelope, r: Representation, little: bool): (b: Bytes)
    requires Typed(e)
    ensures |b| == 16
  {
    assert Pad(0, Wide(r)) == 0 && Pad(8, Wide(r)) == 0;
    PutNumber(PutNumber([], e.sequence, 8, Wide(r), little),
              Unsigned(e.timestampMicroseconds, TWO_64), 8, Wide(r), little)
  }

  function StatusWord(e: Envelope): nat
    requires Typed(e)
  {
    Unsigned(e.status, TWO_32)
  }

  function Body(e: Envelope, r: Representation, little: bool): Bytes
    requires Typed(e)
  {
    PutNumber(PutStrings(Scalars(e, r, little), Strings(e), little), StatusWord(e), 4, 4, little)
  }

  function Encoded(e: Envelope, r: Representation, little: bool): Bytes
    requires Typed(e)
  {
    Header(r, little) + Body(e, r, little)
  }

  // -------- Reading --------

  function GetNumber(body: Bytes, position: nat, size: nat, alignment: Boundary, little: bool): (r: Option<(nat, nat)>)
    ensures r.Some? ==> r.value.1 <= |body| && r.value.1 >= position + size
  {
    var from := position + Pad(position, alignment);
    if from + size > |body| then None
    else Some((FromLittle(Ordered(body[from..from + size], little)), from + size))
  }

  /** An empty string may lack its terminator; otherwise a last zero byte is dropped. */
  function GetString(body: Bytes, position: nat, little: bool): (r: Option<(Bytes, nat)>)
    ensures r.Some? ==> r.value.1 <= |body| && r.value.1 > position
  {
    var n := GetNumber(body, position, 4, 4, little);
    if n.None? || n.value.1 + n.value.0 > |body| then None
    else
      var (length, from) := n.value;
      var s := body[from..from + length];
      Some((if s != [] && s[|s| - 1] == 0 then s[..|s| - 1] else s, from + length))
  }

  function GetStrings(body: Bytes, position: nat, count: nat, little: bool): (r: Option<(seq<Bytes>, nat)>)
    ensures r.Some? ==> |r.value.0| == count
  {
    if count == 0 then Some(([], position))
    else
      var init := GetStrings(body, position, count - 1, little);
      if init.None? then None
      else
        var last := GetString(body, init.value.1, little);
        if last.None? then None else Some((init.value.0 + [last.value.0], last.value.1))
  }

  /** What the reader makes of bytes; the header tells the byte order and the version. */
  function Decoded(bytes: Bytes): Option<Envelope> {
    if |bytes| < 4 || bytes[0] != 0 || bytes[1] !in {0, 1, 8, 9} then None
    else
      var little, r := bytes[1] % 2 == 1, if bytes[1] < 8 then Xcdr1 else Xcdr2;
      var body := bytes[4..];
      var sequence := GetNumber(body, 0, 8, Wide(r), little);
      if sequence.None? then None
      else
        var timestamp := GetNumber(body, sequence.value.1, 8, Wide(r), little);
        if timestamp.None? then None
        else
          var strings := GetStrings(body, timestamp.value.1, 9, little);
          if strings.None? then None
          else
            var status := GetNumber(body, strings.value.1, 4, 4, little);
            if status.None? then None
            else Some(Assembled(sequence.value.0, timestamp.value.0, strings.value.0, status.value.0))
  }

  function Assembled(sequence: nat, timestamp: nat, s: seq<Bytes>, status: nat): Envelope
    requires |s| == 9
  {
    Envelope(sequence, Signed(timestamp, TWO_64), s[0], s[1], s[2], s[3], s[4], s[5], s[6], s[7], s[8],
             Signed(status, TWO_32))
  }

  // -------- Reading back --------

  lemma NumberIsReadBack(x: nat, size: nat, little: bool)
    requires x < Power(size)
    ensures FromLittle(Ordered(Ordered(Little(x, size), little), little)) == x
  {
    OrderedTwice(Little(x, size), little);
    FromLittleOfLittle(x, size);
    hide Ordered, Little, FromLittle, Power;
  }

  lemma Middle(a: Bytes, b: Bytes, c: Bytes)
    ensures (a + b + c)[|a|..|a| + |b|] == b
  {
  }

  lemma NumberComesBack(body: Bytes, x: nat, size: nat, alignment: Boundary, little: bool, rest: Bytes)
    requires x < Power(size)
    ensures GetNumber(PutNumber(body, x, size, alignment, little) + rest, |body|, size, alignment, little)
            == Some((x, |PutNumber(body, x, size, alignment, little)|))
  {
    hide Pad, Ordered, Little, FromLittle, Power, Zeros;
    NumberIsReadBack(x, size, little);
    Middle(body + Zeros(Pad(|body|, alignment)), Ordered(Little(x, size), little), rest);
  }

  lemma StringComesBack(body: Bytes, s: Bytes, little: bool, rest: Bytes)
    requires |s| + 1 < TWO_32
    ensures GetString(PutString(body, s, little) + rest, |body|, little) == Some((s, |PutString(body, s, little)|))
  {
    Powers();
    hide Pad, PutNumber, GetNumber, Power;
    var word := PutNumber(body, |s| + 1, 4, 4, little);
    var all := PutString(body, s, little) + rest;
    assert all == word + (s + [0] + rest);
    NumberComesBack(body, |s| + 1, 4, 4, little, s + [0] + rest);
    var t := s + [0];
    assert all[|word|..|word| + |t|] == t && t[..|s|] == s;
  }

  lemma {:induction false} StringsComeBack(body: Bytes, strings: seq<Bytes>, little: bool, rest: Bytes)
    requires forall s | s in strings :: |s| + 1 < TWO_32
    ensures GetStrings(PutStrings(body, strings, little) + rest, |body|, |strings|, little)
            == Some((strings, |PutStrings(body, strings, little)|))
  {
    hide Pad, PutNumber, PutString, GetNumber, GetString;
    if strings != [] {
      var n := |strings| - 1;
      var init := PutStrings(body, strings[..n], little);
      var all := PutString(init, strings[n], little);
      assert strings[n] in strings;
      var more := all[|init|..] + rest;
      assert init + more == all + rest;
      StringsComeBack(body, strings[..n], little, more);
      StringComesBack(init, strings[n], little, rest);
      assert strings[..n] + [strings[n]] == strings;
    }
  }

  lemma NumberStage(stage: Bytes, x: nat, size: nat, alignment: Boundary, little: bool, all: Bytes)
    requires x < Power(size) && PutNumber(stage, x, size, alignment, little) <= all
    ensures GetNumber(all, |stage|, size, alignment, little) ==
              Some((x, |PutNumber(stage, x, size, alignment, little)|))
  {
    hide PutNumber, GetNumber, Power;
    var put := PutNumber(stage, x, size, alignment, little);
    NumberComesBack(stage, x, size, alignment, little, all[|put|..]);
    assert put + all[|put|..] == all;
  }

  lemma StringsStage(stage: Bytes, strings: seq<Bytes>, little: bool, all: Bytes)
    requires (forall s | s in strings :: |s| + 1 < TWO_32) && PutStrings(stage, strings, little) <= all
    ensures GetStrings(all, |stage|, |strings|, little) == Some((strings, |PutStrings(stage, strings, little)|))
  {
    hide PutStrings, GetStrings;
    var put := PutStrings(stage, strings, little);
    StringsComeBack(stage, strings, little, all[|put|..]);
    assert put + all[|put|..] == all;
  }

  /** Reading back what was written gives the same envelope, in either version and byte
      order. */
  lemma EnvelopeComesBack(e: Envelope, r: Representation, little: bool)
    requires Typed(e)
    ensures Decoded(Encoded(e, r, little)) == Some(e)
  {
    Powers();
    hide PutNumber, GetNumber, PutStrings, GetStrings, Power;
    var time, status := Unsigned(e.timestampMicroseconds, TWO_64), Unsigned(e.status, TWO_32);
    var a := PutNumber([], e.sequence, 8, Wide(r), little);
    var b := PutNumber(a, time, 8, Wide(r), little);
    var c := PutStrings(b, Strings(e), little);
    var all := PutNumber(c, status, 4, 4, little);
    NumberStage([], e.sequence, 8, Wide(r), little, all);
    NumberStage(a, time, 8, Wide(r), little, all);
    StringsStage(b, Strings(e), little, all);
    NumberStage(c, status, 4, 4, little, all);
    assert Encoded(e, r, little)[4..] == all;
  }

  /** The two versions write the same body: the wide numbers come first. */
  lemma VersionsAgree(e: Envelope, little: bool)
    requires Typed(e)
    ensures Body(e, Xcdr1, little) == Body(e, Xcdr2, little)
  {
    assert Pad(0, 8) == Pad(0, 4) == 0 && Pad(8, 8) == Pad(8, 4) == 0;
    hide Pad, Little, Ordered;
  }

  // -------- The computed size --------

  function Sizes(strings: seq<Bytes>): nat {
    if strings == [] then 0 else Sizes(strings[..|strings| - 1]) + |strings[|strings| - 1]|
  }

  /** What the code computes in 32 bits, before it wraps around. */
  function UnboundedSize(e: Envelope): nat {
    4 + 8 + 8 + 4 + Sizes(Strings(e)) + 9 * 8 + 32
  }

  function CalculatedSize(e: Envelope): nat {
    (4 + 8 + 8 + 4 + Sizes(Strings(e)) % TWO_32 + 9 * 8 + 32) % TWO_32
  }

  lemma {:induction false} StringsLength(body: Bytes, strings: seq<Bytes>, little: bool)
    ensures 5 * |strings| <= |PutStrings(body, strings, little)| - |body| - Sizes(strings) <= 8 * |strings|
  {
    if strings != [] {
      StringsLength(body, strings[..|strings| - 1], little);
      hide PutString, Pad;
    }
  }

  lemma EncodedLength(e: Envelope, r: Representation, little: bool)
    requires Typed(e)
    ensures 24 + Sizes(Strings(e)) + 9 * 5 <= |Encoded(e, r, little)| <= 24 + Sizes(Strings(e)) + 9 * 8 + 3
  {
    hide Typed, Strings, Sizes, Scalars, StatusWord, Pad;
    StringsLength(Scalars(e, r, little), Strings(e), little);
  }

  lemma WrappedSize(sizes: nat, length: nat)
    requires sizes + 69 <= length <= sizes + 99
    ensures length <= (24 + sizes % TWO_32 + 104) % TWO_32 <==> sizes + 128 < TWO_32
  {
    if sizes < TWO_32 && sizes + 128 >= TWO_32 {
      assert (sizes + 128) % TWO_32 == sizes + 128 - TWO_32;
    }
  }

  /** The computed size bounds the encoded length exactly when it has not wrapped around. */
  lemma SizeBoundsLength(e: Envelope, r: Representation, little: bool)
    requires Typed(e)
    ensures |Encoded(e, r, little)| <= CalculatedSize(e) <==> UnboundedSize(e) < TWO_32
  {
    hide Encoded, Sizes, Strings, Typed;
    EncodedLength(e, r, little);
    WrappedSize(Sizes(Strings(e)), |Encoded(e, r, little)|);
  }

  // -------- The serializer as it runs --------

  /** The CDR library takes a string only if it has no zero byte. */
  predicate Sendable(strings: seq<Bytes>) {
    forall s | s in strings :: 0 !in s
  }

  method WriteStrings(start: Bytes, strings: seq<Bytes>, little: bool, limit: nat) returns (body: Option<Bytes>)
    ensures body == if Sendable(strings) && (strings == [] || |PutStrings(start, strings, little)| <= limit)
                    then Some(PutStrings(start, strings, little)) else None
  {
    hide PutString;
    var b := start;
    for i := 0 to |strings|
      invariant b == PutStrings(start, strings[..i], little)
      invariant i > 0 ==> |b| <= limit
      invariant forall j | 0 <= j < i :: 0 !in strings[j]
    {
      assert strings[..i + 1][..i] == strings[..i];
      PutStringsPrefix(start, strings, i + 1, little);
      if 0 in strings[i] {
        return None;
      }
      b := PutString(b, strings[i], little);
      if |b| > limit {
        return None;
      }
    }
    assert strings[..|strings|] == strings;
    return Some(b);
  }

  /** Writes field by field into a buffer of `maxSize` bytes; running out of it is reported,
      and so is a string that cannot be sent. */
  method Serialize(e: Envelope, r: Representation, little: bool, maxSize: nat) returns (payload: Option<Bytes>)
    requires Typed(e)
    ensures payload == if Sendable(Strings(e)) && |Encoded(e, r, little)| <= maxSize then Some(Encoded(e, r, little))
                       else None
  {
    hide PutNumber, PutStrings, Pad, Sendable;
    payload := None;
    if maxSize < 4 {
      return;
    }
    var limit := maxSize - 4;
    var sequence := PutNumber([], e.sequence, 8, Wide(r), little);
    if |sequence| > limit {
      return;
    }
    var scalars := PutNumber(sequence, Unsigned(e.timestampMicroseconds, TWO_64), 8, Wide(r), little);
    if |scalars| > limit {
      return;
    }
    var strings := WriteStrings(scalars, Strings(e), little, limit);
    if strings.None? {
      return;
    }
    var body := PutNumber(strings.value, Unsigned(e.status, TWO_32), 4, 4, little);
    if |body| <= limit {
      payload := Some(Header(r, little) + body);
    }
  }

  lemma {:induction false} PutStringsPrefix(body: Bytes, strings: seq<Bytes>, n: nat, little: bool)
    requires n <= |strings|
    ensures PutStrings(body, strings[..n], little) <= PutStrings(body, strings, little)
    decreases |strings| - n
  {
    if n < |strings| {
      hide PutString;
      ghost var shorter := PutStrings(body, strings[..n], little);
      assert strings[..n + 1][..n] == strings[..n];
      assert PutStrings(body, strings[..n + 1], little) == PutString(shorter, strings[n], little);
      hide PutStrings;
      PutStringsPrefix(body, strings, n + 1, little);
    } else {
      assert strings[..n] == strings;
    }
  }

  function WithString(e: Envelope, i: nat, s: Bytes): Envelope
    requires i < 9
  {
    match i
    case 0 => e.(kind := s)
    case 1 => e.(deviceId := s)
    case 2 => e.(operation := s)
    case 3 => e.(payload := s)
    case 4 => e.(correlationId := s)
    case 5 => e.(traceParent := s)
    case 6 => e.(traceState := s)
    case 7 => e.(businessName := s)
    case _ => e.(businessInstanceId := s)
  }

  /** The first strings are `read`, the others and the numbers are those of `e`. */
  ghost predicate HasRead(after: Envelope, e: Envelope, read: seq<Bytes>) {
    && |read| <= 9 && Strings(after) == read + Strings(e)[|read|..]
    && after.sequence == e.sequence && after.timestampMicroseconds == e.timestampMicroseconds
    && after.status == e.status
  }

  lemma ReadsOneMore(after: Envelope, e: Envelope, read: seq<Bytes>, s: Bytes)
    requires HasRead(after, e, read) && |read| < 9
    ensures HasRead(WithString(after, |read|, s), e, read + [s])
  {
    var next := WithString(after, |read|, s);
    assert Strings(next) == Strings(after)[|read| := s];
    assert (read + Strings(e)[|read|..])[|read| := s] == read + [s] + Strings(e)[|read| + 1..];
  }

  lemma SameFields(a: Envelope, b: Envelope)
    requires Strings(a) == Strings(b)
    requires a.sequence == b.sequence && a.timestampMicroseconds == b.timestampMicroseconds && a.status == b.status
    ensures a == b
  {
    assert forall i | 0 <= i < 9 :: Strings(a)[i] == Strings(b)[i];
    assert Strings(a)[0] == Strings(b)[0] && Strings(a)[1] == Strings(b)[1] && Strings(a)[2] == Strings(b)[2];
    assert Strings(a)[3] == Strings(b)[3] && Strings(a)[4] == Strings(b)[4] && Strings(a)[5] == Strings(b)[5];
    assert Strings(a)[6] == Strings(b)[6] && Strings(a)[7] == Strings(b)[7] && Strings(a)[8] == Strings(b)[8];
  }

  /** What a read that failed leaves in the object: the fields up to the one that is cut off
      are those of the bytes, the others are as they were. */
  ghost predicate PartlyRead(bytes: Bytes, before: Envelope, after: Envelope) {
    after == before ||
    (&& |bytes| >= 4
     && var little, r, body := bytes[1] % 2 == 1, if bytes[1] < 8 then Xcdr1 else Xcdr2, bytes[4..];
        var sequence := GetNumber(body, 0, 8, Wide(r), little);
        && sequence.Some?
        && var one := before.(sequence := sequence.value.0);
           (after == one ||
            (var timestamp := GetNumber(body, sequence.value.1, 8, Wide(r), little);
             && timestamp.Some?
             && exists read, position ::
                  && GetStrings(body, timestamp.value.1, |read|, little) == Some((read, position))
                  && HasRead(after, one.(timestampMicroseconds := Signed(timestamp.value.0, TWO_64)), read))))
  }

  /** The object that the caller gave. */
  class Sample {
    var value: Envelope

    constructor (value: Envelope)
      ensures this.value == value
    {
      this.value := value;
    }
  }

  /** Reads the fields in the same order into the object; a read past the end is reported,
      and what had been read until then stays there. */
  method Deserialize(payload: Bytes, sample: Sample) returns (done: bool)
    modifies sample
    ensures done <==> Decoded(payload).Some?
    ensures done ==> sample.value == Decoded(payload).value
    ensures !done ==> PartlyRead(payload, old(sample.value), sample.value)
  {
    hide GetNumber, GetString, HasRead;
    done := false;
    if |payload| < 4 || payload[0] != 0 || payload[1] !in {0, 1, 8, 9} {
      return;
    }
    var little, r := payload[1] % 2 == 1, if payload[1] < 8 then Xcdr1 else Xcdr2;
    var body := payload[4..];
    var sequence := GetNumber(body, 0, 8, Wide(r), little);
    if sequence.None? {
      return;
    }
    sample.value := sample.value.(sequence := sequence.value.0);
    var timestamp := GetNumber(body, sequence.value.1, 8, Wide(r), little);
    if timestamp.None? {
      return;
    }
    sample.value := sample.value.(timestampMicroseconds := Signed(timestamp.value.0, TWO_64));
    ghost var numbers := sample.value;
    ghost var strings: seq<Bytes> := [];
    var position, i := timestamp.value.1, 0;
    NothingRead(numbers);
    while i < 9
      invariant i == |strings| <= 9
      invariant GetStrings(body, timestamp.value.1, i, little) == Some((strings, position))
      invariant HasRead(sample.value, numbers, strings)
    {
      var s := GetString(body, position, little);
      if s.None? {
        StringsFail(body, timestamp.value.1, i + 1, 9, little);
        return;
      }
      ReadsOneMore(sample.value, numbers, strings, s.value.0);
      sample.value := WithString(sample.value, i, s.value.0);
      strings, position, i := strings + [s.value.0], s.value.1, i + 1;
    }
    var status := GetNumber(body, position, 4, 4, little);
    if status.Some? {
      AllRead(sample.value, numbers, strings);
      sample.value := sample.value.(status := Signed(status.value.0, TWO_32));
      SameFields(sample.value, Assembled(sequence.value.0, timestamp.value.0, strings, status.value.0));
      done := true;
    }
  }

  lemma NothingRead(e: Envelope)
    ensures HasRead(e, e, [])
  {
  }

  lemma AllRead(after: Envelope, e: Envelope, read: seq<Bytes>)
    requires HasRead(after, e, read) && |read| == 9
    ensures Strings(after) == read
    ensures after.sequence == e.sequence && after.timestampMicroseconds == e.timestampMicroseconds
  {
  }

  lemma {:induction false} StringsFail(body: Bytes, position: nat, few: nat, count: nat, little: bool)
    requires few <= count && GetStrings(body, position, few, little).None?
    ensures GetStrings(body, position, count, little).None?
  {
    hide GetString;
    if few < count {
      StringsFail(body, position, few, count - 1, little);
    }
  }
}
