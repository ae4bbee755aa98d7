/**
 The cache record codec of adapter/experimental.go: `SavedBinary.MarshalBinary`
 writes a versioned record field by field, `UnmarshalBinary` reads one back into
 a record that keeps whatever was assigned before an error.
 */
module SavedBinary {
  import opened Common

  type byte = b: int | 0 <= b < 256

  // ----- variable-length integers

  const MAX_VARINT_LENGTH := 10

  /** The values that fit when `i` of the ten bytes are already used. */
  function Limit(i: nat): nat
    requires i < MAX_VARINT_LENGTH
    decreases MAX_VARINT_LENGTH - i
  {
    if i == MAX_VARINT_LENGTH - 1 then 2 else 128 * Limit(i + 1)
  }

  const MAX_UINT64 := 0x1_0000_0000_0000_0000

  lemma LimitIsUint64()
    ensures Limit(0) == MAX_UINT64
  {
    assert Limit(8) == 128 * 2;
    assert Limit(6) == 128 * 128 * 128 * 2;
    assert Limit(4) == 128 * 128 * Limit(6);
    assert Limit(2) == 128 * 128 * Limit(4);
    assert Limit(0) == 128 * 128 * Limit(2);
  }

  function PutUvarint(x: nat): seq<byte> {
    if x < 128 then [x] else [x % 128 + 128] + PutUvarint(x / 128)
  }

  datatype Error = EndOfData | UnexpectedEnd | Overflow | InvalidLength

  /** A value and the number of bytes it took. */
  datatype Taken<+T> = Taken(value: T, size: nat)

  /** `binary.ReadUvarint` after `i` bytes. */
  function GetUvarint(data: seq<byte>, i: nat): (r: Result<Taken<nat>, Error>)
    requires i <= MAX_VARINT_LENGTH
    ensures r.Ok? ==> r.value.size <= |data|
    decreases |data|
  {
    if i == MAX_VARINT_LENGTH then Err(Overflow)
    else if data == [] then Err(if i > 0 then UnexpectedEnd else EndOfData)
    else if data[0] < 128 then
      if i == MAX_VARINT_LENGTH - 1 && data[0] > 1 then Err(Overflow) else Ok(Taken(data[0], 1))
    else
      match GetUvarint(data[1..], i + 1)
      case Err(e) => Err(e)
      case Ok(t) => Ok(Taken(data[0] - 128 + 128 * t.value, t.size + 1))
  }

  lemma {:induction false} UvarintRoundTrip(x: nat, i: nat, rest: seq<byte>)
    requires i < MAX_VARINT_LENGTH && x < Limit(i)
    ensures GetUvarint(PutUvarint(x) + rest, i) == Ok(Taken(x, |PutUvarint(x)|))
    decreases x
  {
    if x >= 128 {
      assert i < MAX_VARINT_LENGTH - 1;
      assert (PutUvarint(x) + rest)[1..] == PutUvarint(x / 128) + rest;
      UvarintRoundTrip(x / 128, i + 1, rest);
    }
  }

  /** A prefix that is cut inside a number is rejected; one that holds all of it
      gives the same number. */
  lemma {:induction false} UvarintPrefix(data: seq<byte>, i: nat, k: nat)
    requires i <= MAX_VARINT_LENGTH && k <= |data| && GetUvarint(data, i).Ok?
    ensures k < GetUvarint(data, i).value.size ==> GetUvarint(data[..k], i).Err?
    ensures k >= GetUvarint(data, i).value.size ==> GetUvarint(data[..k], i) == GetUvarint(data, i)
    decreases |data|
  {
    if data[0] >= 128 {
      if k == 0 {
        UvarintPrefix(data[1..], i + 1, 0);
      } else {
        assert data[..k][1..] == data[1..][..k - 1];
        UvarintPrefix(data[1..], i + 1, k - 1);
      }
    }
  }

  /** `varbin.WriteUvarint`: the loop that appends seven bits at a time. */
  method WriteUvarint(buffer: seq<byte>, n: nat) returns (r: seq<byte>)
    ensures r == buffer + PutUvarint(n)
  {
    var x := n;
    r := buffer;
    while x >= 128
      invariant r + PutUvarint(x) == buffer + PutUvarint(n)
    {
      r := r + [x % 128 + 128];
      x := x / 128;
    }
    r := r + [x];
  }

  function Shifted(t: Result<Taken<nat>, Error>, x: nat, scale: nat, i: nat): Result<Taken<nat>, Error> {
    match t
    case Err(e) => Err(e)
    case Ok(v) => Ok(Taken(Put(x, scale, v.value), v.size + i))
  }

  /** `x | uint64(b)<<s` while the bits do not overlap. */
  function Put(x: nat, scale: nat, b: nat): nat {
    x + scale * b
  }

  lemma ShiftStep(x: nat, scale: nat, low: nat, v: nat)
    ensures Put(x, scale, low + 128 * v) == Put(Put(x, scale, low), scale * 128, v)
  {
    calc {
      scale * (low + 128 * v);
      scale * low + scale * (128 * v);
      scale * low + (scale * 128) * v;
    }
  }

  lemma ReadStep(data: seq<byte>, i: nat, x: nat, scale: nat)
    requires data != [] && data[0] >= 128 && i < MAX_VARINT_LENGTH
    ensures Shifted(GetUvarint(data, i), x, scale, i) ==
            Shifted(GetUvarint(data[1..], i + 1), Put(x, scale, data[0] - 128), scale * 128, i + 1)
  {
    var rest := GetUvarint(data[1..], i + 1);
    if rest.Ok? { ShiftStep(x, scale, data[0] - 128, rest.value.value); }
  }

  /** `binary.ReadUvarint`: the loop over at most ten bytes. */
  method ReadUvarint(data: seq<byte>, pos: nat) returns (r: Result<Taken<nat>, Error>)
    requires pos <= |data|
    ensures r == GetUvarint(data[pos..], 0)
  {
    var x: nat, scale: nat, i := 0, 1, 0;
    while i < MAX_VARINT_LENGTH
      invariant i <= MAX_VARINT_LENGTH && pos + i <= |data|
      invariant GetUvarint(data[pos..], 0) == Shifted(GetUvarint(data[pos + i..], i), x, scale, i)
    {
      if pos + i == |data| {
        return Err(if i > 0 then UnexpectedEnd else EndOfData);
      }
      var b: int := data[pos + i];
      assert data[pos + i..][1..] == data[pos + i + 1..];
      if b < 128 {
        if i == MAX_VARINT_LENGTH - 1 && b > 1 { return Err(Overflow); }
        return Ok(Taken(Put(x, scale, b), i + 1));
      }
      ReadStep(data[pos + i..], i, x, scale);
      x, scale := Put(x, scale, b - 128), scale * 128;
      i := i + 1;
    }
    r := Err(Overflow);
  }

  // ----- signed 64-bit integers, most significant byte first

  function PutUint(u: nat, n: nat): seq<byte> {
    if n == 0 then [] else PutUint(u / 256, n - 1) + [u % 256]
  }

  function GetUint(data: seq<byte>): nat {
    if data == [] then 0 else GetUint(data[..|data| - 1]) * 256 + data[|data| - 1]
  }

  function Power256(n: nat): nat {
    if n == 0 then 1 else 256 * Power256(n - 1)
  }

  lemma {:induction false} UintRoundTrip(u: nat, n: nat)
    requires u < Power256(n)
    ensures |PutUint(u, n)| == n && GetUint(PutUint(u, n)) == u
  {
    if n > 0 {
      UintRoundTrip(u / 256, n - 1);
      assert PutUint(u, n)[..n - 1] == PutUint(u / 256, n - 1);
    }
  }

  predicate IsInt64(v: int) {
    -0x8000_0000_0000_0000 <= v < 0x8000_0000_0000_0000
  }

  /** Two's complement. */
  function PutInt64(v: int): seq<byte>
    requires IsInt64(v)
  {
    PutUint(if v < 0 then v + MAX_UINT64 else v, 8)
  }

  function GetInt64(data: seq<byte>): int
    requires |data| == 8
  {
    var u := GetUint(data);
    if u >= 0x8000_0000_0000_0000 then u - MAX_UINT64 else u
  }

  lemma Int64RoundTrip(v: int)
    requires IsInt64(v)
    ensures |PutInt64(v)| == 8 && GetInt64(PutInt64(v)) == v
  {
    assert Power256(2) == 0x1_0000;
    assert Power256(4) == 0x1_0000_0000;
    assert Power256(6) == 0x1_0000_0000_0000;
    assert Power256(8) == MAX_UINT64;
    UintRoundTrip(if v < 0 then v + MAX_UINT64 else v, 8);
  }

  // ----- the record

  /** An instant; `Unix()` is its whole seconds. */
  datatype Time = Time(seconds: int, nanos: nat)

  datatype Saved = Saved(content: seq<byte>, lastUpdated: Time, lastEtag: seq<byte>, urlHash: seq<byte>)

  /** What the Go types guarantee: lengths and seconds are machine integers. */
  predicate InRange(s: Saved) {
    |s.content| < MAX_UINT64 && |s.lastEtag| < MAX_UINT64 && |s.urlHash| < MAX_UINT64 && IsInt64(s.lastUpdated.seconds)
  }

  function PutBlock(b: seq<byte>): seq<byte> {
    PutUvarint(|b|) + b
  }

  /** The fields that every version has. */
  function PutCommon(s: Saved): seq<byte>
    requires InRange(s)
  {
    PutBlock(s.content) + (PutInt64(s.lastUpdated.seconds) + PutBlock(s.lastEtag))
  }

  function Encode(s: Saved): seq<byte>
    requires InRange(s)
  {
    [2] + (PutCommon(s) + PutBlock(s.urlHash))
  }

  /** The layout of version 1, which had no hash. */
  function EncodeV1(s: Saved): seq<byte>
    requires InRange(s)
  {
    [1] + PutCommon(s)
  }

  /** A length followed by that many bytes. */
  function GetBlock(data: seq<byte>): (r: Result<Taken<seq<byte>>, Error>)
    ensures r.Ok? ==> |r.value.value| <= r.value.size <= |data|
  {
    match GetUvarint(data, 0)
    case Err(e) => Err(e)
    case Ok(n) =>
      if n.value > |data| - n.size then Err(InvalidLength)
      else Ok(Taken(data[n.size..n.size + n.value], n.size + n.value))
  }

  function TakeInt64(data: seq<byte>): Result<Taken<int>, Error> {
    if |data| < 8 then Err(if data == [] then EndOfData else UnexpectedEnd)
    else Ok(Taken(GetInt64(data[..8]), 8))
  }

  /** What a decode leaves in the record, and how it ended. */
  datatype Decoded = Decoded(saved: Saved, err: Option<Error>)

  function DecodeHash(s: Saved, data: seq<byte>): Decoded {
    match GetBlock(data)
    case Err(e) => Decoded(s, Some(e))
    case Ok(t) => Decoded(s.(urlHash := t.value), None)
  }

  function DecodeEtag(s: Saved, version: nat, data: seq<byte>): Decoded {
    match GetBlock(data)
    case Err(e) => Decoded(s, Some(e))
    case Ok(t) =>
      var s1 := s.(lastEtag := t.value);
      if version < 2 then Decoded(s1, None)
      else DecodeHash(s1, data[t.size..])
  }

  function DecodeTime(s: Saved, version: nat, data: seq<byte>): Decoded {
    match TakeInt64(data)
    case Err(e) => Decoded(s, Some(e))
    case Ok(t) => DecodeEtag(s.(lastUpdated := Time(t.value, 0)), version, data[8..])
  }

  function DecodeContent(s: Saved, version: nat, data: seq<byte>): Decoded {
    match GetBlock(data)
    case Err(e) => Decoded(s, Some(e))
    case Ok(t) => DecodeTime(s.(content := t.value), version, data[t.size..])
  }

  function Decode(s: Saved, data: seq<byte>): Decoded {
    if data == [] then Decoded(s, Some(EndOfData)) else DecodeContent(s, data[0], data[1..])
  }

  // ----- what is written can be read

  lemma BlockRoundTrip(b: seq<byte>, rest: seq<byte>)
    requires |b| < MAX_UINT64
    ensures GetBlock(PutBlock(b) + rest) == Ok(Taken(b, |PutBlock(b)|))
    ensures (PutBlock(b) + rest)[|PutBlock(b)|..] == rest
  {
    LimitIsUint64();
    UvarintRoundTrip(|b|, 0, b + rest);
    assert PutBlock(b) + rest == PutUvarint(|b|) + (b + rest);
  }

  lemma TimeRoundTrip(v: int, rest: seq<byte>)
    requires IsInt64(v)
    ensures TakeInt64(PutInt64(v) + rest) == Ok(Taken(v, 8)) && (PutInt64(v) + rest)[8..] == rest
  {
    Int64RoundTrip(v);
    assert (PutInt64(v) + rest)[..8] == PutInt64(v);
  }

  lemma CommonRoundTrip(s0: Saved, s: Saved, version: nat, rest: seq<byte>)
    requires InRange(s)
    ensures var s1 := s0.(content := s.content, lastUpdated := Time(s.lastUpdated.seconds, 0), lastEtag := s.lastEtag);
            DecodeContent(s0, version, PutCommon(s) + rest) ==
            if version < 2 then Decoded(s1, None) else DecodeHash(s1, rest)
  {
    var r2 := PutBlock(s.lastEtag) + rest;
    var r1 := PutInt64(s.lastUpdated.seconds) + r2;
    assert PutCommon(s) + rest == PutBlock(s.content) + r1;
    BlockRoundTrip(s.content, r1);
    TimeRoundTrip(s.lastUpdated.seconds, r2);
    BlockRoundTrip(s.lastEtag, rest);
  }

  /** Decoding an encoded record gives it back up to whole seconds, whatever the
      receiver held before and whatever follows the record. */
  lemma RoundTrip(s0: Saved, s: Saved, tail: seq<byte>)
    requires InRange(s)
    ensures Decode(s0, Encode(s) + tail) == Decoded(s.(lastUpdated := Time(s.lastUpdated.seconds, 0)), None)
  {
    var data := Encode(s) + tail;
    assert data[1..] == PutCommon(s) + (PutBlock(s.urlHash) + tail);
    CommonRoundTrip(s0, s, 2, PutBlock(s.urlHash) + tail);
    BlockRoundTrip(s.urlHash, tail);
  }

  /** Version 1 data decodes without a hash: the receiver's own hash stays. */
  lemma VersionOneRoundTrip(s0: Saved, s: Saved, tail: seq<byte>)
    requires InRange(s)
    ensures Decode(s0, EncodeV1(s) + tail) ==
            Decoded(s.(lastUpdated := Time(s.lastUpdated.seconds, 0), urlHash := s0.urlHash), None)
  {
    var data := EncodeV1(s) + tail;
    assert data[1..] == PutCommon(s) + tail;
    CommonRoundTrip(s0, s, 1, tail);
  }

  // ----- a truncated record is rejected

  lemma BlockPrefix(data: seq<byte>, k: nat)
    requires GetBlock(data).Ok? && k <= |data|
    ensures k < GetBlock(data).value.size ==> GetBlock(data[..k]).Err?
    ensures k >= GetBlock(data).value.size ==> GetBlock(data[..k]) == GetBlock(data)
  {
    UvarintPrefix(data, 0, k);
    var n := GetUvarint(data, 0).value;
    if k >= n.size + n.value {
      assert data[..k][n.size..n.size + n.value] == data[n.size..n.size + n.value];
    }
  }

  lemma HashPrefix(s: Saved, b: seq<byte>, k: nat)
    requires |b| < MAX_UINT64 && k < |PutBlock(b)|
    ensures DecodeHash(s, PutBlock(b)[..k]).err.Some?
  {
    BlockRoundTrip(b, []);
    assert PutBlock(b) + [] == PutBlock(b);
    BlockPrefix(PutBlock(b), k);
  }

  lemma EtagPrefix(s0: Saved, etag: seq<byte>, hash: seq<byte>, k: nat)
    requires |etag| < MAX_UINT64 && |hash| < MAX_UINT64 && k < |PutBlock(etag) + PutBlock(hash)|
    ensures DecodeEtag(s0, 2, (PutBlock(etag) + PutBlock(hash))[..k]).err.Some?
  {
    var data, n := PutBlock(etag) + PutBlock(hash), |PutBlock(etag)|;
    BlockRoundTrip(etag, PutBlock(hash));
    BlockPrefix(data, k);
    if k >= n {
      CutFront(PutBlock(etag), PutBlock(hash), k);
      HashPrefix(s0.(lastEtag := etag), hash, k - n);
    }
  }

  lemma TimePrefix(s0: Saved, v: int, etag: seq<byte>, hash: seq<byte>, k: nat)
    requires IsInt64(v) && |etag| < MAX_UINT64 && |hash| < MAX_UINT64
    requires k < |PutInt64(v) + (PutBlock(etag) + PutBlock(hash))|
    ensures DecodeTime(s0, 2, (PutInt64(v) + (PutBlock(etag) + PutBlock(hash)))[..k]).err.Some?
  {
    var rest := PutBlock(etag) + PutBlock(hash);
    var data := PutInt64(v) + rest;
    Int64RoundTrip(v);
    if k >= 8 {
      CutFront(PutInt64(v), rest, k);
      EtagPrefix(s0.(lastUpdated := Time(GetInt64(data[..k][..8]), 0)), etag, hash, k - 8);
    }
  }

  /** The encoded record after its version and its content. */
  function AfterContent(s: Saved): seq<byte>
    requires InRange(s)
  {
    PutInt64(s.lastUpdated.seconds) + (PutBlock(s.lastEtag) + PutBlock(s.urlHash))
  }

  lemma Associative(a: seq<byte>, b: seq<byte>, c: seq<byte>)
    ensures a + b + c == a + (b + c)
  {}

  lemma EncodeParts(s: Saved)
    requires InRange(s)
    ensures Encode(s) == [2] + (PutBlock(s.content) + AfterContent(s))
  {
    var content, time, etag, hash := PutBlock(s.content), PutInt64(s.lastUpdated.seconds), PutBlock(s.lastEtag), PutBlock(s.urlHash);
    Associative(content, time + etag, hash);
    Associative(time, etag, hash);
  }

  lemma CutFront(front: seq<byte>, rest: seq<byte>, k: nat)
    requires |front| <= k <= |front + rest|
    ensures (front + rest)[..k][|front|..] == rest[..k - |front|]
  {}

  lemma ContentPrefix(s0: Saved, s: Saved, k: nat)
    requires InRange(s) && k < |PutBlock(s.content) + AfterContent(s)|
    ensures DecodeContent(s0, 2, (PutBlock(s.content) + AfterContent(s))[..k]).err.Some?
  {
    var content, rest := PutBlock(s.content), AfterContent(s);
    BlockRoundTrip(s.content, rest);
    BlockPrefix(content + rest, k);
    if k >= |content| {
      CutFront(content, rest, k);
      TimePrefix(s0.(content := s.content), s.lastUpdated.seconds, s.lastEtag, s.urlHash, k - |content|);
    }
  }

  lemma VersionPrefix(s0: Saved, data: seq<byte>, body: seq<byte>, k: nat)
    requires data == [2] + body && 0 < k <= |data|
    ensures Decode(s0, data[..k]) == DecodeContent(s0, 2, body[..k - 1])
  {
    var cut := data[..k];
    assert cut[0] == 2;
    CutFront([2], body, k);
  }

  /** Every strict prefix of an encoded record is rejected. */
  lemma PrefixRejected(s0: Saved, s: Saved, k: nat)
    requires InRange(s) && k < |Encode(s)|
    ensures Decode(s0, Encode(s)[..k]).err.Some?
  {
    if k > 0 {
      var body := PutBlock(s.content) + AfterContent(s);
      EncodeParts(s);
      VersionPrefix(s0, Encode(s), body, k);
      ContentPrefix(s0, s, k - 1);
    }
  }

  // ----- the methods

  class Record {
    var content: seq<byte>
    var lastUpdated: Time
    var lastEtag: seq<byte>
    var urlHash: seq<byte>

    function Abs(): Saved
      reads this
    {
      Saved(content, lastUpdated, lastEtag, urlHash)
    }

    constructor (s: Saved)
      ensures Abs() == s
    {
      content, lastUpdated, lastEtag, urlHash := s.content, s.lastUpdated, s.lastEtag, s.urlHash;
    }

    method MarshalBinary() returns (data: seq<byte>)
      requires InRange(Abs())
      ensures data == Encode(Abs())
    {
      data := [2];
      data := WriteUvarint(data, |content|);
      data := data + content;
      data := data + PutInt64(lastUpdated.seconds);
      data := WriteUvarint(data, |lastEtag|);
      data := data + lastEtag;
      data := WriteUvarint(data, |urlHash|);
      data := data + urlHash;
    }

    /** A length-prefixed field at `pos`. */
    static method ReadBlock(data: seq<byte>, pos: nat) returns (r: Result<Taken<seq<byte>>, Error>)
      requires pos <= |data|
      ensures r == GetBlock(data[pos..])
      ensures r.Ok? ==> pos + r.value.size <= |data|
    {
      var n := ReadUvarint(data, pos);
      if n.Err? { return Err(n.error); }
      var start := pos + n.value.size;
      if n.value.value > |data| - start { return Err(InvalidLength); }
      assert data[pos..][n.value.size..n.value.size + n.value.value] == data[start..start + n.value.value];
      r := Ok(Taken(data[start..start + n.value.value], n.value.size + n.value.value));
    }

    method UnmarshalBinary(data: seq<byte>) returns (err: Option<Error>)
      modifies this
      ensures Decoded(Abs(), err) == Decode(old(Abs()), data)
    {
      if data == [] { return Some(EndOfData); }
      ghost var result := Decode(Abs(), data);
      var version, pos := data[0], 1;
      var block := ReadBlock(data, pos);
      if block.Err? { return Some(block.error); }
      content := block.value.value;
      assert data[pos..][block.value.size..] == data[pos + block.value.size..];
      pos := pos + block.value.size;
      assert result == DecodeTime(Abs(), version, data[pos..]);
      var time := TakeInt64(data[pos..]);
      if time.Err? { return Some(time.error); }
      lastUpdated := Time(time.value.value, 0);
      assert data[pos..][8..] == data[pos + 8..];
      pos := pos + 8;
      assert result == DecodeEtag(Abs(), version, data[pos..]);
      block := ReadBlock(data, pos);
      if block.Err? { return Some(block.error); }
      lastEtag := block.value.value;
      if version < 2 { return None; }
      assert data[pos..][block.value.size..] == data[pos + block.value.size..];
      pos := pos + block.value.size;
      assert result == DecodeHash(Abs(), data[pos..]);
      block := ReadBlock(data, pos);
      if block.Err? { return Some(block.error); }
      urlHash := block.value.value;
      err := None;
    }
  }
}
