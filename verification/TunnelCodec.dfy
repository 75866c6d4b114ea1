/**
 The frames of the stream tunnel: connection ID and message type as base-128 varints, then data.
 Numbers are naturals below 2^64, bytes naturals below 256.
 */
module TunnelCodec {
  import opened Common

  newtype byte = x: int | 0 <= x < 256

  const MAX_VARINT_LEN: nat := 10
  const HEADER_SIZE: nat := 16
  const MAX_DATA: nat := 1048576          // MaxRespBodyLength, 1 MiB
  const LAST_MESSAGE_TYPE: nat := 6       // MessageTypeAttachConnect

  datatype Frame = Frame(connectId: nat, messageType: nat, data: seq<byte>)

  predicate FrameValid(f: Frame) {
    f.connectId < UINT64_LIMIT && f.messageType < UINT64_LIMIT
  }

  // ---------------------------------------------------------------- varints as sequences

  /** The base-128 varint of n: seven bits a byte, least significant first, high bit set on all but the last. */
  function Uvarint(n: nat): (s: seq<byte>)
    ensures |s| >= 1
  {
    if n < 128 then [n as byte] else [(n % 128 + 128) as byte] + Uvarint(n / 128)
  }

  function Pow128(k: nat): nat {
    if k == 0 then 1 else 128 * Pow128(k - 1)
  }

  lemma {:induction false} Pow128Positive(k: nat)
    ensures Pow128(k) >= 1
  {
    if k > 0 { Pow128Positive(k - 1); }
  }

  /** k bytes suffice exactly for the numbers below 128^k. */
  lemma {:induction false} UvarintLength(n: nat, k: nat)
    requires k >= 1
    ensures |Uvarint(n)| <= k <==> n < Pow128(k)
    decreases k
  {
    if k == 1 {
      assert Pow128(1) == 128 * Pow128(0);
    } else {
      Pow128Positive(k - 1);
      if n >= 128 {
        UvarintLength(n / 128, k - 1);
        assert n < 128 * Pow128(k - 1) <==> n / 128 < Pow128(k - 1);
      }
    }
  }

  /** The number whose base-128 digits, least significant first, are the low seven bits of the bytes. */
  function Worth(s: seq<byte>): nat {
    if s == [] then 0 else s[0] as int % 128 + 128 * Worth(s[1..])
  }

  /** The varint of n is worth n, and its last byte is the only one without the high bit. */
  lemma {:induction false} UvarintMeaning(n: nat)
    ensures Worth(Uvarint(n)) == n
    ensures forall i :: 0 <= i < |Uvarint(n)| ==> (Uvarint(n)[i] < 128 <==> i == |Uvarint(n)| - 1)
  {
    var s := Uvarint(n);
    if n < 128 {
      assert s[1..] == [] && Worth([]) == 0;
    } else {
      var rest := Uvarint(n / 128);
      assert s == [(n % 128 + 128) as byte] + rest && s[1..] == rest;
      UvarintMeaning(n / 128);
      forall i | 0 < i < |s| ensures s[i] == rest[i - 1] {}
    }
  }

  // ---------------------------------------------------------------- encoding into the buffer

  /** Writing the byte after a slice extends the slice. */
  lemma SliceGrows(before: seq<byte>, after: seq<byte>, from: nat, to: nat, b: byte)
    requires from <= to < |before| && after == before[to := b]
    ensures after[from..to + 1] == before[from..to] + [b]
  {
  }

  /** The bytes written so far and what is left of the number, after one more byte. */
  lemma UvarintGrows(x: nat, done: seq<byte>, rest: nat)
    requires Uvarint(x) == done + Uvarint(rest) && rest >= 128
    ensures Uvarint(x) == done + [(rest % 128 + 128) as byte] + Uvarint(rest / 128)
  {
    assert Uvarint(rest) == [(rest % 128 + 128) as byte] + Uvarint(rest / 128);
  }

  /** binary.PutUvarint(buf[offset:], x).  A buffer that is too small makes it panic: result None. */
  method PutUvarint(buf: array<byte>, offset: nat, x: nat) returns (n: Option<nat>)
    requires offset <= buf.Length
    modifies buf
    ensures n.Some? <==> offset + |Uvarint(x)| <= buf.Length
    ensures n.Some? ==> n.value == |Uvarint(x)| && buf[offset..offset + n.value] == Uvarint(x)
    ensures forall i :: 0 <= i < offset ==> buf[i] == old(buf[i])
  {
    var i, rest := 0, x;
    while rest >= 128
      invariant offset + i <= buf.Length
      invariant Uvarint(x) == buf[..][offset..offset + i] + Uvarint(rest)
      invariant forall j :: 0 <= j < offset ==> buf[j] == old(buf[j])
    {
      if offset + i >= buf.Length {
        return None;
      }
      ghost var before := buf[..];
      var b := (rest % 128 + 128) as byte;
      buf[offset + i] := b;
      SliceGrows(before, buf[..], offset, offset + i, b);
      UvarintGrows(x, before[offset..offset + i], rest);
      i, rest := i + 1, rest / 128;
    }
    if offset + i >= buf.Length {
      return None;
    }
    ghost var before := buf[..];
    buf[offset + i] := rest as byte;
    SliceGrows(before, buf[..], offset, offset + i, rest as byte);
    n := Some(i + 1);
  }

  function Header(f: Frame): seq<byte> {
    Uvarint(f.connectId) + Uvarint(f.messageType)
  }

  /** Message.Bytes: None is the panic when the header does not fit its 16-byte buffer. */
  method Bytes(f: Frame) returns (r: Option<seq<byte>>)
    ensures r.Some? <==> |Header(f)| <= 16
    ensures r.Some? ==> r.value == Header(f) + f.data
  {
    var buf := new byte[HEADER_SIZE](_ => 0);
    var n := PutUvarint(buf, 0, f.connectId);
    if n.None? {
      return None;
    }
    var offset := n.value;
    assert buf[..offset] == Uvarint(f.connectId);
    n := PutUvarint(buf, offset, f.messageType);
    if n.None? {
      return None;
    }
    assert buf[..offset] == Uvarint(f.connectId);
    assert buf[..offset + n.value] == buf[..offset] + buf[offset..offset + n.value];
    offset := offset + n.value;
    return Some(buf[..offset] + f.data);
  }

  /** For every 64-bit connection ID and defined message type the header takes at most 11 of the 16 bytes. */
  lemma HeaderFits(f: Frame)
    requires FrameValid(f) && f.messageType <= LAST_MESSAGE_TYPE
    ensures |Header(f)| <= 11
  {
    TenBytes();
    UvarintLength(f.connectId, MAX_VARINT_LEN);
  }

  lemma TenBytes()
    ensures UINT64_LIMIT == 2 * Pow128(9) <= Pow128(MAX_VARINT_LEN)
  {
    assert Pow128(1) == 128;
    assert Pow128(2) == 128 * Pow128(1);
    assert Pow128(3) == 128 * Pow128(2);
    assert Pow128(4) == 128 * Pow128(3);
    assert Pow128(5) == 128 * Pow128(4);
    assert Pow128(6) == 128 * Pow128(5);
    assert Pow128(7) == 128 * Pow128(6);
    assert Pow128(8) == 128 * Pow128(7);
    assert Pow128(9) == 128 * Pow128(8);
  }

  // ---------------------------------------------------------------- decoding

  datatype Error = EndOfInput | UnexpectedEnd | Overflow
  datatype Result<+T> = Ok(value: T) | Err(error: Error)

  /** binary.ReadUvarint: the number, and how many bytes were consumed. */
  method ReadUvarint(input: seq<byte>, start: nat) returns (r: Result<nat>, next: nat)
    requires start <= |input|
    ensures start <= next <= |input| && next <= start + MAX_VARINT_LEN
    ensures r == ReadSpec(input[start..], 0, 0, 1).0
    ensures r.Ok? ==> next == start + ReadSpec(input[start..], 0, 0, 1).1
  {
    var x: nat, scale: nat, i := 0, 1, 0;
    next := start;
    while i < MAX_VARINT_LEN
      invariant 0 <= i <= MAX_VARINT_LEN && next == start + i <= |input|
      invariant ReadSpec(input[start..], 0, 0, 1) == ReadSpec(input[start..], i, x, scale)
      decreases MAX_VARINT_LEN - i
    {
      if next >= |input| {
        return Err(if i > 0 then UnexpectedEnd else EndOfInput), next;
      }
      var b := input[next];
      assert input[start..][i] == b;
      next := next + 1;
      if b < 128 {
        if i == MAX_VARINT_LEN - 1 && b > 1 {
          return Err(Overflow), next;
        }
        return Ok(x + Digit(b, scale)), next;
      }
      x, scale, i := x + Digit(b, scale), scale * 128, i + 1;
    }
    r := Err(Overflow);
  }

  /** What the low seven bits of b are worth. */
  function Digit(b: byte, scale: nat): nat {
    (if b < 128 then b as int else b as int - 128) * scale
  }

  /** ReadUvarint after i bytes, with x read so far and the next digit worth scale. */
  function ReadSpec(s: seq<byte>, i: nat, x: nat, scale: nat): (Result<nat>, nat)
    requires i <= MAX_VARINT_LEN
    decreases MAX_VARINT_LEN - i
  {
    if i == MAX_VARINT_LEN then (Err(Overflow), i)
    else if i >= |s| then (Err(if i > 0 then UnexpectedEnd else EndOfInput), i)
    else if s[i] < 128 then
      if i == MAX_VARINT_LEN - 1 && s[i] > 1 then (Err(Overflow), i + 1)
      else (Ok(x + Digit(s[i], scale)), i + 1)
    else ReadSpec(s, i + 1, x + Digit(s[i], scale), scale * 128)
  }

  lemma WrittenRest(s: seq<byte>, i: nat, n: nat)
    requires n >= 128 && i <= |s| && Uvarint(n) <= s[i..]
    ensures i < |s| && s[i] as int == n % 128 + 128
    ensures Uvarint(n / 128) <= s[i + 1..] && |Uvarint(n)| == 1 + |Uvarint(n / 128)|
  {
    assert Uvarint(n) == [(n % 128 + 128) as byte] + Uvarint(n / 128);
    assert s[i + 1..] == s[i..][1..];
  }

  lemma ReadLast(s: seq<byte>, i: nat, x: nat, scale: nat, n: nat)
    requires n < 128 && i < MAX_VARINT_LEN && i <= |s| && Uvarint(n) <= s[i..]
    requires i == MAX_VARINT_LEN - 1 ==> n <= 1
    ensures ReadSpec(s, i, x, scale) == (Ok(x + n * scale), i + |Uvarint(n)|)
  {
    assert s[i] == Uvarint(n)[0];
  }

  lemma ReadMore(s: seq<byte>, i: nat, x: nat, scale: nat, n: nat)
    requires i < MAX_VARINT_LEN && i < |s| && s[i] as int == n % 128 + 128
    ensures ReadSpec(s, i, x, scale) == ReadSpec(s, i + 1, x + (n % 128) * scale, scale * 128)
  {
    assert Digit(s[i], scale) == (n % 128) * scale;
  }

  /** Reading undoes writing, whatever follows. */
  lemma {:induction false} ReadAfterWrite(s: seq<byte>, i: nat, x: nat, scale: nat, n: nat)
    requires i < MAX_VARINT_LEN && i <= |s| && Uvarint(n) <= s[i..]
    requires i == MAX_VARINT_LEN - 1 ==> n <= 1
    requires i < MAX_VARINT_LEN - 1 ==> n < 2 * Pow128(MAX_VARINT_LEN - 1 - i)
    ensures ReadSpec(s, i, x, scale) == (Ok(x + n * scale), i + |Uvarint(n)|)
    decreases MAX_VARINT_LEN - i
  {
    if n < 128 {
      ReadLast(s, i, x, scale, n);
    } else {
      var k := MAX_VARINT_LEN - 1 - i;
      assert Pow128(k) == 128 * Pow128(k - 1);
      assert k == 1 ==> Pow128(0) == 1;
      WrittenRest(s, i, n);
      ReadMore(s, i, x, scale, n);
      ReadAfterWrite(s, i + 1, x + (n % 128) * scale, scale * 128, n / 128);
      Recombine(n, x, scale);
    }
  }

  lemma ReadsBack(n: nat, rest: seq<byte>)
    requires n < UINT64_LIMIT
    ensures ReadSpec(Uvarint(n) + rest, 0, 0, 1) == (Ok(n), |Uvarint(n)|)
  {
    var s := Uvarint(n) + rest;
    assert s[0..] == s;
    TenBytes();
    ReadAfterWrite(s, 0, 0, 1, n);
  }

  lemma Recombine(n: nat, x: nat, scale: nat)
    ensures x + (n % 128) * scale + (n / 128) * (scale * 128) == x + n * scale
  {
    var q, r := n / 128, n % 128;
    assert n == q * 128 + r;
    calc {
      r * scale + q * (scale * 128);
      r * scale + (q * 128) * scale;
      (r + q * 128) * scale;
      n * scale;
    }
  }

  /** The first n bytes all say that more follow. */
  predicate Continued(s: seq<byte>, n: nat) {
    n <= |s| && forall j :: 0 <= j < n ==> s[j] >= 128
  }

  /** Where the reader stops, and why. */
  lemma {:induction false} ReadStops(s: seq<byte>, i: nat, x: nat, scale: nat)
    requires i <= MAX_VARINT_LEN && Continued(s, i)
    ensures var (r, k) := ReadSpec(s, i, x, scale);
            && (r.Ok? ==> i < k <= |s| && Continued(s, k - 1) && s[k - 1] < 128)
            && (r.Ok? ==> k <= 10 && (k == 10 ==> s[9] <= 1))
            && (r == Err(EndOfInput) <==> |s| == 0 == i)
            && (r == Err(UnexpectedEnd) <==> 0 < |s| < 10 && Continued(s, |s|))
    decreases MAX_VARINT_LEN - i
  {
    if i < MAX_VARINT_LEN && i < |s| && s[i] >= 128 {
      ReadStops(s, i + 1, x + Digit(s[i], scale), scale * 128);
    }
  }

  lemma WorthOfOne(b: byte, scale: nat)
    requires b < 128
    ensures Digit(b, scale) == scale * Worth([b])
  {
    assert [b][1..] == [] && Worth([]) == 0;
    assert Worth([b]) == b as int;
  }

  lemma WorthOfMore(s: seq<byte>, i: nat, k: nat)
    requires i < k <= |s|
    ensures Worth(s[i..k]) == s[i] as int % 128 + 128 * Worth(s[i + 1..k])
  {
    assert s[i..k][1..] == s[i + 1..k];
  }

  /** What the reader reads is what the bytes are worth. */
  lemma {:induction false} ReadsWorth(s: seq<byte>, i: nat, x: nat, scale: nat)
    requires i <= MAX_VARINT_LEN && Continued(s, i) && ReadSpec(s, i, x, scale).0.Ok?
    ensures var (r, k) := ReadSpec(s, i, x, scale);
            i < k <= |s| && r.value == x + scale * Worth(s[i..k])
    decreases MAX_VARINT_LEN - i
  {
    if s[i] < 128 {
      assert s[i..i + 1] == [s[i]];
      WorthOfOne(s[i], scale);
    } else {
      var (r, k) := ReadSpec(s, i + 1, x + Digit(s[i], scale), scale * 128);
      ReadsWorth(s, i + 1, x + Digit(s[i], scale), scale * 128);
      WorthOfMore(s, i, k);
      WorthStep(x, scale, s[i], Worth(s[i + 1..k]));
    }
  }

  lemma WorthStep(x: nat, scale: nat, b: byte, rest: nat)
    requires b >= 128
    ensures x + Digit(b, scale) + scale * 128 * rest == x + scale * (b as int % 128 + 128 * rest)
  {
    assert b as int % 128 == b as int - 128;
    assert scale * (b as int - 128 + 128 * rest) == scale * (b as int - 128) + scale * (128 * rest);
  }

  lemma {:induction false} WorthBound(s: seq<byte>)
    ensures Worth(s) < Pow128(|s|)
    ensures s != [] && s[|s| - 1] <= 1 ==> Worth(s) < 2 * Pow128(|s| - 1)
  {
    if |s| == 1 {
      assert s[1..] == [] && Worth([]) == 0 && Pow128(1) == 128 * Pow128(0);
    } else if s != [] {
      WorthBound(s[1..]);
      assert s[1..][|s| - 2] == s[|s| - 1];
      Pow128Positive(|s| - 1);
    }
  }

  lemma {:induction false} Pow128Grows(a: nat, b: nat)
    requires a <= b
    ensures Pow128(a) <= Pow128(b)
  {
    if a < b {
      Pow128Grows(a, b - 1);
      Pow128Positive(b - 1);
    }
  }

  /** Whatever the bytes: a number is read exactly if a last byte comes within ten and the number fits 64 bits,
      and then it is what the bytes up to there are worth; otherwise the error says whether input was missing. */
  lemma ReadIff(s: seq<byte>)
    ensures var (r, k) := ReadSpec(s, 0, 0, 1);
            && (r.Ok? <==> exists n :: 0 < n <= |s| && n <= 10 && Continued(s, n - 1) && s[n - 1] < 128 &&
                             Worth(s[..n]) < UINT64_LIMIT)
            && (r.Ok? ==> 0 < k <= |s| && Continued(s, k - 1) && s[k - 1] < 128 && r.value == Worth(s[..k]))
            && (r == Err(EndOfInput) <==> s == [])
            && (r == Err(UnexpectedEnd) <==> 0 < |s| < 10 && Continued(s, |s|))
  {
    var (r, k) := ReadSpec(s, 0, 0, 1);
    ReadStops(s, 0, 0, 1);
    TenBytes();
    if r.Ok? {
      ReadsWorth(s, 0, 0, 1);
      assert s[0..k] == s[..k];
      WorthBound(s[..k]);
      if k < 10 { Pow128Grows(k, 9); }
    } else if n :| 0 < n <= |s| && n <= 10 && Continued(s, n - 1) && s[n - 1] < 128 && Worth(s[..n]) < UINT64_LIMIT {
      ReadsUpTo(s, 0, 0, 1, n);
      if n == 10 { TenthByte(s); }
    }
  }

  /** Where the last byte is the n-th, nothing but a tenth byte above 1 stops the reader before or there. */
  lemma {:induction false} ReadsUpTo(s: seq<byte>, i: nat, x: nat, scale: nat, n: nat)
    requires i < n <= |s| && n <= 10 && Continued(s, n - 1) && s[n - 1] < 128
    ensures ReadSpec(s, i, x, scale).0.Ok? <==> n < 10 || s[9] <= 1
    decreases n - i
  {
    if i < n - 1 {
      ReadsUpTo(s, i + 1, x + Digit(s[i], scale), scale * 128, n);
    }
  }

  /** A tenth byte above 1 is worth 64 bits and more. */
  lemma TenthByte(s: seq<byte>)
    requires |s| >= 10 && s[9] < 128 && Worth(s[..10]) < UINT64_LIMIT
    ensures s[9] <= 1
  {
    TenBytes();
    WorthOfLast(s[..10]);
    var high := s[9] as int;
    if high >= 2 {
      assert high * Pow128(9) >= 2 * Pow128(9);
    }
  }

  lemma {:induction false} WorthOfLast(s: seq<byte>)
    requires s != [] && s[|s| - 1] < 128
    ensures Worth(s) >= s[|s| - 1] as int * Pow128(|s| - 1)
  {
    if |s| == 1 {
      assert s[1..] == [] && Worth([]) == 0;
    } else {
      WorthOfLast(s[1..]);
      var high, p := s[|s| - 1] as int, Pow128(|s| - 2);
      assert s[1..][|s| - 2] == s[|s| - 1];
      assert high * (128 * p) == 128 * (high * p);
    }
  }

  /** ReadMessageFromTunnel. */
  method ReadMessage(input: seq<byte>) returns (r: Result<Frame>)
    ensures r == Decode(input)
  {
    var connectId, afterId := ReadUvarint(input, 0);
    assert input[0..] == input;
    if connectId.Err? {
      return Err(connectId.error);
    }
    var messageType, afterType := ReadUvarint(input, afterId);
    if messageType.Err? {
      return Err(messageType.error);
    }
    var rest := input[afterType..];
    assert rest == input[afterId..][ReadSpec(input[afterId..], 0, 0, 1).1..];
    return Ok(Frame(connectId.value, messageType.value, if |rest| <= MAX_DATA then rest else rest[..MAX_DATA]));
  }

  function Decode(input: seq<byte>): Result<Frame> {
    var (id, used) := ReadSpec(input, 0, 0, 1);
    if id.Err? then Err(id.error)
    else if used > |input| then Err(UnexpectedEnd)
    else
      var (kind, more) := ReadSpec(input[used..], 0, 0, 1);
      if kind.Err? then Err(kind.error)
      else if used + more > |input| then Err(UnexpectedEnd)
      else
        var rest := input[used..][more..];
        Ok(Frame(id.value, kind.value, if |rest| <= MAX_DATA then rest else rest[..MAX_DATA]))
  }

  /** Decoding what was encoded gives back the ID, the type, and the first mebibyte of the data. */
  lemma RoundTrip(f: Frame)
    requires FrameValid(f)
    ensures Decode(Header(f) + f.data) ==
              Ok(f.(data := if |f.data| <= MAX_DATA then f.data else f.data[..MAX_DATA]))
  {
    var id, kind := Uvarint(f.connectId), Uvarint(f.messageType);
    var input := Header(f) + f.data;
    assert input == id + (kind + f.data);
    ReadsBack(f.connectId, kind + f.data);
    assert input[|id|..] == kind + f.data;
    ReadsBack(f.messageType, f.data);
    assert (kind + f.data)[|kind|..] == f.data;
  }

  /** The first varint of a frame is its connection ID, by which the tunnel tells connections apart; the second
      is its type. */
  lemma RoutedById(f: Frame)
    requires FrameValid(f)
    ensures var bytes, used := Header(f) + f.data, |Uvarint(f.connectId)|;
            && ReadSpec(bytes, 0, 0, 1) == (Ok(f.connectId), used) && used <= |bytes|
            && ReadSpec(bytes[used..], 0, 0, 1) == (Ok(f.messageType), |Uvarint(f.messageType)|)
  {
    var id, kind := Uvarint(f.connectId), Uvarint(f.messageType);
    assert Header(f) + f.data == id + (kind + f.data);
    ReadsBack(f.connectId, kind + f.data);
    assert (Header(f) + f.data)[|id|..] == kind + f.data;
    ReadsBack(f.messageType, f.data);
  }

  /** A frame survives the tunnel unchanged exactly when its data is no longer than a mebibyte. */
  lemma SurvivesIff(f: Frame)
    requires FrameValid(f)
    ensures Decode(Header(f) + f.data) == Ok(f) <==> |f.data| <= 1024 * 1024
  {
    RoundTrip(f);
  }

  /** One byte more is cut off. */
  lemma LongDataIsCut()
    ensures exists f :: FrameValid(f) && |f.data| == MAX_DATA + 1 && Decode(Header(f) + f.data) != Ok(f)
  {
    var f := Frame(1, 0, seq(MAX_DATA + 1, _ => 0));
    SurvivesIff(f);
  }

  /** Different frames with short data have different encodings. */
  lemma EncodingIsInjective(f: Frame, g: Frame)
    requires FrameValid(f) && FrameValid(g) && |f.data| <= MAX_DATA && |g.data| <= MAX_DATA
    requires Header(f) + f.data == Header(g) + g.data
    ensures f == g
  {
    RoundTrip(f);
    RoundTrip(g);
  }
}
