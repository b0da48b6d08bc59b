/** Length-prefixed frames. */
module LengthPrefix {
  // From codec/src/flow_codec.c. A shifted byte is combined with the bits below it by addition, and size_t has 64 bits.

  type Byte = x: int | 0 <= x < 256

  const SIZE_RANGE: nat := 0x1_0000_0000_0000_0000

  datatype Prefix = Prefix(size: nat, bigEndian: bool)

  predicate ValidPrefix(p: Prefix) {
    p.size == 4 || p.size == 8
  }

  datatype Result = Frame(body: seq<Byte>) | Malformed | TooBig | Unsupported

  function Pow256(n: nat): nat {
    if n == 0 then 1 else 256 * Pow256(n - 1)
  }

  // ----- numbers as bytes

  function Little(bytes: seq<Byte>): nat {
    if bytes == [] then 0 else bytes[0] + 256 * Little(bytes[1..])
  }

  function Big(bytes: seq<Byte>): nat {
    if bytes == [] then 0 else 256 * Big(bytes[..|bytes| - 1]) + bytes[|bytes| - 1]
  }

  function Load(p: Prefix, bytes: seq<Byte>): nat {
    if p.bigEndian then Big(bytes) else Little(bytes)
  }

  function PutLittle(n: nat, size: nat): (bytes: seq<Byte>)
    ensures |bytes| == size
  {
    if size == 0 then [] else [n % 256] + PutLittle(n / 256, size - 1)
  }

  function PutBig(n: nat, size: nat): (bytes: seq<Byte>)
    ensures |bytes| == size
  {
    if size == 0 then [] else PutBig(n / 256, size - 1) + [n % 256]
  }

  function Put(p: Prefix, n: nat): (bytes: seq<Byte>)
    ensures |bytes| == p.size
  {
    if p.bigEndian then PutBig(n, p.size) else PutLittle(n, p.size)
  }

  lemma {:induction false} LittleRoundTrip(bytes: seq<Byte>)
    ensures PutLittle(Little(bytes), |bytes|) == bytes && Little(bytes) < Pow256(|bytes|)
    decreases |bytes|
  {
    if bytes != [] {
      LittleRoundTrip(bytes[1..]);
      assert bytes == [bytes[0]] + bytes[1..];
    }
  }

  lemma {:induction false} BigRoundTrip(bytes: seq<Byte>)
    ensures PutBig(Big(bytes), |bytes|) == bytes && Big(bytes) < Pow256(|bytes|)
    decreases |bytes|
  {
    if bytes != [] {
      var n := |bytes| - 1;
      BigRoundTrip(bytes[..n]);
      assert bytes == bytes[..n] + [bytes[n]];
    }
  }

  lemma {:induction false} NumberRoundTrip(n: nat, size: nat)
    requires n < Pow256(size)
    ensures Little(PutLittle(n, size)) == n && Big(PutBig(n, size)) == n
    decreases size
  {
    if size > 0 {
      NumberRoundTrip(n / 256, size - 1);
      assert PutLittle(n, size)[1..] == PutLittle(n / 256, size - 1);
      assert PutBig(n, size)[..size - 1] == PutBig(n / 256, size - 1);
    }
  }

  lemma {:induction false} LittleMore(bytes: seq<Byte>, b: Byte)
    ensures Little(bytes + [b]) == Little(bytes) + b * Pow256(|bytes|)
    decreases |bytes|
  {
    if bytes != [] {
      LittleMore(bytes[1..], b);
      var power := Pow256(|bytes| - 1);
      assert b * (256 * power) == 256 * (b * power);
      assert (bytes + [b])[1..] == bytes[1..] + [b];
    }
  }

  method LoadLittle(data: seq<Byte>, n: nat) returns (value: nat)
    requires n <= |data|
    ensures value == Little(data[..n])
  {
    value := 0;
    for i := 0 to n
      invariant value == Little(data[..i])
    {
      LittleMore(data[..i], data[i]);
      assert data[..i + 1] == data[..i] + [data[i]];
      value := value + data[i] * Pow256(i);
    }
  }

  method LoadBig(data: seq<Byte>, n: nat) returns (value: nat)
    requires n <= |data|
    ensures value == Big(data[..n])
  {
    value := 0;
    for i := 0 to n
      invariant value == Big(data[..i])
    {
      assert data[..i + 1][..i] == data[..i];
      value := 256 * value + data[i];
    }
  }

  // ----- frames

  /** The result for a payload, by the number its prefix spells. */
  function Outcome(p: Prefix, max: nat, payload: seq<Byte>): Result {
    if |payload| < p.size then Malformed
    else
      var len := Load(p, payload[..p.size]);
      if 0 < max < len then TooBig
      else if |payload| == p.size + len then Frame(payload[p.size..])
      else if |payload| < p.size + len < SIZE_RANGE then Malformed
      else Unsupported
  }

  /** The sum of the prefix size and the length may wrap; that is never taken for a frame. */
  method TransformLength(p: Prefix, max: nat, payload: seq<Byte>) returns (r: Result)
    requires ValidPrefix(p) && |payload| < SIZE_RANGE
    ensures r == Outcome(p, max, payload)
  {
    hide Little, Big, Pow256;
    if |payload| < p.size {
      return Malformed;
    }
    var len;
    if p.bigEndian {
      len := LoadBig(payload, p.size);
    } else {
      len := LoadLittle(payload, p.size);
    }
    PrefixRange(p, payload[..p.size]);
    if max > 0 && len > max {
      return TooBig;
    }
    var total := (p.size + len) % SIZE_RANGE;
    if |payload| < total {
      return Malformed;
    }
    if |payload| > total {
      return Unsupported;
    }
    return Frame(payload[p.size..]);
  }

  /** The body behind its length. */
  ghost predicate IsFrame(p: Prefix, payload: seq<Byte>, body: seq<Byte>) {
    payload == Put(p, |body|) + body && |body| < Pow256(p.size)
  }

  /** A payload yields a body exactly if it is the frame of that body and the body is not too big. */
  lemma FramesExact(p: Prefix, max: nat, payload: seq<Byte>, body: seq<Byte>)
    ensures Outcome(p, max, payload) == Frame(body) <==> IsFrame(p, payload, body) && (max == 0 || |body| <= max)
  {
    if |payload| >= p.size {
      Framed(p, payload, body);
      hide IsFrame, Load;
    }
  }

  /** The byte of weight 256^i of a number is at `i`, or as far from the end. */
  lemma {:induction false} BytesInOrder(n: nat, size: nat, i: nat) returns (high: nat, low: nat)
    requires i < size
    ensures PutBig(n, size)[size - 1 - i] == PutLittle(n, size)[i]
    ensures low < Pow256(i) && n == (256 * high + PutLittle(n, size)[i]) * Pow256(i) + low
    decreases i
  {
    if i == 0 {
      high, low := n / 256, 0;
    } else {
      var low';
      high, low' := BytesInOrder(n / 256, size - 1, i - 1);
      low := 256 * low' + n % 256;
      Weigh(256 * high + PutLittle(n, size)[i], Pow256(i - 1));
    }
  }

  lemma Weigh(a: nat, k: nat)
    ensures 256 * (a * k) == a * (256 * k)
  {
  }

  /** The bytes of the prefix that stands for a length, in either order. */
  lemma PrefixBytes(p: Prefix, n: nat, i: nat) returns (high: nat, low: nat)
    requires i < p.size
    ensures var byte := Put(p, n)[if p.bigEndian then p.size - 1 - i else i];
            low < Pow256(i) && n == (256 * high + byte) * Pow256(i) + low
  {
    high, low := BytesInOrder(n, p.size, i);
  }

  /** A payload too short for its prefix is malformed; of the others, with the length `n` before `rest`, which are too big,
      malformed or unsupported. A length whose sum with the prefix wraps is unsupported. */
  lemma ErrorsExact(p: Prefix, max: nat, n: nat, rest: seq<Byte>)
    requires n < Pow256(p.size)
    ensures var r := Outcome(p, max, Put(p, n) + rest);
            && (r.TooBig? <==> max > 0 && n > max)
            && (r.Malformed? <==> (max == 0 || n <= max) && |rest| < n && p.size + n < SIZE_RANGE)
            && (r.Unsupported? <==> (max == 0 || n <= max) && (|rest| > n || (|rest| < n && p.size + n >= SIZE_RANGE)))
            && (r.Frame? <==> (max == 0 || n <= max) && |rest| == n) && (r.Frame? ==> r.body == rest)
  {
    hide Little, Big, PutLittle, PutBig, Pow256;
    var payload := Put(p, n) + rest;
    assert payload[..p.size] == Put(p, n) && payload[p.size..] == rest;
    PrefixSpells(p, n);
  }

  lemma PrefixSpells(p: Prefix, n: nat)
    requires n < Pow256(p.size)
    ensures Load(p, Put(p, n)) == n
  {
    NumberRoundTrip(n, p.size);
  }

  lemma ShortPayload(p: Prefix, max: nat, payload: seq<Byte>)
    requires |payload| < p.size
    ensures Outcome(p, max, payload) == Malformed
  {
  }

  lemma PrefixRange(p: Prefix, bytes: seq<Byte>)
    requires ValidPrefix(p) && |bytes| == p.size
    ensures Load(p, bytes) < Pow256(p.size) <= SIZE_RANGE
  {
    LittleRoundTrip(bytes);
    BigRoundTrip(bytes);
    assert Pow256(4) == 0x1_0000_0000 by { assert Pow256(2) == 65536; }
    assert Pow256(8) == SIZE_RANGE by { assert Pow256(6) == 65536 * Pow256(4); }
  }

  lemma Framed(p: Prefix, payload: seq<Byte>, body: seq<Byte>)
    requires |payload| >= p.size
    ensures IsFrame(p, payload, body) <==>
            body == payload[p.size..] && Load(p, payload[..p.size]) == |payload| - p.size
  {
    var prefix, rest := payload[..p.size], payload[p.size..];
    assert payload == prefix + rest;
    PutLoad(p, prefix);
    if |body| < Pow256(p.size) {
      NumberRoundTrip(|body|, p.size);
    }
    hide Little, Big, PutLittle, PutBig, Pow256;
    if IsFrame(p, payload, body) {
      assert prefix == Put(p, |body|);
    }
  }

  lemma PutLoad(p: Prefix, bytes: seq<Byte>)
    requires |bytes| == p.size
    ensures Put(p, Load(p, bytes)) == bytes && Load(p, bytes) < Pow256(p.size)
  {
    LittleRoundTrip(bytes);
    BigRoundTrip(bytes);
  }
}
