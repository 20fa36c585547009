/** The byte serializer under the RPC layer: fixed-width values and length-prefixed
    strings appended to a buffer and read back with a cursor, in either byte order. */
module Serializer {
  import opened RaftNode

  type Byte = b: int | 0 <= b < 256

  datatype ByteOrder = BIG_ENDIAN | LITTLE_ENDIAN

  /** A value of sizeof width with its unsigned bit pattern, or a string. */
  datatype Value = Fixed(width: nat, bits: nat) | Text(s: seq<Byte>)

  const TEXT_LIMIT := 0x1_0000

  function Power256(width: nat): (p: nat)
    ensures p > 0
  {
    if width == 0 then 1 else 256 * Power256(width - 1)
  }

  ghost predicate Fits(v: Value) {
    v.Fixed? ==> v.width > 0 && v.bits < Power256(v.width)
  }

  /** The bytes of a value in the host's memory. */
  function InMemory(width: nat, bits: nat): (bytes: seq<Byte>)
    ensures |bytes| == width
  {
    if width == 0 then [] else [bits % 256] + InMemory(width - 1, bits / 256)
  }

  function FromMemory(bytes: seq<Byte>): nat {
    if bytes == [] then 0 else bytes[0] + 256 * FromMemory(bytes[1..])
  }

  lemma {:induction false} MemoryRoundTrip(width: nat, bits: nat)
    requires bits < Power256(width)
    ensures FromMemory(InMemory(width, bits)) == bits
  {
    if width > 0 {
      MemoryRoundTrip(width - 1, bits / 256);
      assert InMemory(width, bits)[1..] == InMemory(width - 1, bits / 256);
    }
  }

  function Reverse<T>(s: seq<T>): (r: seq<T>)
    ensures |r| == |s| && forall i :: 0 <= i < |s| ==> r[i] == s[|s| - 1 - i]
  {
    seq(|s|, i requires 0 <= i < |s| => s[|s| - 1 - i])
  }

  lemma ReverseTwice<T>(s: seq<T>)
    ensures Reverse(Reverse(s)) == s
  {}

  /** byte_orser: the in-place reversal on a big-endian stream. */
  function Ordered(order: ByteOrder, bytes: seq<Byte>): (r: seq<Byte>)
    ensures |r| == |bytes|
  {
    if order == BIG_ENDIAN then Reverse(bytes) else bytes
  }

  lemma OrderedTwice(order: ByteOrder, bytes: seq<Byte>)
    ensures Ordered(order, Ordered(order, bytes)) == bytes
  {
    ReverseTwice(bytes);
  }

  /** A uint16_t in the host's memory. */
  function Mark(len: nat): (bytes: seq<Byte>)
    requires len < TEXT_LIMIT
    ensures |bytes| == 2
  {
    [len % 256, len / 256]
  }

  function FromMark(bytes: seq<Byte>): (len: nat)
    requires |bytes| == 2
    ensures len < TEXT_LIMIT
  {
    var low: int, high: int := bytes[0], bytes[1];
    low + 256 * high
  }

  /** What the stream keeps of a value: the length prefix has 16 bits. */
  function Stored(v: Value): Value {
    match v
    case Fixed(_, _) => v
    case Text(s) => Text(s[..|s| % TEXT_LIMIT])
  }

  /** The bytes a value occupies in the stream. */
  function Encode(order: ByteOrder, v: Value): (bytes: seq<Byte>)
    requires v.Fixed? ==> v.width > 0
    ensures bytes != []
  {
    match v
    case Fixed(width, bits) => Ordered(order, InMemory(width, bits))
    case Text(s) =>
      var len := |s| % TEXT_LIMIT;
      Ordered(order, Mark(len)) + s[..len]
  }

  function Concat(chunks: seq<seq<Byte>>): seq<Byte> {
    if chunks == [] then [] else chunks[0] + Concat(chunks[1..])
  }

  lemma {:induction false} ConcatAppend(chunks: seq<seq<Byte>>, last: seq<Byte>)
    ensures Concat(chunks + [last]) == Concat(chunks) + last
  {
    if chunks == [] {
      assert [] + [last] == [last] && [last][1..] == [];
      assert last + [] == last && [] + last == last;
    } else {
      assert (chunks + [last])[1..] == chunks[1..] + [last];
      ConcatAppend(chunks[1..], last);
      Regroup(chunks[0], Concat(chunks[1..]), last);
    }
  }

  lemma Regroup(a: seq<Byte>, b: seq<Byte>, c: seq<Byte>)
    ensures a + (b + c) == (a + b) + c
  {}

  /** bytes is what the stream holds of a value that it can give back. */
  ghost predicate Holds(order: ByteOrder, v: Value, bytes: seq<Byte>) {
    Fits(v) && Stored(v) == v && bytes == Encode(order, v)
  }

  lemma SmallMultiple(d: int, x: int)
    requires d > 0 && -d < d * x < d
    ensures x == 0
  {}

  lemma SameQuotient(d: int, q: int, r: int, q': int, r': int)
    requires 0 <= r < d && 0 <= r' < d && d * q + r == d * q' + r'
    ensures q == q'
  {
    assert d * (q - q') == d * q - d * q';
    SmallMultiple(d, q - q');
  }

  lemma Quotient(n: nat, d: nat, q: nat, r: nat)
    requires 0 < d && r < d && n == d * q + r
    ensures n / d == q
  {
    SameQuotient(d, n / d, n % d, q, r);
  }

  lemma Substituted(n: int, a: int, b: int, m: int, q: int, r: int, s: int)
    requires n == a * m + s && m == b * q + r
    ensures n == a * b * q + (a * r + s)
  {
    assert a * (b * q + r) == a * (b * q) + a * r == a * b * q + a * r;
  }

  lemma RestIsSmall(a: int, b: int, r: int, s: int)
    requires 0 <= r < b && 0 <= s < a
    ensures 0 <= a * r + s < a * b
  {
    assert a * (b - 1 - r) >= 0;
    assert a * (b - 1 - r) == a * b - a - a * r;
  }

  lemma QuotientTwice(n: nat, a: nat, b: nat)
    requires a > 0 && b > 0
    ensures a * b > 0 && n / a / b == n / (a * b)
  {
    var q, r, s := n / a / b, n / a % b, n % a;
    Substituted(n, a, b, n / a, q, r, s);
    RestIsSmall(a, b, r, s);
    Quotient(n, a * b, q, a * r + s);
  }

  lemma {:induction false} MemoryAt(width: nat, bits: nat, k: nat)
    requires k < width
    ensures InMemory(width, bits)[k] == bits / Power256(k) % 256
    decreases k
  {
    if k > 0 {
      MemoryAt(width - 1, bits / 256, k - 1);
      QuotientTwice(bits, 256, Power256(k - 1));
    }
  }

  /** A number's byte of weight 256 to the k-th stands at position k of a little-endian
      stream and as far from the end of a big-endian one. */
  lemma ByteAt(order: ByteOrder, width: nat, bits: nat, k: nat)
    requires k < width
    ensures Encode(order, Fixed(width, bits))[if order == BIG_ENDIAN then width - 1 - k else k] ==
      bits / Power256(k) % 256
  {
    MemoryAt(width, bits, k);
  }

  lemma EncodeStored(order: ByteOrder, v: Value)
    requires v.Fixed? ==> v.width > 0
    ensures Encode(order, Stored(v)) == Encode(order, v)
  {
    if v.Text? {
      var len := |v.s| % TEXT_LIMIT;
      assert v.s[..len][..len] == v.s[..len];
    }
  }

  // ----- the length prefix in big-endian order -----

  /** How many characters a string write copies. The code reverses the length in place
      before it uses it, so on a big-endian stream this is the length with its two bytes
      exchanged. */
  function CopyCount(order: ByteOrder, s: seq<Byte>): nat {
    FromMark(Ordered(order, Mark(|s| % TEXT_LIMIT)))
  }

  /** What a string write appends; beyond is the memory behind the string, which the copy
      runs into when the exchanged length is larger than the string. */
  function Written(order: ByteOrder, s: seq<Byte>, beyond: seq<Byte>): (bytes: seq<Byte>)
    requires CopyCount(order, s) <= |s| + |beyond|
    ensures |bytes| == 2 + CopyCount(order, s)
  {
    Ordered(order, Mark(|s| % TEXT_LIMIT)) + (s + beyond)[..CopyCount(order, s)]
  }

  /** The copied length is the announced one. */
  predicate Framed(order: ByteOrder, s: seq<Byte>) {
    CopyCount(order, s) == |s| % TEXT_LIMIT
  }

  lemma ExchangedBytes(len: nat)
    requires len < TEXT_LIMIT
    ensures FromMark(Mark(len)) == len
    ensures FromMark(Reverse(Mark(len))) == len / 256 + 256 * (len % 256)
  {}

  /** The lengths agree always on a little-endian stream, and on a big-endian one exactly
      when the two bytes of the length are equal. */
  lemma FramedIff(order: ByteOrder, s: seq<Byte>)
    ensures var len := |s| % TEXT_LIMIT;
      Framed(order, s) <==> order == LITTLE_ENDIAN || len % 256 == len / 256
  {
    ExchangedBytes(|s| % TEXT_LIMIT);
  }

  /** A string comes back whole and leaves the reader at the end of what was written
      exactly when it is shorter than 65536 bytes and, on a big-endian stream, the two
      bytes of its length are equal. */
  lemma TextSurvivesIff(order: ByteOrder, s: seq<Byte>, beyond: seq<Byte>)
    requires CopyCount(order, s) <= |s| + |beyond|
    ensures var bytes := Written(order, s, beyond);
      var len := FromMark(Ordered(order, bytes[..2]));
      |bytes| == 2 + len && bytes[2..] == s <==>
        |s| < TEXT_LIMIT && (order == LITTLE_ENDIAN || |s| % 256 == |s| / 256)
  {
    var len := |s| % TEXT_LIMIT;
    var head := Ordered(order, Mark(len));
    OrderedTwice(order, Mark(len));
    ExchangedBytes(len);
    FramedIff(order, s);
    assert Written(order, s, beyond)[..2] == head;
    assert Written(order, s, beyond)[2..] == (s + beyond)[..CopyCount(order, s)];
    assert |s| < TEXT_LIMIT ==> (s + beyond)[..|s|] == s;
  }

  /** One letter on a big-endian stream: one byte is announced, 256 are copied. */
  lemma OneLetterCopies256()
    ensures CopyCount(BIG_ENDIAN, [97]) == 256
  {
    ExchangedBytes(1);
  }

  lemma WrittenIsEncoded(order: ByteOrder, s: seq<Byte>, beyond: seq<Byte>)
    requires Framed(order, s)
    ensures CopyCount(order, s) <= |s| + |beyond| && Written(order, s, beyond) == Encode(order, Text(s))
  {
    assert (s + beyond)[..|s| % TEXT_LIMIT] == s[..|s| % TEXT_LIMIT];
  }

  lemma HeadHoldsLength(order: ByteOrder, len: nat)
    requires len < TEXT_LIMIT
    ensures FromMark(Ordered(order, Ordered(order, Mark(len)))) == len
  {
    OrderedTwice(order, Mark(len));
  }

  /** The parts of a stored string. */
  lemma TextParts(order: ByteOrder, v: Value, bytes: seq<Byte>)
    requires v.Text? && Holds(order, v, bytes)
    ensures |bytes| == 2 + |v.s| && FromMark(Ordered(order, bytes[..2])) == |v.s| && bytes[2..] == v.s
  {
    StoredIff(v);
    assert v.s[..|v.s|] == v.s;
    HeadHoldsLength(order, |v.s|);
    assert bytes[..2] == Ordered(order, Mark(|v.s|));
  }

  /** Where the reader finds the first chunk, and its parts. */
  lemma ChunkAt(buf: seq<Byte>, pos: nat, chunk: seq<Byte>, rest: seq<Byte>, k: nat)
    requires pos <= |buf| && buf[pos..] == chunk + rest && k <= |chunk|
    ensures pos + |chunk| <= |buf| && buf[pos + |chunk|..] == rest
    ensures buf[pos..pos + k] == chunk[..k] && buf[pos + k..pos + |chunk|] == chunk[k..]
  {
    assert buf[pos..][..|chunk|] == chunk && buf[pos..][|chunk|..] == rest;
    assert buf[pos..][..k] == chunk[..k];
    assert buf[pos..][k..|chunk|] == chunk[k..];
  }

  lemma WholeChunkAt(buf: seq<Byte>, pos: nat, chunk: seq<Byte>, rest: seq<Byte>)
    requires pos <= |buf| && buf[pos..] == chunk + rest
    ensures pos + |chunk| <= |buf| && buf[pos..pos + |chunk|] == chunk
  {
    ChunkAt(buf, pos, chunk, rest, |chunk|);
    assert chunk[..|chunk|] == chunk;
  }

  lemma FixedParts(order: ByteOrder, v: Value, bytes: seq<Byte>)
    requires v.Fixed? && Holds(order, v, bytes)
    ensures |bytes| == v.width && FromMemory(Ordered(order, bytes)) == v.bits
  {
    OrderedTwice(order, InMemory(v.width, v.bits));
    MemoryRoundTrip(v.width, v.bits);
  }

  /** What a reader of a string finds. */
  lemma TextAt(order: ByteOrder, v: Value, buf: seq<Byte>, pos: nat, chunk: seq<Byte>, rest: seq<Byte>)
    requires v.Text? && Holds(order, v, chunk) && pos <= |buf| && buf[pos..] == chunk + rest
    ensures var at, len := pos + 2, |v.s|;
      && |chunk| == 2 + len && at + len <= |buf|
      && FromMark(Ordered(order, buf[pos..at])) == len && buf[at..at + len] == v.s
  {
    TextParts(order, v, chunk);
    ChunkAt(buf, pos, chunk, rest, 2);
  }

  /** A stored value survives iff it is not a string of 65536 bytes or more. */
  lemma StoredIff(v: Value)
    ensures Stored(v) == v <==> (v.Text? ==> |v.s| < TEXT_LIMIT)
  {
    if v.Text? && |v.s| >= TEXT_LIMIT { assert |Stored(v).s| < TEXT_LIMIT; }
  }

  /** Every value occupies some bytes, so the end of the stream is the end of the queue. */
  lemma AtEndIff(order: ByteOrder, queue: seq<Value>, chunks: seq<seq<Byte>>, buf: seq<Byte>, pos: nat)
    requires |chunks| == |queue| && forall i :: 0 <= i < |queue| ==> Holds(order, queue[i], chunks[i])
    requires pos <= |buf| && buf[pos..] == Concat(chunks)
    ensures pos == |buf| <==> queue == []
  {
    if queue != [] { assert Holds(order, queue[0], chunks[0]); }
    assert |buf[pos..]| == |buf| - pos;
  }

  /** A serializer with the queue of values that were written and not yet read. */
  class Stream {
    const order: ByteOrder
    var buf: seq<Byte>
    var pos: nat
    ghost var queue: seq<Value>
    ghost var chunks: seq<seq<Byte>>

    ghost predicate Valid()
      reads this
    {
      && pos <= |buf| && |chunks| == |queue|
      && (forall i :: 0 <= i < |queue| ==> Holds(order, queue[i], chunks[i]))
      && buf[pos..] == Concat(chunks)
    }

    constructor (order: ByteOrder)
      ensures Valid() && queue == [] && buf == [] && pos == 0 && this.order == order
    {
      this.order := order;
      buf, pos, queue, chunks := [], 0, [], [];
    }

    /** StreamBuffer.input, recorded as one written value. */
    method Input(bytes: seq<Byte>, ghost v: Value)
      requires Valid() && Holds(order, v, bytes)
      modifies this
      ensures Valid() && queue == old(queue) + [v] && buf == old(buf) + bytes && pos == old(pos)
    {
      ConcatAppend(chunks, bytes);
      assert (buf + bytes)[pos..] == buf[pos..] + bytes;
      buf := buf + bytes;
      queue, chunks := queue + [v], chunks + [bytes];
    }

    /** input_type for fixed-width values. */
    method WriteFixed(width: nat, bits: nat)
      requires Valid() && width > 0 && bits < Power256(width)
      modifies this
      ensures Valid() && queue == old(queue) + [Fixed(width, bits)] && pos == old(pos)
    {
      Input(Ordered(order, InMemory(width, bits)), Fixed(width, bits));
    }

    /** input_type for strings: the length is cut to 16 bits, put in stream order, and
        then used as the number of characters to copy. */
    method WriteText(s: seq<Byte>, beyond: seq<Byte>)
      requires Valid() && CopyCount(order, s) <= |s| + |beyond|
      modifies this
      ensures buf == old(buf) + Written(order, s, beyond) && pos == old(pos)
      ensures Framed(order, s) ==> Valid() && queue == old(queue) + [Stored(Text(s))]
    {
      var mark := Ordered(order, Mark(|s| % TEXT_LIMIT));
      var len := FromMark(mark);
      if Framed(order, s) {
        EncodeStored(order, Text(s));
        WrittenIsEncoded(order, s, beyond);
        StoredIff(Stored(Text(s)));
        Input(mark + (s + beyond)[..len], Stored(Text(s)));
      } else {
        buf := buf + (mark + (s + beyond)[..len]);
      }
    }

    /** Reading moves the cursor past the first queued value. */
    method Skip(k: nat)
      requires Valid() && queue != [] && k == |chunks[0]|
      modifies this`pos, this`queue, this`chunks
      ensures Valid() && queue == old(queue)[1..] && pos == old(pos) + k
    {
      ChunkAt(buf, pos, chunks[0], Concat(chunks[1..]), 0);
      pos := pos + k;
      queue, chunks := queue[1..], chunks[1..];
    }

    /** output_type for fixed-width values; at the end of the stream the target keeps
        its value. */
    method ReadFixed(width: nat, target: nat) returns (bits: nat)
      requires Valid() && (queue != [] ==> queue[0].Fixed? && queue[0].width == width)
      modifies this
      ensures Valid() && buf == old(buf)
      ensures old(queue) == [] ==> bits == target && queue == [] && pos == old(pos)
      ensures old(queue) != [] ==> bits == old(queue)[0].bits && queue == old(queue)[1..]
    {
      bits := target;
      AtEndIff(order, queue, chunks, buf, pos);
      if pos < |buf| {
        FixedParts(order, queue[0], chunks[0]);
        WholeChunkAt(buf, pos, chunks[0], Concat(chunks[1..]));
        var bytes := buf[pos..pos + width];
        assert bytes == chunks[0];
        bits := FromMemory(Ordered(order, bytes));
        Skip(width);
      }
    }

    /** output_type for strings: the text is inserted before what the target holds. */
    method ReadText(target: seq<Byte>) returns (s: seq<Byte>)
      requires Valid() && queue != [] && queue[0].Text?
      modifies this
      ensures Valid() && buf == old(buf)
      ensures s == old(queue)[0].s + target && queue == old(queue)[1..]
    {
      TextAt(order, queue[0], buf, pos, chunks[0], Concat(chunks[1..]));
      var len := FromMark(Ordered(order, buf[pos..pos + 2]));
      s := target;
      if len != 0 { s := buf[pos + 2..pos + 2 + len] + target; }
      Skip(2 + len);
    }
  }

  // ----- whole sequences -----

  datatype Shape = FixedShape(width: nat) | TextShape

  function ShapeOf(v: Value): Shape {
    match v
    case Fixed(width, _) => FixedShape(width)
    case Text(_) => TextShape
  }

  ghost predicate AllFit(vs: seq<Value>) {
    forall i :: 0 <= i < |vs| ==> Fits(vs[i])
  }

  ghost predicate AllShort(vs: seq<Value>) {
    forall i :: 0 <= i < |vs| && vs[i].Text? ==> |vs[i].s| < TEXT_LIMIT
  }

  ghost predicate AllFramed(order: ByteOrder, vs: seq<Value>) {
    forall i :: 0 <= i < |vs| && vs[i].Text? ==> Framed(order, vs[i].s)
  }

  function StoredAll(vs: seq<Value>): (r: seq<Value>)
    ensures |r| == |vs| && forall i :: 0 <= i < |vs| ==> r[i] == Stored(vs[i])
  {
    seq(|vs|, i requires 0 <= i < |vs| => Stored(vs[i]))
  }

  lemma StoredAllIff(vs: seq<Value>)
    ensures StoredAll(vs) == vs <==> AllShort(vs)
  {
    forall i | 0 <= i < |vs| ensures Stored(vs[i]) == vs[i] <==> (vs[i].Text? ==> |vs[i].s| < TEXT_LIMIT) {
      StoredIff(vs[i]);
    }
  }

  lemma StoredOneMore(vs: seq<Value>, i: nat)
    requires i < |vs|
    ensures StoredAll(vs)[..i + 1] == StoredAll(vs)[..i] + [Stored(vs[i])]
  {}

  method WriteAll(stream: Stream, vs: seq<Value>)
    requires stream.Valid() && AllFit(vs) && AllFramed(stream.order, vs)
    modifies stream
    ensures stream.Valid() && stream.queue == old(stream.queue) + StoredAll(vs)
  {
    for i := 0 to |vs|
      invariant stream.Valid() && stream.queue == old(stream.queue) + StoredAll(vs)[..i]
    {
      WriteOne(stream, vs[i]);
      StoredOneMore(vs, i);
    }
    assert StoredAll(vs)[..|vs|] == StoredAll(vs);
  }

  ghost predicate HasShapes(queue: seq<Value>, shapes: seq<Shape>) {
    |queue| == |shapes| && forall i :: 0 <= i < |shapes| ==> shapes[i] == ShapeOf(queue[i])
  }

  method ReadOne(stream: Stream, shape: Shape) returns (v: Value)
    requires stream.Valid() && stream.queue != [] && shape == ShapeOf(stream.queue[0])
    modifies stream
    ensures stream.Valid() && v == old(stream.queue)[0] && stream.queue == old(stream.queue)[1..]
  {
    match shape {
      case FixedShape(width) =>
        var bits := stream.ReadFixed(width, 0);
        v := Fixed(width, bits);
      case TextShape =>
        var s := stream.ReadText([]);
        v := Text(s);
        assert old(stream.queue)[0].s + [] == old(stream.queue)[0].s;
    }
  }

  method WriteOne(stream: Stream, v: Value)
    requires stream.Valid() && Fits(v) && (v.Text? ==> Framed(stream.order, v.s))
    modifies stream
    ensures stream.Valid() && stream.queue == old(stream.queue) + [Stored(v)]
  {
    match v
    case Fixed(width, bits) => stream.WriteFixed(width, bits);
    case Text(s) => stream.WriteText(s, []);
  }

  /** Reading one value of each shape, every time into an empty target. */
  method ReadAll(stream: Stream, shapes: seq<Shape>) returns (rs: seq<Value>)
    requires stream.Valid() && HasShapes(stream.queue, shapes)
    modifies stream
    ensures stream.Valid() && stream.queue == [] && rs == old(stream.queue)
  {
    rs := [];
    ghost var all := stream.queue;
    for i := 0 to |shapes|
      invariant stream.Valid() && rs == all[..i] && stream.queue == all[i..]
    {
      var v := ReadOne(stream, shapes[i]);
      Advance(all, i);
      rs := rs + [v];
    }
  }

  lemma Advance(all: seq<Value>, i: nat)
    requires i < |all|
    ensures all[i..] == [all[i]] + all[i + 1..] && all[i..][1..] == all[i + 1..] && all[..i + 1] == all[..i] + [all[i]]
  {}

  /** Writing any values to a fresh stream and reading the same types back yields what
      the stream stores of them, in order, and ends at the end of the buffer; the values
      themselves come back exactly when every string is shorter than 65536 bytes. A
      big-endian stream meets this for framed strings only (TextSurvivesIff). */
  method WriteThenRead(order: ByteOrder, vs: seq<Value>) returns (rs: seq<Value>, atEnd: bool)
    requires AllFit(vs) && AllFramed(order, vs)
    ensures rs == StoredAll(vs) && atEnd
    ensures rs == vs <==> AllShort(vs)
  {
    var stream := new Stream(order);
    WriteAll(stream, vs);
    assert [] + StoredAll(vs) == StoredAll(vs);
    rs := ReadAll(stream, seq(|vs|, i requires 0 <= i < |vs| => ShapeOf(vs[i])));
    atEnd := stream.pos == |stream.buf|;
    assert stream.buf[stream.pos..] == Concat([]);
    StoredAllIff(vs);
  }

  // ----- AppendEntriesArgs -----

  const INT_LIMIT := 0x8000_0000

  ghost predicate IsInt32(x: int) { -INT_LIMIT <= x < INT_LIMIT }

  function Int32Bits(x: int): (bits: nat)
    requires IsInt32(x)
    ensures bits < 2 * INT_LIMIT
  {
    if x < 0 then x + 2 * INT_LIMIT else x
  }

  function FromInt32Bits(bits: nat): int {
    if bits < INT_LIMIT then bits else bits - 2 * INT_LIMIT
  }

  ghost predicate ByteString(s: string) { forall i :: 0 <= i < |s| ==> s[i] as int < 256 }

  function Bytes(s: string): (r: seq<Byte>)
    requires ByteString(s)
    ensures |r| == |s| && forall i :: 0 <= i < |s| ==> r[i] == s[i] as int
  {
    seq(|s|, i requires 0 <= i < |s| => s[i] as int as Byte)
  }

  function Chars(bytes: seq<Byte>): (s: string)
    ensures |s| == |bytes| && forall i :: 0 <= i < |bytes| ==> s[i] as int == bytes[i]
  {
    seq(|bytes|, i requires 0 <= i < |bytes| => bytes[i] as char)
  }

  ghost predicate Sendable(a: WireArgs) {
    && IsInt32(a.term) && IsInt32(a.leaderId) && IsInt32(a.prevLogIndex) && IsInt32(a.prevLogTerm)
    && IsInt32(a.leaderCommit) && ByteString(a.sendLogs)
  }

  function ArgsValues(a: WireArgs): (vs: seq<Value>)
    requires Sendable(a)
    ensures AllFit(vs) && |vs| == 6
  {
    assert Power256(4) == 256 * Power256(3) && Power256(2) == 256 * Power256(1);
    assert Power256(4) == 2 * INT_LIMIT;
    [Fixed(4, Int32Bits(a.term)), Fixed(4, Int32Bits(a.leaderId)), Fixed(4, Int32Bits(a.prevLogIndex)),
     Fixed(4, Int32Bits(a.prevLogTerm)), Fixed(4, Int32Bits(a.leaderCommit)), Text(Bytes(a.sendLogs))]
  }

  function ValuesArgs(vs: seq<Value>): WireArgs
    requires |vs| == 6 && vs[5].Text? && forall i :: 0 <= i < 5 ==> vs[i].Fixed?
  {
    WireArgs(FromInt32Bits(vs[0].bits), FromInt32Bits(vs[1].bits), FromInt32Bits(vs[2].bits),
             FromInt32Bits(vs[3].bits), FromInt32Bits(vs[4].bits), Chars(vs[5].s))
  }

  /** An append request, on the little-endian stream every RPC uses, arrives as it was sent
      exactly when its log text is shorter than 65536 bytes; a longer one loses text but
      none of the other fields. */
  method SendArgs(a: WireArgs) returns (b: WireArgs)
    requires Sendable(a)
    ensures b == a <==> |a.sendLogs| < TEXT_LIMIT
    ensures b == a.(sendLogs := a.sendLogs[..|a.sendLogs| % TEXT_LIMIT])
  {
    FramedIff(LITTLE_ENDIAN, Bytes(a.sendLogs));
    var rs, _ := WriteThenRead(LITTLE_ENDIAN, ArgsValues(a));
    b := ValuesArgs(rs);
    ghost var kept := |a.sendLogs| % TEXT_LIMIT;
    assert rs[5] == Text(Bytes(a.sendLogs)[..kept]);
    assert b.sendLogs == a.sendLogs[..kept];
    assert |a.sendLogs| < TEXT_LIMIT ==> a.sendLogs[..kept] == a.sendLogs;
  }
}
