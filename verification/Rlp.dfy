/**
 Recursive Length Prefix encoding (Appendix B of the Ethereum Yellow Paper): the
 encoder that builds byte strings, and the decoder that walks over memory with
 nothing but a pointer.
 */
module Rlp {
  import opened Bytes
  import opened EvmMemory

  const STRING_SHORT: nat := 0x80
  const STRING_LONG: nat := 0xb8
  const LIST_SHORT: nat := 0xc0
  const LIST_LONG: nat := 0xf8

  // ---- The encoder.  None is a revert. ----

  /** The prefix for a payload of the given length. */
  function EncodeLength(length: nat, offset: nat): (r: Option<bytes>)
    requires offset == STRING_SHORT || offset == LIST_SHORT
  {
    if length >= TWO64 then None
    else if length <= 55 then Some([length + offset])
    else
      ShortLength(length);
      Some([|Minimal(length)| + offset + 55] + Minimal(length))
  }

  function EncodeBytes(s: bytes): (r: Option<bytes>) {
    if |s| == 1 && s[0] <= 0x7f then Some(s)
    else
      match EncodeLength(|s|, STRING_SHORT)
      case None => None
      case Some(p) => Some(p + s)
  }

  function Concat(es: seq<bytes>): (r: bytes) {
    if es == [] then [] else es[0] + Concat(es[1..])
  }

  function EncodeList(es: seq<bytes>): (r: Option<bytes>) {
    match EncodeLength(|Concat(es)|, LIST_SHORT)
    case None => None
    case Some(p) => Some(p + Concat(es))
  }

  function EncodeUint(x: uint256): (r: Option<bytes>) {
    EncodeBytes(Minimal(x))
  }

  function EncodeAddress(a: Address): (r: Option<bytes>) {
    EncodeBytes(BigEndian(a, ADDRESS_LEN))
  }

  /** What can be encoded: byte strings and lists of such things, nested to any depth. */
  datatype Item = Str(data: bytes) | Lst(items: seq<Item>)

  function Encode(i: Item): (r: Option<bytes>)
    decreases i, 1
  {
    match i
    case Str(s) => EncodeBytes(s)
    case Lst(xs) =>
      match EncodeAll(xs)
      case None => None
      case Some(es) => EncodeList(es)
  }

  function EncodeAll(xs: seq<Item>): (r: Option<seq<bytes>>)
    decreases xs, 0
  {
    if xs == [] then Some([])
    else
      match (Encode(xs[0]), EncodeAll(xs[1..]))
      case (Some(e), Some(es)) => Some([e] + es)
      case _ => None
  }

  // ---- The loops of the encoder ----

  /** Join two byte strings, one byte at a time. */
  method MergeBytes(a: bytes, b: bytes) returns (r: bytes)
    ensures r == a + b
  {
    var merged := new byte[|a| + |b|](i => 0);
    var k := 0;
    for i := 0 to |a|
      invariant k == i && merged[..k] == a[..i]
    {
      merged[k] := a[i];
      k := k + 1;
    }
    for i := 0 to |b|
      invariant k == |a| + i && merged[..k] == a + b[..i]
    {
      merged[k] := b[i];
      k := k + 1;
    }
    return merged[..];
  }

  /** The shortest big-endian form: write all 32 bytes, then skip the leading zeros. */
  method ToBinary(x: uint256) returns (r: bytes)
    ensures r == Minimal(x)
  {
    var b := BigEndian(x, WORD_LEN);
    var i := 0;
    while i < 32
      invariant 0 <= i <= 32 && forall k :: 0 <= k < i ==> b[k] == 0
    {
      if b[i] != 0 {
        break;
      }
      i := i + 1;
    }
    ghost var first := i;
    var rs := new byte[32 - i](i => 0);
    for j := 0 to rs.Length
      invariant i == first + j && rs[..j] == b[first..i]
    {
      rs[j] := b[i];
      i := i + 1;
    }
    StrippedIsMinimal(x, first);
    return rs[..];
  }

  lemma {:induction false} StrippedIsMinimal(x: uint256, i: nat)
    requires var b := BigEndian(x, WORD_LEN);
             i <= 32 && (forall k :: 0 <= k < i ==> b[k] == 0) && (i < 32 ==> b[i] != 0)
    ensures BigEndian(x, WORD_LEN)[i..] == Minimal(x)
  {
    var b := BigEndian(x, WORD_LEN);
    PowWidths();
    ValueOfBigEndianExact(x, WORD_LEN);
    DropZeros(b, i);
    MinimalOfValue(b[i..]);
  }

  lemma {:induction false} ConcatSnoc(es: seq<bytes>, e: bytes)
    ensures Concat(es + [e]) == Concat(es) + e
  {
    if es != [] {
      ConcatSnoc(es[1..], e);
      assert (es + [e])[1..] == es[1..] + [e];
    }
  }

  /** Encode a list: join the items, then put the prefix in front. */
  method BuildList(es: seq<bytes>) returns (r: Option<bytes>)
    ensures r == EncodeList(es)
  {
    var payload: bytes := [];
    for i := 0 to |es|
      invariant payload == Concat(es[..i])
    {
      ConcatSnoc(es[..i], es[i]);
      assert es[..i + 1] == es[..i] + [es[i]];
      payload := MergeBytes(payload, es[i]);
    }
    assert es[..|es|] == es;
    var prefix := EncodeLength(|payload|, LIST_SHORT);
    if prefix.None? {
      return None;
    }
    var joined := MergeBytes(prefix.value, payload);
    return Some(joined);
  }

  // ---- The decoder ----

  /** exp(256, sub(32, len)) in 256-bit arithmetic: 256^32 and all higher powers are 0. */
  function ShiftUnit(len: nat): (r: nat) {
    if 0 < len <= 32 then Pow256(32 - len) else 0
  }

  /** 256-bit division, in which x / 0 is 0. */
  function Quotient(x: nat, y: nat): (r: nat) {
    if y == 0 then 0 else x / y
  }

  /** The first len bytes of the word at p, as a number. */
  function Leading(m: Mem, p: nat, len: nat): (r: nat) {
    Quotient(Load(m, p), ShiftUnit(len))
  }

  lemma {:induction false} LeadingFits(m: Mem, p: nat, len: nat)
    ensures Leading(m, p, len) < TWO256
  {
    PowWidths();
    ValueBound(Range(m, p, WORD_LEN));
    if ShiftUnit(len) > 0 {
      QuotientBelow(Load(m, p), ShiftUnit(len));
    }
  }

  lemma {:induction false} QuotientBelow(x: nat, y: nat)
    requires y > 0
    ensures x / y <= x
  {
    MulMono(1, y, x / y);
    assert x == x / y * y + x % y;
  }

  /** The length of the whole item at p. */
  function ItemLength(m: Mem, p: nat): (r: nat)
    ensures r > 0
  {
    var b := m(p);
    if b < STRING_SHORT then 1
    else if b < STRING_LONG then b - STRING_SHORT + 1
    else if b < LIST_SHORT then Leading(m, p + 1, b - 0xb7) + (b - 0xb7) + 1
    else if b < LIST_LONG then b - LIST_SHORT + 1
    else Leading(m, p + 1, b - 0xf7) + (b - 0xf7) + 1
  }

  /** The number of bytes in front of the payload of the item at p. */
  function PayloadOffset(m: Mem, p: nat): (r: nat) {
    var b := m(p);
    if b < STRING_SHORT then 0
    else if b < STRING_LONG || LIST_SHORT <= b < LIST_LONG then 1
    else if b < LIST_SHORT then b - (STRING_LONG - 1) + 1
    else b - (LIST_LONG - 1) + 1
  }

  predicate IsList(m: Mem, p: nat) {
    m(p) >= LIST_SHORT
  }

  /** An item in memory: its length and where it starts. */
  datatype RLPItem = RLPItem(len: nat, memPtr: nat)

  /** The items found by walking from p until `end` is reached or passed. */
  function Walk(m: Mem, p: nat, end: nat): (r: seq<RLPItem>)
    decreases end - p
  {
    if p >= end then [] else [RLPItem(ItemLength(m, p), p)] + Walk(m, p + ItemLength(m, p), end)
  }

  /** The items of a list; not a list is a revert. */
  function Items(m: Mem, item: RLPItem): (r: Option<seq<RLPItem>>) {
    if !IsList(m, item.memPtr) then None
    else Some(Walk(m, item.memPtr + PayloadOffset(m, item.memPtr), item.memPtr + item.len))
  }

  /** Count the items of a list. */
  method NumItems(m: Mem, item: RLPItem) returns (count: nat)
    ensures count == |Walk(m, item.memPtr + PayloadOffset(m, item.memPtr), item.memPtr + item.len)|
  {
    count := 0;
    var currPtr := item.memPtr + PayloadOffset(m, item.memPtr);
    var endPtr := item.memPtr + item.len;
    ghost var all := Walk(m, currPtr, endPtr);
    while currPtr < endPtr
      invariant count + |Walk(m, currPtr, endPtr)| == |all|
      decreases endPtr - currPtr
    {
      currPtr := currPtr + ItemLength(m, currPtr);
      count := count + 1;
    }
  }

  /** The list decoder: count the items, then collect them. */
  method ToList(m: Mem, item: RLPItem) returns (r: Option<seq<RLPItem>>)
    ensures r == Items(m, item)
  {
    if !IsList(m, item.memPtr) {
      return None;
    }
    var items := NumItems(m, item);
    var result: seq<RLPItem> := [];
    var memPtr: nat := item.memPtr + PayloadOffset(m, item.memPtr);
    ghost var end := item.memPtr + item.len;
    ghost var all := Walk(m, memPtr, end);
    for i := 0 to items
      invariant |result| == i && all == result + Walk(m, memPtr, end)
    {
      WalkOn(m, memPtr, end, result, all);
      var dataLen := ItemLength(m, memPtr);
      result := result + [RLPItem(dataLen, memPtr)];
      memPtr := memPtr + dataLen;
    }
    assert Walk(m, memPtr, end) == [];
    assert result == all;
    return Some(result);
  }

  /** One step of the walk moves the next item behind those already found. */
  lemma {:induction false} WalkOn(m: Mem, p: nat, end: nat, found: seq<RLPItem>, all: seq<RLPItem>)
    requires all == found + Walk(m, p, end) && |found| < |all|
    ensures all == found + [RLPItem(ItemLength(m, p), p)] + Walk(m, p + ItemLength(m, p), end)
  {
    assert p < end;
  }

  function ToUint(m: Mem, item: RLPItem): (r: uint256) {
    var offset := PayloadOffset(m, item.memPtr);
    // a length below the offset wraps around to a huge number, which shifts everything out
    if item.len < offset then 0
    else
      LeadingFits(m, item.memPtr + offset, item.len - offset);
      Leading(m, item.memPtr + offset, item.len - offset)
  }

  function ToAddress(m: Mem, item: RLPItem): (r: Option<Address>) {
    if item.len != 21 then None else Some(Leading(m, item.memPtr + 1, ADDRESS_LEN) % TWO160)
  }

  // ---- Lengths and leading bytes ----

  lemma {:induction false} ShortMinimal(x: nat, n: nat)
    requires x < Pow256(n)
    ensures |Minimal(x)| <= n
    decreases n
  {
    if x > 0 {
      ShortMinimal(x / 256, n - 1);
    }
  }

  lemma {:induction false} ShortLength(length: nat)
    requires length < TWO64
    ensures |Minimal(length)| <= 8
  {
    PowWidths();
    ShortMinimal(length, 8);
  }

  /** The leading bytes of a word do not depend on what follows them. */
  lemma {:induction false} LeadingBytes(m: Mem, p: nat, len: nat)
    requires len <= 32
    ensures Leading(m, p, len) == Value(Range(m, p, len))
  {
    var a, b := Range(m, p, len), Range(m, p + len, 32 - len);
    if len > 0 {
      var q := Pow256(32 - len);
      assert Range(m, p, WORD_LEN) == a + b;
      ValueConcat(a, b);
      ValueBound(b);
      Divide(Load(m, p), q, Value(a), Value(b));
    } else {
      assert a == [];
    }
  }

  lemma {:induction false} Divide(x: nat, q: nat, hi: nat, lo: nat)
    requires lo < q && x == hi * q + lo
    ensures x / q == hi
  {
    DivModUnique(x, q, hi, lo);
  }

  /** The bytes e lie in memory at p. */
  ghost predicate Lies(m: Mem, p: nat, e: bytes) {
    Range(m, p, |e|) == e
  }

  lemma {:induction false} LiesSplit(m: Mem, p: nat, a: bytes, b: bytes)
    requires Lies(m, p, a + b)
    ensures Lies(m, p, a) && Lies(m, p + |a|, b)
  {
    var r := Range(m, p, |a + b|);
    forall i | 0 <= i < |a|
      ensures m(p + i) == a[i]
    {
      assert r[i] == (a + b)[i];
    }
    forall i | 0 <= i < |b|
      ensures m(p + |a| + i) == b[i]
    {
      assert r[|a| + i] == (a + b)[|a| + i];
    }
  }

  /** From the prefix alone, whatever follows, the decoder finds where the payload starts and how long the item is. */
  lemma {:induction false} PrefixRead(m: Mem, p: nat, length: nat, offset: nat)
    requires offset == STRING_SHORT || offset == LIST_SHORT
    requires EncodeLength(length, offset).Some? && Lies(m, p, EncodeLength(length, offset).value)
    ensures var prefix := EncodeLength(length, offset).value;
            && ItemLength(m, p) == |prefix| + length
            && PayloadOffset(m, p) == |prefix|
            && (IsList(m, p) <==> offset == LIST_SHORT)
  {
    var prefix := EncodeLength(length, offset).value;
    assert m(p) == prefix[0];
    if length > 55 {
      var bl := Minimal(length);
      ShortLength(length);
      ValueOfMinimal(length);
      LiesSplit(m, p, [prefix[0]], bl);
      LeadingBytes(m, p + 1, |bl|);
    }
  }

  /** e is read as one item whatever follows it in memory. */
  ghost predicate SelfDelimiting(e: bytes) {
    e != [] && forall m: Mem, p: nat :: Lies(m, p, e) ==> ItemLength(m, p) == |e|
  }

  lemma {:induction false} BytesSelfDelimiting(s: bytes)
    requires EncodeBytes(s).Some?
    ensures SelfDelimiting(EncodeBytes(s).value)
  {
    var e := EncodeBytes(s).value;
    forall m: Mem, p: nat | Lies(m, p, e)
      ensures ItemLength(m, p) == |e|
    {
      if |s| == 1 && s[0] <= 0x7f {
        assert m(p) == Range(m, p, 1)[0] == e[0];
      } else {
        LiesSplit(m, p, EncodeLength(|s|, STRING_SHORT).value, s);
        PrefixRead(m, p, |s|, STRING_SHORT);
      }
    }
  }

  lemma {:induction false} ListSelfDelimiting(es: seq<bytes>)
    requires EncodeList(es).Some?
    ensures SelfDelimiting(EncodeList(es).value)
  {
    var e, payload := EncodeList(es).value, Concat(es);
    forall m: Mem, p: nat | Lies(m, p, e)
      ensures ItemLength(m, p) == |e|
    {
      LiesSplit(m, p, EncodeLength(|payload|, LIST_SHORT).value, payload);
      PrefixRead(m, p, |payload|, LIST_SHORT);
    }
  }

  /** Everything the encoder produces is self-delimiting, nested lists included. */
  lemma {:induction false} EncodedSelfDelimiting(i: Item)
    requires Encode(i).Some?
    ensures SelfDelimiting(Encode(i).value)
  {
    match i
    case Str(s) => BytesSelfDelimiting(s);
    case Lst(xs) => ListSelfDelimiting(EncodeAll(xs).value);
  }

  lemma {:induction false} AllSelfDelimiting(xs: seq<Item>)
    requires EncodeAll(xs).Some?
    ensures var es := EncodeAll(xs).value;
            |es| == |xs| && forall k :: 0 <= k < |es| ==> SelfDelimiting(es[k]) && Encode(xs[k]) == Some(es[k])
  {
    if xs != [] {
      EncodedSelfDelimiting(xs[0]);
      AllSelfDelimiting(xs[1..]);
    }
  }

  // ---- Round trips ----

  /** The walk finds exactly the items es, in order. */
  ghost predicate Finds(m: Mem, found: seq<RLPItem>, es: seq<bytes>) {
    |found| == |es| && forall k :: 0 <= k < |es| ==> found[k].len == |es[k]| && Lies(m, found[k].memPtr, es[k])
  }

  lemma {:induction false} WalkFinds(m: Mem, p: nat, es: seq<bytes>)
    requires Lies(m, p, Concat(es)) && forall k :: 0 <= k < |es| ==> SelfDelimiting(es[k])
    ensures Finds(m, Walk(m, p, p + |Concat(es)|), es)
    decreases |es|
  {
    if es != [] {
      var e, end := es[0], p + |Concat(es)|;
      assert SelfDelimiting(e);
      LiesSplit(m, p, e, Concat(es[1..]));
      WalkFinds(m, p + |e|, es[1..]);
      WalkStep(m, p, end, e);
      FindsMore(m, p, es, Walk(m, p + |e|, end));
    }
  }

  lemma {:induction false} WalkStep(m: Mem, p: nat, end: nat, e: bytes)
    requires SelfDelimiting(e) && Lies(m, p, e) && p < end
    ensures Walk(m, p, end) == [RLPItem(|e|, p)] + Walk(m, p + |e|, end)
  {
  }

  lemma {:induction false} FindsMore(m: Mem, p: nat, es: seq<bytes>, rest: seq<RLPItem>)
    requires es != [] && Lies(m, p, es[0]) && Finds(m, rest, es[1..])
    ensures Finds(m, [RLPItem(|es[0]|, p)] + rest, es)
  {
    forall k | 0 < k < |es|
      ensures rest[k - 1].len == |es[k]| && Lies(m, rest[k - 1].memPtr, es[k])
    {
      assert es[1..][k - 1] == es[k];
    }
  }

  /** List round trip: the decoder run on an encoded list of items, nested lists included, returns
      exactly the encodings of those items, whatever else is in memory. */
  lemma {:induction false} ListRoundTrip(m: Mem, p: nat, xs: seq<Item>)
    requires Encode(Lst(xs)).Some? && Lies(m, p, Encode(Lst(xs)).value)
    ensures var r := Items(m, RLPItem(|Encode(Lst(xs)).value|, p));
            && EncodeAll(xs).Some? && |EncodeAll(xs).value| == |xs|
            && (forall k :: 0 <= k < |xs| ==> Encode(xs[k]) == Some(EncodeAll(xs).value[k]))
            && r.Some? && Finds(m, r.value, EncodeAll(xs).value)
  {
    AllSelfDelimiting(xs);
    EncodedListFound(m, p, EncodeAll(xs).value);
  }

  lemma {:induction false} EncodedListFound(m: Mem, p: nat, es: seq<bytes>)
    requires EncodeList(es).Some? && Lies(m, p, EncodeList(es).value)
    requires forall k :: 0 <= k < |es| ==> SelfDelimiting(es[k])
    ensures var r := Items(m, RLPItem(|EncodeList(es).value|, p));
            r.Some? && Finds(m, r.value, es)
  {
    var payload := Concat(es);
    var prefix := EncodeLength(|payload|, LIST_SHORT).value;
    LiesSplit(m, p, prefix, payload);
    PrefixRead(m, p, |payload|, LIST_SHORT);
    WalkFinds(m, p + |prefix|, es);
  }

  /** The item in memory is x: its payload if x is a string, its items one by one if x is a list. */
  ghost predicate Decodes(m: Mem, item: RLPItem, x: Item)
    decreases x
  {
    match x
    case Str(s) =>
      var offset := PayloadOffset(m, item.memPtr);
      !IsList(m, item.memPtr) && item.len == offset + |s| && Lies(m, item.memPtr + offset, s)
    case Lst(xs) =>
      var r := Items(m, item);
      r.Some? && |r.value| == |xs| && forall k :: 0 <= k < |xs| ==> Decodes(m, r.value[k], xs[k])
  }

  /** The whole tree comes back, to any depth. */
  lemma {:induction false} TreeRoundTrip(m: Mem, p: nat, x: Item)
    requires Encode(x).Some? && Lies(m, p, Encode(x).value)
    ensures Decodes(m, RLPItem(|Encode(x).value|, p), x)
    decreases x
  {
    match x
    case Str(s) =>
      if |s| == 1 && s[0] <= 0x7f {
        assert m(p) == Range(m, p, 1)[0] == s[0];
      } else {
        LiesSplit(m, p, EncodeLength(|s|, STRING_SHORT).value, s);
        PrefixRead(m, p, |s|, STRING_SHORT);
      }
    case Lst(xs) =>
      ListRoundTrip(m, p, xs);
      var found := Items(m, RLPItem(|Encode(x).value|, p)).value;
      forall k | 0 <= k < |xs|
        ensures Decodes(m, found[k], xs[k])
      {
        TreeRoundTrip(m, found[k].memPtr, xs[k]);
      }
  }

  /** Scalar round trip: every 256-bit number, zero included. */
  lemma {:induction false} UintRoundTrip(m: Mem, p: nat, x: uint256)
    ensures EncodeUint(x).Some?
    ensures Lies(m, p, EncodeUint(x).value) ==> ToUint(m, RLPItem(|EncodeUint(x).value|, p)) == x
    ensures x > 0 ==> Minimal(x)[0] != 0
  {
    var s := Minimal(x);
    PowWidths();
    ShortMinimal(x, 32);
    ValueOfMinimal(x);
    var e := EncodeUint(x).value;
    if Lies(m, p, e) {
      if |s| == 1 && s[0] <= 0x7f {
        assert m(p) == Range(m, p, 1)[0] == e[0];
        LeadingBytes(m, p, 1);
      } else {
        LiesSplit(m, p, EncodeLength(|s|, STRING_SHORT).value, s);
        PrefixRead(m, p, |s|, STRING_SHORT);
        LeadingBytes(m, p + 1, |s|);
      }
    }
  }

  /** Address round trip. */
  lemma {:induction false} AddressRoundTrip(m: Mem, p: nat, a: Address)
    ensures EncodeAddress(a).Some?
    ensures Lies(m, p, EncodeAddress(a).value) ==> ToAddress(m, RLPItem(|EncodeAddress(a).value|, p)) == Some(a)
  {
    var s := BigEndian(a, ADDRESS_LEN);
    if Lies(m, p, EncodeAddress(a).value) {
      LiesSplit(m, p, [ADDRESS_LEN + STRING_SHORT], s);
      LeadingAddress(m, p + 1, a);
    }
  }

  lemma {:induction false} LeadingAddress(m: Mem, p: nat, a: Address)
    requires Lies(m, p, BigEndian(a, ADDRESS_LEN))
    ensures Leading(m, p, ADDRESS_LEN) == a
  {
    PowWidths();
    LeadingNumber(m, p, a, ADDRESS_LEN);
  }

  lemma {:induction false} LeadingNumber(m: Mem, p: nat, x: nat, n: nat)
    requires n <= 32 && x < Pow256(n) && Lies(m, p, BigEndian(x, n))
    ensures Leading(m, p, n) == x
  {
    LeadingBytes(m, p, n);
    ValueOfBigEndianExact(x, n);
  }

  // ---- The encoding is the shortest ----

  lemma {:induction false} LiesJoin(m: Mem, p: nat, a: bytes, b: bytes)
    requires Lies(m, p, a) && Lies(m, p + |a|, b)
    ensures Lies(m, p, a + b)
  {
    var r, x, y := Range(m, p, |a + b|), Range(m, p, |a|), Range(m, p + |a|, |b|);
    forall i | 0 <= i < |a + b|
      ensures r[i] == (a + b)[i]
    {
      assert if i < |a| then x[i] == a[i] else y[i - |a|] == b[i - |a|];
    }
  }

  /** A long prefix of k length bytes: the length fits, and its shortest form has at most k bytes. */
  lemma {:induction false} LongPrefix(m: Mem, p: nat, k: nat)
    requires 1 <= k <= 8
    ensures var length := Leading(m, p, k);
            length < TWO64 && |Minimal(length)| <= k && (|Minimal(length)| == k ==> Lies(m, p, Minimal(length)))
  {
    var length := Leading(m, p, k);
    LeadingBytes(m, p, k);
    ValueBound(Range(m, p, k));
    PowGrows(k, 8);
    PowWidths();
    ShortMinimal(length, k);
    ValueOfMinimal(length);
    if |Minimal(length)| == k {
      ValueInjective(Minimal(length), Range(m, p, k));
    }
  }

  lemma {:induction false} PowGrows(m: nat, n: nat)
    requires m <= n
    ensures Pow256(m) <= Pow256(n)
  {
    PowAdd(m, n - m);
    MulMono(1, Pow256(n - m), Pow256(m));
  }

  /** Whatever prefix the decoder reads a length from: the encoder has a prefix for that length which is not
      longer, and of the same length only if it is the same. */
  lemma {:induction false} PrefixShortest(m: Mem, p: nat, length: nat, offset: nat)
    requires offset == STRING_SHORT || offset == LIST_SHORT
    requires m(p) >= STRING_SHORT && (IsList(m, p) <==> offset == LIST_SHORT)
    requires ItemLength(m, p) == PayloadOffset(m, p) + length
    ensures EncodeLength(length, offset).Some?
    ensures var prefix := EncodeLength(length, offset).value;
            |prefix| <= PayloadOffset(m, p) && (|prefix| == PayloadOffset(m, p) ==> Lies(m, p, prefix))
  {
    var k := m(p) - offset - 55;
    if k > 0 {
      LongPrefix(m, p + 1, k);
      var prefix := EncodeLength(length, offset).value;
      if |prefix| == PayloadOffset(m, p) {
        assert Lies(m, p, [prefix[0]]);
        LiesJoin(m, p, [prefix[0]], Minimal(length));
        assert prefix == [prefix[0]] + Minimal(length);
      }
    } else {
      assert Lies(m, p, [m(p)]);
    }
  }

  /** The encoding of a string is the shortest of all that are read back as it, and the only one of its
      length. */
  lemma {:induction false} BytesShortest(m: Mem, item: RLPItem, s: bytes)
    requires Decodes(m, item, Str(s)) && ItemLength(m, item.memPtr) == item.len
    ensures EncodeBytes(s).Some?
    ensures var e := EncodeBytes(s).value;
            |e| <= item.len && (|e| == item.len ==> Lies(m, item.memPtr, e))
  {
    var p, offset := item.memPtr, PayloadOffset(m, item.memPtr);
    if m(p) < STRING_SHORT {
      assert s[0] == Range(m, p, 1)[0];
    } else {
      PrefixShortest(m, p, |s|, STRING_SHORT);
      var prefix := EncodeLength(|s|, STRING_SHORT).value;
      if |prefix| == offset {
        LiesJoin(m, p, prefix, s);
      }
    }
  }

  lemma {:induction false} MinimalGrows(x: nat, y: nat)
    requires x <= y
    ensures |Minimal(x)| <= |Minimal(y)|
    decreases y
  {
    if x > 0 {
      MinimalGrows(x / 256, y / 256);
    }
  }

  lemma {:induction false} LengthGrows(x: nat, y: nat)
    requires x <= y && EncodeLength(y, LIST_SHORT).Some?
    ensures EncodeLength(x, LIST_SHORT).Some?
    ensures |EncodeLength(x, LIST_SHORT).value| <= |EncodeLength(y, LIST_SHORT).value|
  {
    MinimalGrows(x, y);
  }

  /** The walk from p meets the end exactly. */
  ghost predicate Ends(m: Mem, p: nat, end: nat)
    decreases end - p
  {
    if p >= end then p == end else Ends(m, p + ItemLength(m, p), end)
  }

  /** The item ends where its prefix says, and so do the items inside it. */
  ghost predicate Tight(m: Mem, item: RLPItem, x: Item)
    decreases x
  {
    && item.len == ItemLength(m, item.memPtr)
    && (x.Lst? ==>
          && Ends(m, item.memPtr + PayloadOffset(m, item.memPtr), item.memPtr + item.len)
          && (var r := Items(m, item);
              r.Some? && |r.value| == |x.items| && forall k :: 0 <= k < |x.items| ==> Tight(m, r.value[k], x.items[k])))
  }

  /** The items found are read back as xs, and tightly. */
  ghost predicate ReadsAs(m: Mem, found: seq<RLPItem>, xs: seq<Item>) {
    && |found| == |xs|
    && forall k :: 0 <= k < |xs| ==> Decodes(m, found[k], xs[k]) && Tight(m, found[k], xs[k])
  }

  lemma {:induction false} WalkShortest(m: Mem, p: nat, end: nat, xs: seq<Item>)
    requires p <= end && Ends(m, p, end) && ReadsAs(m, Walk(m, p, end), xs)
    ensures EncodeAll(xs).Some?
    ensures var c := Concat(EncodeAll(xs).value);
            |c| <= end - p && (|c| == end - p ==> Lies(m, p, c))
    decreases xs, 0
  {
    if xs != [] {
      var found, q := Walk(m, p, end), p + ItemLength(m, p);
      assert found[0] == RLPItem(ItemLength(m, p), p) && found[1..] == Walk(m, q, end);
      EndsBelow(m, q, end);
      TreeShortest(m, found[0], xs[0]);
      RestReadsAs(m, found, xs);
      WalkShortest(m, q, end, xs[1..]);
      var e, es := Encode(xs[0]).value, EncodeAll(xs[1..]).value;
      assert ([e] + es)[1..] == es;
      if |e| + |Concat(es)| == end - p {
        LiesJoin(m, p, e, Concat(es));
      }
    }
  }

  lemma {:induction false} EndsBelow(m: Mem, p: nat, end: nat)
    requires Ends(m, p, end)
    ensures p <= end
  {
  }

  lemma {:induction false} RestReadsAs(m: Mem, found: seq<RLPItem>, xs: seq<Item>)
    requires xs != [] && ReadsAs(m, found, xs)
    ensures ReadsAs(m, found[1..], xs[1..])
  {
    forall k | 0 <= k < |xs[1..]|
      ensures Decodes(m, found[1..][k], xs[1..][k]) && Tight(m, found[1..][k], xs[1..][k])
    {
      assert found[1..][k] == found[k + 1] && xs[1..][k] == xs[k + 1];
    }
  }

  lemma {:induction false} ListReads(m: Mem, item: RLPItem, xs: seq<Item>)
    requires Decodes(m, item, Lst(xs)) && Tight(m, item, Lst(xs))
    ensures IsList(m, item.memPtr) && ItemLength(m, item.memPtr) == item.len
    ensures var p, end := item.memPtr + PayloadOffset(m, item.memPtr), item.memPtr + item.len;
            p <= end && Ends(m, p, end) && ReadsAs(m, Walk(m, p, end), xs)
  {
    EndsBelow(m, item.memPtr + PayloadOffset(m, item.memPtr), item.memPtr + item.len);
  }

  /** The encoding of any nested structure is the shortest of all that are read back as it, and the only one
      of its length. */
  lemma {:induction false} TreeShortest(m: Mem, item: RLPItem, x: Item)
    requires Decodes(m, item, x) && Tight(m, item, x)
    ensures Encode(x).Some?
    ensures var e := Encode(x).value;
            |e| <= item.len && (|e| == item.len ==> Lies(m, item.memPtr, e))
    decreases x, 1
  {
    match x
    case Str(s) => BytesShortest(m, item, s);
    case Lst(xs) =>
      ListReads(m, item, xs);
      WalkShortest(m, item.memPtr + PayloadOffset(m, item.memPtr), item.memPtr + item.len, xs);
      ListShortest(m, item, EncodeAll(xs).value);
  }

  /** A prefix in front of no more than the payload there is makes no more than the item there is. */
  lemma {:induction false} ListShortest(m: Mem, item: RLPItem, es: seq<bytes>)
    requires IsList(m, item.memPtr) && ItemLength(m, item.memPtr) == item.len
    requires PayloadOffset(m, item.memPtr) + |Concat(es)| <= item.len
    requires PayloadOffset(m, item.memPtr) + |Concat(es)| == item.len ==>
               Lies(m, item.memPtr + PayloadOffset(m, item.memPtr), Concat(es))
    ensures EncodeList(es).Some?
    ensures var e := EncodeList(es).value;
            |e| <= item.len && (|e| == item.len ==> Lies(m, item.memPtr, e))
  {
    var p, offset, c := item.memPtr, PayloadOffset(m, item.memPtr), Concat(es);
    PrefixShortest(m, p, item.len - offset, LIST_SHORT);
    LengthGrows(|c|, item.len - offset);
    var prefix := EncodeLength(|c|, LIST_SHORT).value;
    if |prefix| + |c| == item.len {
      LiesJoin(m, p, prefix, c);
    }
  }

  /** Small numbers are their own encoding; nothing and the empty list have the two short prefixes. */
  lemma {:induction false} SmallEncodings(x: uint256)
    ensures 0 < x < 128 ==> EncodeUint(x) == Some([x])
    ensures EncodeUint(0) == Some([128]) && EncodeList([]) == Some([192])
  {
    if 0 < x < 128 {
      assert Minimal(x / 256) == [];
      assert Minimal(x) == [x];
    }
    var none: bytes := [];
    assert Minimal(0) == none && Concat([]) == none;
    assert [128] + none == [128] && [192] + none == [192];
  }

  // ---- What the scalar readers read from any item ----

  /** The payload, up to 32 bytes of it, as a number; a longer or an empty payload is 0. */
  lemma {:induction false} UintRead(m: Mem, item: RLPItem)
    ensures var offset := PayloadOffset(m, item.memPtr);
            var n := item.len - offset;
            ToUint(m, item) == if 0 < n <= 32 then Value(Range(m, item.memPtr + offset, n)) else 0
  {
    var offset := PayloadOffset(m, item.memPtr);
    var n := item.len - offset;
    if 0 < n <= 32 {
      LeadingBytes(m, item.memPtr + offset, n);
    }
  }

  /** The 20 bytes behind the first one; any other length than 21 reverts. */
  lemma {:induction false} AddressRead(m: Mem, item: RLPItem)
    ensures if item.len == 21 then
              Value(Range(m, item.memPtr + 1, 20)) < TWO160
              && ToAddress(m, item) == Some(Value(Range(m, item.memPtr + 1, 20)))
            else ToAddress(m, item) == None
  {
    LeadingBytes(m, item.memPtr + 1, 20);
    ValueBound(Range(m, item.memPtr + 1, 20));
    PowWidths();
  }
}
