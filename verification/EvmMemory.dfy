/**
 The memory of the contract's virtual machine, and the two library routines that
 work on it directly: copying a slice of a byte array one word at a time, and
 laying out an address as a byte array.
 */
module EvmMemory {
  import opened Bytes

  /** Memory is unbounded and starts out as zeros. */
  type Mem = nat -> byte

  const FREE_SLOT: nat := 0x40

  /** The n bytes from p on. */
  function Range(m: Mem, p: nat, n: nat): (s: bytes)
    ensures |s| == n
    ensures forall i :: 0 <= i < n ==> s[i] == m(p + i)
  {
    seq(n, i requires 0 <= i < n => m(p + i))
  }

  /** The 32-byte word at p, as a number. */
  function Load(m: Mem, p: nat): (w: nat) {
    Value(Range(m, p, WORD_LEN))
  }

  function Store(m: Mem, p: nat, w: bytes): (r: Mem)
    requires |w| == WORD_LEN
  {
    (a: nat) => if p <= a < p + WORD_LEN then w[a - p] else m(a)
  }

  /** A byte array in memory: its length in the first word, its bytes behind it. */
  function ArrayAt(m: Mem, p: nat): (s: bytes) {
    Range(m, p + WORD_LEN, Load(m, p))
  }

  lemma {:induction false} LoadStored(m: Mem, p: nat, x: nat)
    requires x < TWO256
    ensures Load(Store(m, p, BigEndian(x, WORD_LEN)), p) == x
  {
    assert Range(Store(m, p, BigEndian(x, WORD_LEN)), p, WORD_LEN) == BigEndian(x, WORD_LEN);
    PowWidths();
    ValueOfBigEndianExact(x, WORD_LEN);
  }

  /** What the slice routine finds in every memory: the array lies below the free pointer, which lies
      above its own slot and is nowhere near the end of the address space. */
  predicate SliceReady(m: Mem, b: nat) {
    && FREE_SLOT + WORD_LEN <= Load(m, FREE_SLOT)
    && b + WORD_LEN + Load(m, b) <= Load(m, FREE_SLOT)
    && 2 * (Load(m, FREE_SLOT) + WORD_LEN) < TWO256
  }

  /** How far into the first word the slice begins to be copied. */
  function Pad(length: nat): (pad: nat)
    ensures 1 <= pad <= 32
  {
    length % 32 + if length % 32 == 0 then 32 else 0
  }

  lemma {:induction false} PadWords(length: nat)
    ensures Pad(length) + 32 * ((length + 31) / 32) == 32 + length
  {
  }

  /** The end of the copy wraps around, so that the copying loop ends before it begins. */
  predicate Skips(temp: nat, length: uint256) {
    temp + Pad(length) + length >= TWO256
  }

  /** The sum of start and length wraps around and the address copied from does not, so that the loop runs
      through the far end of the address space: no gas pays for that. */
  predicate OutOfReach(temp: nat, b: nat, start: uint256, length: uint256) {
    start + length >= TWO256 && !Skips(temp, length) && b + Pad(length) + start < TWO256
  }

  /** The address a slice is copied from; it wraps around with the sum of start and length. */
  function Source(b: nat, start: uint256, length: uint256): (p: int) {
    if start + length < TWO256 then b + WORD_LEN + start else b + WORD_LEN + start - TWO256
  }

  /** The bytes a slice is copied from, if they lie at a real address. */
  function SliceBytes(m: Mem, b: nat, start: uint256, length: uint256): (s: bytes) {
    var p := Source(b, start, length);
    if p < 0 then [] else Range(m, p, length)
  }

  function RoundUp(x: nat): (r: nat) {
    (x + 31) / 32 * 32
  }

  function Origin(m0: Mem, from: nat, to: nat, n: nat, a: nat): (x: byte) {
    if to <= a < to + n then m0(a - to + from) else m0(a)
  }

  /** m is m0 with the n bytes from `from` on copied to `to`. */
  ghost predicate Copied(m0: Mem, m: Mem, from: nat, to: nat, n: nat) {
    forall a: nat {:trigger m(a)} :: m(a) == Origin(m0, from, to, n, a)
  }

  lemma {:induction false} CopyStep(m0: Mem, m: Mem, from: nat, to: nat, n: nat)
    requires Copied(m0, m, from, to, n) && from + n + WORD_LEN <= to
    ensures Copied(m0, Store(m, to + n, Range(m, from + n, WORD_LEN)), from, to, n + WORD_LEN)
  {
    var r := Store(m, to + n, Range(m, from + n, WORD_LEN));
    forall a: nat
      ensures r(a) == Origin(m0, from, to, n + WORD_LEN, a)
    {
      if to + n <= a < to + n + WORD_LEN {
        assert r(a) == m(a - to + from);
      } else {
        assert r(a) == m(a);
      }
    }
  }

  lemma {:induction false} CopiedRange(m0: Mem, m: Mem, from: nat, to: nat, n: nat, lo: nat, k: nat)
    requires Copied(m0, m, from, to, n) && lo + k <= n
    ensures Range(m, to + lo, k) == Range(m0, from + lo, k)
  {
    var s, t := Range(m, to + lo, k), Range(m0, from + lo, k);
    forall i | 0 <= i < k
      ensures s[i] == t[i]
    {
      assert m(to + lo + i) == Origin(m0, from, to, n, to + lo + i);
    }
  }

  /** Storing a word does not disturb what lies beside it. */
  lemma {:induction false} StoreBeside(m: Mem, p: nat, w: bytes, q: nat, n: nat)
    requires |w| == WORD_LEN && (q + n <= p || p + WORD_LEN <= q)
    ensures Range(Store(m, p, w), q, n) == Range(m, q, n)
  {
  }

  lemma {:induction false} ArraySlice(m: Mem, b: nat, start: nat, length: nat)
    requires start + length <= Load(m, b)
    ensures ArrayAt(m, b)[start..start + length] == Range(m, b + WORD_LEN + start, length)
  {
  }

  lemma {:induction false} CopiedBelow(m0: Mem, m: Mem, from: nat, temp: nat, pad: nat, n: nat, w: bytes)
    requires Copied(m0, m, from, temp + pad, n) && |w| == WORD_LEN
    ensures var r := Store(m, temp, w);
            forall a: nat {:trigger r(a)} :: a < temp ==> r(a) == m0(a)
  {
    var r := Store(m, temp, w);
    forall a: nat | a < temp
      ensures r(a) == m0(a)
    {
      assert r(a) == m(a) == Origin(m0, from, temp + pad, n, a);
    }
  }

  /** After the copy, writing the length completes the slice and leaves everything below alone. */
  lemma {:induction false} SliceCopied(m0: Mem, m: Mem, from: nat, length: nat, temp: nat, pad: nat, n: nat)
    requires 0 < length < TWO256 && 1 <= pad <= 32 && pad + n == 32 + length
    requires Copied(m0, m, from, temp + pad, n)
    ensures var r := Store(m, temp, BigEndian(length, WORD_LEN));
            && ArrayAt(r, temp) == Range(m0, from + 32 - pad, length)
            && (forall a: nat {:trigger r(a)} :: a < temp ==> r(a) == m0(a))
  {
    var w := BigEndian(length, WORD_LEN);
    LoadStored(m, temp, length);
    StoreBeside(m, temp, w, temp + WORD_LEN, length);
    CopiedRange(m0, m, from, temp + pad, n, 32 - pad, length);
    CopiedBelow(m0, m, from, temp, pad, n, w);
  }

  /** A word left over at the free pointer makes an empty slice of an empty array come out non-empty. */
  lemma {:induction false} EmptySliceCounterexample() returns (m: Mem)
    ensures SliceReady(m, 0x60) && Load(m, 0x60) == 0
    ensures ArrayAt(m, 0x60)[0..0] == [] != ArrayAt(m, Load(m, FREE_SLOT))
  {
    var clean: Mem := (a: nat) => 0;
    var m1 := Store(clean, FREE_SLOT, BigEndian(0x80, WORD_LEN));
    m := Store(m1, 0x80, BigEndian(1, WORD_LEN));
    LoadStored(clean, FREE_SLOT, 0x80);
    LoadStored(m1, 0x80, 1);
    StoreBeside(m1, 0x80, BigEndian(1, WORD_LEN), FREE_SLOT, WORD_LEN);
    assert Range(m, 0x60, WORD_LEN) == Zeros(WORD_LEN);
    ValueOfZeros(WORD_LEN);
  }

  // ---- Laying out an address as a byte array ----

  /** The word that holds the array length 20 in its upper part and the address in its lower 20 bytes.
      (The program combines the two parts with an exclusive or; they share no bits.) */
  function AddressWord(self: Address): (w: nat) {
    ADDRESS_LEN * TWO160 + self
  }

  lemma {:induction false} AddressWordBytes(self: Address)
    ensures AddressWord(self) < TWO256
    ensures BigEndian(AddressWord(self), WORD_LEN) == BigEndian(ADDRESS_LEN, 12) + BigEndian(self, ADDRESS_LEN)
    ensures Value(BigEndian(ADDRESS_LEN, 12)) == ADDRESS_LEN
  {
    PowWidths();
    PowAdd(12, 20);
    assert ADDRESS_LEN < Pow256(12) by {
      PowAdd(11, 1);
    }
    BigEndianSplit(ADDRESS_LEN, self, 12, ADDRESS_LEN);
    ValueOfBigEndianExact(ADDRESS_LEN, 12);
  }

  /** The array at p is the address exactly if the first 20 bytes at p were zero before. */
  lemma {:induction false} AddressLaidOut(m: Mem, p: nat, self: Address)
    ensures var r := Store(m, p + 20, BigEndian(AddressWord(self), WORD_LEN));
            ArrayAt(r, p) == BigEndian(self, ADDRESS_LEN) <==> Value(Range(m, p, 20)) == 0
  {
    AddressWordBytes(self);
    StoreAcross(m, p, BigEndian(ADDRESS_LEN, 12), BigEndian(self, ADDRESS_LEN));
    LengthWord(Range(m, p, 20), BigEndian(ADDRESS_LEN, 12));
  }

  /** A word stored 20 bytes above p ends the word at p with its first 12 bytes and starts what follows. */
  lemma {:induction false} StoreAcross(m: Mem, p: nat, a: bytes, b: bytes)
    requires |a| == 12 && |b| == 20
    ensures Range(Store(m, p + 20, a + b), p, WORD_LEN) == Range(m, p, 20) + a
    ensures Range(Store(m, p + 20, a + b), p + WORD_LEN, 20) == b
  {
  }

  /** Bytes in front of a length leave it alone exactly if they are zero. */
  lemma {:induction false} LengthWord(head: bytes, length: bytes)
    ensures Value(head + length) == Value(length) <==> Value(head) == 0
  {
    ValueConcat(head, length);
    if Value(head) > 0 {
      MulMono(1, Value(head), Pow256(|length|));
    }
  }

  /** The wrapped range lies in the array, and the copy can be paid for. */
  predicate SliceTaken(m: Mem, b: nat, start: uint256, length: uint256) {
    Plus(start, length) <= Load(m, b) && !OutOfReach(Load(m, FREE_SLOT), b, start, length)
  }

  /** What a slice is copied from lies below the free pointer; without a wrap it is a part of the array. */
  lemma {:induction false} SourceBelow(m: Mem, b: nat, start: uint256, length: uint256)
    requires SliceReady(m, b) && SliceTaken(m, b, start, length) && !Skips(Load(m, FREE_SLOT), length)
    ensures var src := Source(b, start, length);
            && 0 <= src && src + length <= Load(m, FREE_SLOT) && src + Pad(length) >= WORD_LEN
            && (start + length < TWO256 ==> IsSubarray(m, b, start, length))
  {
    if start + length < TWO256 {
      ArraySlice(m, b, start, length);
    }
  }

  /** The bytes copied are those of the array from start on. */
  predicate IsSubarray(m: Mem, b: nat, start: uint256, length: uint256) {
    && start + length <= Load(m, b)
    && SliceBytes(m, b, start, length) == ArrayAt(m, b)[start..start + length]
  }

  /** Only a wrapped sum can make the loop end before it begins. */
  lemma {:induction false} SkipsOnlyWrapped(m: Mem, b: nat, start: uint256, length: uint256)
    requires SliceReady(m, b) && SliceTaken(m, b, start, length) && Skips(Load(m, FREE_SLOT), length)
    ensures start + length >= TWO256 && length > 0
  {
  }

  /** Below the free pointer only the pointer itself has changed. */
  ghost predicate KeptBelow(m0: Mem, m: Mem, temp: nat) {
    forall a: nat {:trigger m(a)} :: a < temp && !(FREE_SLOT <= a < FREE_SLOT + WORD_LEN) ==> m(a) == m0(a)
  }

  /** x is the first multiple of 32 from lo on. */
  predicate IsNextWord(x: nat, lo: nat) {
    x % 32 == 0 && lo <= x < lo + 32
  }

  lemma {:induction false} RoundUpIsNext(x: nat)
    ensures IsNextWord(RoundUp(x), x)
  {
  }

  /** A slice of a range that does not wrap around: if it is not empty, the part of the array, with the free
      pointer at the first word behind it; if it is empty, whatever array the free word makes, and the
      pointer one word on. */
  ghost predicate PlainSlice(m0: Mem, m: Mem, temp: nat, b: nat, start: nat, length: nat) {
    && start + length <= |ArrayAt(m0, b)|
    && (length > 0 ==>
          && ArrayAt(m, temp) == ArrayAt(m0, b)[start..start + length]
          && IsNextWord(Load(m, FREE_SLOT), temp + 32 + length))
    && (length == 0 ==>
          (ArrayAt(m, temp) == [] <==> Load(m0, temp) == 0) && Load(m, FREE_SLOT) == temp + 32)
  }

  /** A slice of a range that wraps around.  `pad` is how far into a word its bytes begin.  If the end of
      the copy wraps around, only the length is written; otherwise the slice is what lies in front of the
      array, as far as the wrapped start goes back. */
  ghost predicate WrappedSlice(m0: Mem, m: Mem, temp: nat, b: nat, start: nat, length: nat) {
    var pad := if length % 32 == 0 then 32 else length % 32;
    if temp + pad + length >= TWO256 then
      && Load(m, temp) == length && IsNextWord(Load(m, FREE_SLOT), temp + pad)
      && (forall a: nat {:trigger m(a)} :: a >= temp + 32 ==> m(a) == m0(a))
    else
      && b + 32 + start >= TWO256 && ArrayAt(m, temp) == Range(m0, b + 32 + start - TWO256, length)
      && IsNextWord(Load(m, FREE_SLOT), temp + 32 + length)
  }

  /** When a wrapped range is accepted: the wrapped sum is in the array, and the copy does not run through
      the far end of the address space. */
  predicate WrappedTaken(m: Mem, temp: nat, b: nat, start: nat, length: nat) {
    var pad := if length % 32 == 0 then 32 else length % 32;
    start + length - TWO256 <= Load(m, b) && (temp + pad + length >= TWO256 || b + pad + start >= TWO256)
  }

  lemma {:induction false} TakenExactly(m: Mem, b: nat, start: uint256, length: uint256)
    requires SliceReady(m, b)
    ensures start + length < TWO256 ==> (SliceTaken(m, b, start, length) <==> start + length <= Load(m, b))
    ensures start + length >= TWO256 ==>
              (SliceTaken(m, b, start, length) <==> WrappedTaken(m, Load(m, FREE_SLOT), b, start, length))
  {
  }

  class Memory {
    var at: Mem

    /** The copying loop: words from cc upwards are stored from mc upwards until mc reaches end. */
    method CopyWords(from: nat, to: nat, words: nat)
      requires from + 32 * words <= to
      modifies this
      ensures Copied(old(at), at, from, to, 32 * words)
    {
      var mc, cc, end := to, from, to + 32 * words;
      ghost var j := 0;
      while mc < end
        invariant j <= words && mc == to + 32 * j && cc == from + 32 * j
        invariant Copied(old(at), at, from, to, 32 * j)
        decreases words - j
      {
        CopyStep(old(at), at, from, to, 32 * j);
        at := Store(at, mc, Range(at, cc, WORD_LEN));
        mc := mc + 32;
        cc := cc + 32;
        j := j + 1;
      }
    }

    /** Copy words to `temp + pad` and write the length in front of what they end with. */
    method CopyPadded(from: nat, length: nat, temp: nat, pad: nat, words: nat)
      requires 0 < length < TWO256 && 1 <= pad <= 32 && pad + 32 * words == 32 + length
      requires from + 32 * words <= temp
      modifies this
      ensures ArrayAt(at, temp) == Range(old(at), from + 32 - pad, length)
      ensures forall a: nat {:trigger at(a)} :: a < temp ==> at(a) == old(at)(a)
    {
      CopyWords(from, temp + pad, words);
      SliceCopied(old(at), at, from, length, temp, pad, 32 * words);
      at := Store(at, temp, BigEndian(length, WORD_LEN));
    }

    /** Copy the `length` bytes from src on to `temp` and write their length in front. */
    method CopySlice(src: nat, length: nat, temp: nat) returns (mc: nat)
      requires 0 < length < TWO256 && src + length <= temp && src + Pad(length) >= WORD_LEN
      modifies this
      ensures ArrayAt(at, temp) == Range(old(at), src, length)
      ensures forall a: nat {:trigger at(a)} :: a < temp ==> at(a) == old(at)(a)
      ensures mc == temp + WORD_LEN + length
    {
      PadWords(length);
      var pad, words := Pad(length), (length + 31) / 32;
      CopyPadded(src + pad - WORD_LEN, length, temp, pad, words);
      mc := temp + pad + 32 * words;
    }

    /** The loop ends before it begins. */
    method WriteLength(b: nat, start: uint256, length: uint256, temp: nat)
      requires SliceReady(at, b) && SliceTaken(at, b, start, length)
      requires temp == Load(at, FREE_SLOT) && Skips(temp, length)
      modifies this
      ensures start + length >= TWO256 && WrappedSlice(old(at), at, temp, b, start, length)
      ensures KeptBelow(old(at), at, temp)
    {
      SkipsOnlyWrapped(at, b, start, length);
      LoadStored(at, temp, length);
      RoundUpIsNext(temp + Pad(length));
      at := Store(at, temp, BigEndian(length, WORD_LEN));
      MoveFreePointer(RoundUp(temp + Pad(length)), temp);
    }

    method TakeSlice(b: nat, start: uint256, length: uint256, temp: nat)
      requires SliceReady(at, b) && SliceTaken(at, b, start, length)
      requires temp == Load(at, FREE_SLOT) && !Skips(temp, length)
      modifies this
      ensures start + length < TWO256 ==> PlainSlice(old(at), at, temp, b, start, length)
      ensures start + length >= TWO256 ==> WrappedSlice(old(at), at, temp, b, start, length)
      ensures KeptBelow(old(at), at, temp)
    {
      SourceBelow(at, b, start, length);
      if length != 0 {
        var mc := CopySlice(Source(b, start, length), length, temp);
        RoundUpIsNext(mc);
        MoveFreePointer(RoundUp(mc), temp);
      } else {
        MoveFreePointer(temp + WORD_LEN, temp);
      }
    }

    /** The slice routine.  A range past the end of the array reverts; the range is checked on a sum that
        wraps around, so a slice may begin before its array, or be so long that nothing is copied and only
        its length is written.  Otherwise the result starts at the free pointer.  A non-empty slice is
        copied there word by word, so that the last word ends exactly with the slice, and the first word
        spills into the length word, which is written last.  For an empty slice no length is written: the
        result is empty only if the word at the free pointer happens to be zero. */
    method Slice(b: nat, start: uint256, length: uint256) returns (r: Option<nat>)
      requires SliceReady(at, b)
      modifies this
      ensures start + length < TWO256 ==> (r.Some? <==> start + length <= Load(old(at), b))
      ensures start + length >= TWO256 ==>
                (r.Some? <==> WrappedTaken(old(at), Load(old(at), FREE_SLOT), b, start, length))
      ensures r == None ==> at == old(at)
      ensures r.Some? ==> r.value == Load(old(at), 0x40) && KeptBelow(old(at), at, r.value)
      ensures r.Some? && start + length < TWO256 ==> PlainSlice(old(at), at, r.value, b, start, length)
      ensures r.Some? && start + length >= TWO256 ==> WrappedSlice(old(at), at, r.value, b, start, length)
    {
      TakenExactly(at, b, start, length);
      if !SliceTaken(at, b, start, length) {
        return None;
      }
      var temp := Load(at, FREE_SLOT);
      if Skips(temp, length) {
        WriteLength(b, start, length, temp);
      } else {
        TakeSlice(b, start, length, temp);
      }
      return Some(temp);
    }

    /** Lay out an address at the free pointer as a byte array of length 20.  Only the last 12 bytes
        of the length word are written, so what comes out depends on the memory below them. */
    method LayOutAddress(self: Address) returns (b: nat)
      requires FREE_SLOT + WORD_LEN <= Load(at, FREE_SLOT) && Load(at, FREE_SLOT) + 52 < TWO256
      modifies this
      ensures b == Load(old(at), FREE_SLOT)
      ensures ArrayAt(at, b) == BigEndian(self, ADDRESS_LEN) <==> Value(Range(old(at), b, 20)) == 0
      ensures Load(at, FREE_SLOT) == b + 52
    {
      b := Load(at, FREE_SLOT);
      AddressLaidOut(at, b, self);
      at := Store(at, b + 20, BigEndian(AddressWord(self), WORD_LEN));
      MoveFreePointer(b + 52, b);
    }

    /** Set the free pointer; arrays above its slot stay as they are. */
    method MoveFreePointer(x: nat, temp: nat)
      requires x < TWO256 && FREE_SLOT + WORD_LEN <= temp
      modifies this
      ensures Load(at, FREE_SLOT) == x
      ensures Load(at, temp) == Load(old(at), temp) && ArrayAt(at, temp) == ArrayAt(old(at), temp)
      ensures forall a: nat {:trigger at(a)} :: !(FREE_SLOT <= a < FREE_SLOT + WORD_LEN) ==> at(a) == old(at)(a)
    {
      at := Store(at, FREE_SLOT, BigEndian(x, WORD_LEN));
      LoadStored(old(at), FREE_SLOT, x);
      StoreBeside(old(at), FREE_SLOT, BigEndian(x, WORD_LEN), temp, WORD_LEN);
      StoreBeside(old(at), FREE_SLOT, BigEndian(x, WORD_LEN), temp + WORD_LEN, Load(old(at), temp));
    }
  }
}
