/** Keys and values in one buffer: each is a length of 8 bytes and then its bytes. */
module KeyValueCodec {
  import opened Words

  type byte = x: int | 0 <= x < 256

  /** The size of a length, sizeof(size_t). */
  const WORD := 8

  // ---------------------------------------------------------------------
  // Lengths

  function Pow256(n: nat): nat {
    if n == 0 then 1 else 256 * Pow256(n - 1)
  }

  /** `n` as `k` bytes, the most significant first or last. */
  function Bytes(n: nat, k: nat, big: bool): (s: seq<byte>)
    ensures |s| == k
  {
    if k == 0 then []
    else if big then Bytes(n / 256, k - 1, big) + [n % 256]
    else [n % 256] + Bytes(n / 256, k - 1, big)
  }

  function Number(s: seq<byte>, big: bool): nat {
    if s == [] then 0
    else if big then Number(s[..|s| - 1], big) * 256 + s[|s| - 1]
    else s[0] + 256 * Number(s[1..], big)
  }

  lemma {:induction false} NumberOfBytes(n: nat, k: nat, big: bool)
    requires n < Pow256(k)
    ensures Number(Bytes(n, k, big), big) == n
  {
    if k > 0 {
      NumberOfBytes(n / 256, k - 1, big);
      var s := Bytes(n, k, big);
      if big {
        assert s[..|s| - 1] == Bytes(n / 256, k - 1, big);
      } else {
        assert s[1..] == Bytes(n / 256, k - 1, big);
      }
    }
  }

  /** A length in the byte order of the network (big) or of a host. */
  function Word(n: nat, big: bool): (s: seq<byte>)
    ensures |s| == WORD
  {
    Bytes(n, WORD, big)
  }

  lemma WordReadsBack(n: nat, big: bool)
    requires n < TWO_64
    ensures Number(Word(n, big), big) == n
  {
    assert Pow256(4) == 0x1_0000_0000;
    NumberOfBytes(n, WORD, big);
  }

  lemma Multiples(d: nat, z: int)
    requires 0 < d
    ensures 0 < z ==> d <= d * z
    ensures z < 0 ==> d * z + d <= 0
  {
    if 0 < z {
      assert 0 <= d * (z - 1);
    } else if z < 0 {
      assert 0 <= d * (-1 - z);
    }
  }

  lemma QuotientIs(n: nat, d: nat, q: nat, r: nat)
    requires 0 < d && n == d * q + r && r < d
    ensures n / d == q
  {
    Multiples(d, n / d - q);
    assert d * (n / d - q) == d * (n / d) - d * q;
  }

  lemma DivTwice(n: nat, b: nat)
    requires 0 < b
    ensures n / 256 / b == n / (256 * b)
  {
    var q, s := n / 256 / b, n / 256 % b;
    assert n / 256 == b * q + s;
    assert (256 * b) * q == 256 * (b * q);
    QuotientIs(n, 256 * b, q, 256 * s + n % 256);
  }

  lemma {:induction false} PowPositive(k: nat)
    ensures 0 < Pow256(k)
  {
    if k > 0 {
      PowPositive(k - 1);
    }
  }

  /** The digit of each place to the base 256. */
  lemma {:induction false} ByteAt(n: nat, k: nat, big: bool, i: nat)
    requires i < k
    ensures var place := if big then k - 1 - i else i;
            0 < Pow256(place) && Bytes(n, k, big)[i] == n / Pow256(place) % 256
    decreases k
  {
    var place := if big then k - 1 - i else i;
    PowPositive(place);
    if place > 0 {
      ByteAt(n / 256, k - 1, big, if big then i else i - 1);
      DivTwice(n, Pow256(place - 1));
    }
  }

  /** In the byte order of the network the most significant byte of a length comes first,
      otherwise the least significant one. */
  lemma WordBytes(n: nat, i: nat)
    requires i < WORD
    ensures 0 < Pow256(7 - i) && Word(n, true)[i] == n / Pow256(7 - i) % 256
    ensures 0 < Pow256(i) && Word(n, false)[i] == n / Pow256(i) % 256
  {
    ByteAt(n, WORD, true, i);
    ByteAt(n, WORD, false, i);
  }

  // ---------------------------------------------------------------------
  // One item, and two

  function PutItem(item: seq<byte>, big: bool): seq<byte> {
    Word(|item|, big) + item
  }

  lemma ItemLength(item: seq<byte>, big: bool)
    ensures |PutItem(item, big)| == WORD + |item|
  {
  }

  function PutPair(key: seq<byte>, value: seq<byte>, big: bool): seq<byte> {
    PutItem(key, big) + PutItem(value, big)
  }

  /** The buffer byte by byte: the key comes first, each item after its length, and each
      length with its most significant byte first in the byte order of the network. */
  lemma PairBytes(key: seq<byte>, value: seq<byte>, big: bool, i: nat)
    requires i < 8
    ensures var s, unit := PutPair(key, value, big), Pow256(if big then 7 - i else i);
            && |s| == 16 + |key| + |value| && s[8..8 + |key|] == key && s[16 + |key|..] == value
            && 0 < unit && s[i] == |key| / unit % 256 && s[8 + |key| + i] == |value| / unit % 256
  {
    hide Word;
    WordBytes(|key|, i);
    WordBytes(|value|, i);
  }

  /** Whether the length at `pos`, and as many bytes as it says, lie within the buffer. */
  predicate Fits(s: seq<byte>, pos: nat, big: bool) {
    pos + WORD <= |s| && pos + WORD + Number(s[pos..pos + WORD], big) <= |s|
  }

  function ItemAt(s: seq<byte>, pos: nat, big: bool): seq<byte>
    requires Fits(s, pos, big)
  {
    s[pos + WORD..pos + WORD + Number(s[pos..pos + WORD], big)]
  }

  predicate PairFits(s: seq<byte>, big: bool) {
    Fits(s, 0, big) && Fits(s, WORD + |ItemAt(s, 0, big)|, big)
  }

  function KeyOf(s: seq<byte>, big: bool): seq<byte>
    requires Fits(s, 0, big)
  {
    ItemAt(s, 0, big)
  }

  function ValueOf(s: seq<byte>, big: bool): seq<byte>
    requires PairFits(s, big)
  {
    ItemAt(s, WORD + |ItemAt(s, 0, big)|, big)
  }

  lemma ItemReadsBack(before: seq<byte>, item: seq<byte>, after: seq<byte>, big: bool)
    requires |item| < TWO_64
    ensures var s := before + PutItem(item, big) + after;
            Fits(s, |before|, big) && ItemAt(s, |before|, big) == item
  {
    hide Word, Number;
    var s, pos := before + PutItem(item, big) + after, |before|;
    WordReadsBack(|item|, big);
    assert s[pos..pos + WORD] == Word(|item|, big);
    assert s[pos + WORD..pos + WORD + |item|] == item;
  }

  /** What was put is read back in the same byte order, whatever follows it. */
  lemma PairReadsBack(key: seq<byte>, value: seq<byte>, after: seq<byte>, big: bool)
    requires |key| < TWO_64 && |value| < TWO_64
    ensures var s := PutPair(key, value, big) + after;
            PairFits(s, big) && KeyOf(s, big) == key && ValueOf(s, big) == value
  {
    hide Word, Number, Fits, ItemAt;
    var s := PutPair(key, value, big) + after;
    ItemReadsBack([], key, PutItem(value, big) + after, big);
    ItemReadsBack(PutItem(key, big), value, after, big);
    assert [] + PutItem(key, big) + (PutItem(value, big) + after) == s;
    assert PutItem(key, big) + PutItem(value, big) + after == s;
  }

  /** No encoded pair is the beginning of another. */
  lemma PairsAreToldApart(key: seq<byte>, value: seq<byte>, after: seq<byte>, key': seq<byte>, value': seq<byte>,
                          after': seq<byte>,
                          big: bool)
    requires |key| < TWO_64 && |value| < TWO_64 && |key'| < TWO_64 && |value'| < TWO_64
    requires PutPair(key, value, big) + after == PutPair(key', value', big) + after'
    ensures key == key' && value == value' && after == after'
  {
    hide KeyOf, ValueOf, PairFits, Word;
    PairReadsBack(key, value, after, big);
    PairReadsBack(key', value', after', big);
    var n := |PutPair(key, value, big)|;
    assert (PutPair(key, value, big) + after)[n..] == after;
    assert (PutPair(key', value', big) + after')[n..] == after';
  }

  lemma DigitOnTop(x: nat, d: nat)
    requires d < 256
    ensures (x * 256 + d) / 256 == x && (x * 256 + d) % 256 == d
  {
  }

  lemma BytesOne(x: nat, d: byte, k: nat, big: bool)
    ensures Bytes(x * 256 + d, k + 1, big) == if big then Bytes(x, k, big) + [d] else [d] + Bytes(x, k, big)
  {
    DigitOnTop(x, d);
  }

  lemma {:induction false} BytesOfNumber(s: seq<byte>, big: bool)
    ensures Bytes(Number(s, big), |s|, big) == s
    decreases |s|
  {
    hide Bytes;
    if s == [] {
      assert |Bytes(0, 0, big)| == 0;
    } else if big {
      var front, last := s[..|s| - 1], s[|s| - 1];
      BytesOfNumber(front, big);
      BytesOne(Number(front, big), last, |front|, big);
      assert s == front + [last];
    } else {
      BytesOfNumber(s[1..], big);
      BytesOne(Number(s[1..], big), s[0], |s[1..]|, big);
      assert s == [s[0]] + s[1..];
    }
  }

  /** A length read in the wrong byte order comes out right exactly when its bytes read
      the same from both ends. */
  lemma WrongOrderReadsBackWhen(n: nat, big: bool)
    requires n < TWO_64
    ensures Number(Word(n, big), !big) == n <==> Word(n, big) == Word(n, !big)
  {
    hide Bytes, Number;
    BytesOfNumber(Word(n, big), !big);
    WordReadsBack(n, !big);
  }

  // ---------------------------------------------------------------------
  // The functions of the C interface

  /** A buffer's bytes with `src` written over them from `pos` on. */
  function Written(s: seq<byte>, pos: nat, src: seq<byte>): (r: seq<byte>)
    requires pos + |src| <= |s|
    ensures |r| == |s|
  {
    s[..pos] + src + s[pos + |src|..]
  }

  lemma WrittenTwice(s: seq<byte>, pos: nat, a: seq<byte>, b: seq<byte>)
    requires pos + |a| + |b| <= |s|
    ensures Written(Written(s, pos, a), pos + |a|, b) == Written(s, pos, a + b)
  {
  }

  /** An empty item is its length only. */
  lemma EmptyItem(a: seq<byte>, item: seq<byte>)
    requires item == []
    ensures a + item == a
  {
  }

  lemma WrittenOver(s: seq<byte>, src: seq<byte>)
    requires |s| == |src|
    ensures Written(s, 0, src) == src
  {
  }

  method CopyInto(dst: array<byte>, pos: nat, src: seq<byte>)
    requires pos + |src| <= dst.Length
    modifies dst
    ensures dst[..] == Written(old(dst[..]), pos, src)
  {
    var i := 0;
    while i < |src|
      invariant 0 <= i <= |src|
      invariant forall k :: 0 <= k < dst.Length && !(pos <= k < pos + i) ==> dst[k] == old(dst[k])
      invariant forall k :: 0 <= k < i ==> dst[pos + k] == src[k]
    {
      dst[pos + i] := src[i];
      i := i + 1;
    }
  }

  method CvtKvpBin(key: seq<byte>, value: seq<byte>) returns (r: array<byte>)
    requires |key| + |value| + 2 * WORD < TWO_64
    ensures fresh(r) && r[..] == PutPair(key, value, true)
  {
    hide Word, Written;
    r := new byte[|key| + |value| + 2 * WORD];
    ghost var s := r[..];
    var setpos := 0;
    CopyInto(r, setpos, Word(|key|, true));
    setpos := setpos + WORD;
    if 0 < |key| {
      CopyInto(r, setpos, key);
      setpos := setpos + |key|;
      WrittenTwice(s, 0, Word(|key|, true), key);
    } else {
      EmptyItem(Word(|key|, true), key);
    }
    assert r[..] == Written(s, 0, PutItem(key, true));
    CopyInto(r, setpos, Word(|value|, true));
    WrittenTwice(s, 0, PutItem(key, true), Word(|value|, true));
    setpos := setpos + WORD;
    if 0 < |value| {
      CopyInto(r, setpos, value);
      WrittenTwice(s, 0, PutItem(key, true) + Word(|value|, true), value);
    } else {
      EmptyItem(PutItem(key, true) + Word(|value|, true), value);
    }
    assert PutItem(key, true) + Word(|value|, true) + value == PutPair(key, value, true);
    WrittenOver(s, PutPair(key, value, true));
  }

  /** Where an item lies in a buffer; an empty one lies nowhere. */
  datatype Slice = Slice(start: nat, length: nat)

  function SliceOf(s: seq<byte>, x: Slice): seq<byte>
    requires x.start + x.length <= |s|
  {
    s[x.start..x.start + x.length]
  }

  /** Where the second length is read: positions wrap around like any size. */
  function SecondAt(all: seq<byte>): nat
    requires WORD <= |all|
  {
    (WORD + Number(all[..WORD], true)) % TWO_64
  }

  function SliceAt(start: nat, length: nat): Slice {
    if length == 0 then Slice(0, 0) else Slice(start, length)
  }

  function FoundKey(all: seq<byte>): Slice
    requires WORD <= |all|
  {
    SliceAt(WORD, Number(all[..WORD], true))
  }

  function FoundValue(all: seq<byte>): Slice
    requires WORD <= |all| && SecondAt(all) + WORD <= |all|
  {
    SliceAt((SecondAt(all) + WORD) % TWO_64, Number(all[SecondAt(all)..SecondAt(all) + WORD], true))
  }

  /** The lengths in a buffer are taken as they are, whether or not the buffer is that long:
      the second one is read wherever the first says, so long as there is memory there.
      The buffer is the first `length` bytes of `memory`. */
  method CvtBinKvp(memory: array<byte>, length: U64) returns (ok: bool, key: Slice, value: Slice)
    requires length <= memory.Length
    requires length < 2 * WORD || SecondAt(memory[..]) + WORD <= memory.Length
    ensures ok == (2 * WORD <= length)
    ensures ok ==> key == FoundKey(memory[..]) && value == FoundValue(memory[..])
    // of a buffer that holds both, they are the key and the value
    ensures PairFits(memory[..length], true) ==>
              && ok && key.start + key.length <= length && value.start + value.length <= length
              && SliceOf(memory[..length], key) == KeyOf(memory[..length], true)
              && SliceOf(memory[..length], value) == ValueOf(memory[..length], true)
  {
    hide Number, PairFits, KeyOf, ValueOf, FoundKey, FoundValue, SecondAt, SliceOf;
    key, value := Slice(0, 0), Slice(0, 0);
    if length < 2 * WORD {
      TooShortForPair(memory[..length]);
      return false, key, value;
    }
    assert memory[..][..length] == memory[..length];
    if PairFits(memory[..length], true) {
      FoundInPair(memory[..], length);
    }
    FoundFrom(memory[..]);
    var readpos := 0;
    assert memory[0..WORD] == memory[..][..WORD];
    var n := Number(memory[readpos..readpos + WORD], true);
    readpos := readpos + WORD;
    if 0 < n {
      key := Slice(readpos, n);
      readpos := (readpos + n) % TWO_64;
    }
    assert memory[readpos..readpos + WORD] == memory[..][readpos..readpos + WORD];
    n := Number(memory[readpos..readpos + WORD], true);
    readpos := (readpos + WORD) % TWO_64;
    if 0 < n {
      value := Slice(readpos, n);
    }
    ok := true;
  }

  lemma FoundFrom(all: seq<byte>)
    requires WORD <= |all| && SecondAt(all) + WORD <= |all|
    ensures var n := Number(all[..WORD], true);
            SecondAt(all) == (if n == 0 then WORD else (WORD + n) % TWO_64) && FoundKey(all) == SliceAt(WORD, n)
    ensures var second := SecondAt(all);
            FoundValue(all) == SliceAt((second + WORD) % TWO_64, Number(all[second..second + WORD], true))
  {
    hide Number;
  }

  lemma TooShortForPair(s: seq<byte>)
    requires |s| < 2 * WORD
    ensures !PairFits(s, true)
  {
    hide Number;
  }

  lemma FoundInPair(all: seq<byte>, length: U64)
    requires length <= |all| && PairFits(all[..length], true)
    ensures SecondAt(all) + WORD <= |all|
    ensures var s, key, value := all[..length], FoundKey(all), FoundValue(all);
            && key.start + key.length <= length && SliceOf(s, key) == KeyOf(s, true)
            && value.start + value.length <= length && SliceOf(s, value) == ValueOf(s, true)
  {
    hide Number;
    var s := all[..length];
    assert s[0..WORD] == all[..WORD];
    var second := WORD + |KeyOf(s, true)|;
    assert s[second..second + WORD] == all[second..second + WORD];
  }

  /** So the pair that CvtKvpBin has put into a buffer is what CvtBinKvp finds in it,
      whatever follows. */
  lemma PairComesBack(all: seq<byte>, length: U64, key: seq<byte>, value: seq<byte>)
    requires length <= |all| && |key| < TWO_64 && |value| < TWO_64 && PutPair(key, value, true) <= all[..length]
    ensures 2 * WORD <= length && SecondAt(all) + WORD <= |all|
    ensures var s, k, v := all[..length], FoundKey(all), FoundValue(all);
            && k.start + k.length <= length && SliceOf(s, k) == key
            && v.start + v.length <= length && SliceOf(s, v) == value
  {
    hide Number, Word, PairFits, FoundKey, FoundValue, SecondAt, KeyOf, ValueOf;
    var s, n := all[..length], |PutPair(key, value, true)|;
    assert s == PutPair(key, value, true) + s[n..];
    PairReadsBack(key, value, s[n..], true);
    FoundInPair(all, length);
  }

  function MakeKvpHash(key: seq<byte>, hash: seq<byte> -> nat): nat {
    if key == [] then 0 else hash(key)
  }

  // ---------------------------------------------------------------------
  // The classes

  class ChmBinData {
    const hostBig: bool          // the byte order of this host
    var data: array?<byte>       // the buffer the bytes lie in, its own or another's
    var start: nat
    var length: nat
    var isAllocate: bool

    ghost predicate Valid()
      reads this
    {
      if length == 0 then data == null else data != null && start + length <= data.Length
    }

    ghost function Contents(): seq<byte>
      reads this, data
      requires Valid()
    {
      if data == null then [] else data[start..start + length]
    }

    constructor (hostBig: bool)
      ensures Valid() && Contents() == [] && this.hostBig == hostBig
    {
      this.hostBig := hostBig;
      data, start, length, isAllocate := null, 0, 0, false;
    }

    method Clear()
      modifies this
      ensures Valid() && Contents() == [] && data == null && !isAllocate
    {
      data, start, length, isAllocate := null, 0, 0, false;
    }

    /** Takes an item given by pointer and length; an empty one is refused. */
    method Set(bin: array?<byte>, from: nat, binLength: nat, duplicate: bool) returns (ok: bool)
      requires bin != null ==> from + binLength <= bin.Length
      modifies this
      ensures Valid() && ok == (bin != null && 0 < binLength)
      ensures Contents() == if ok then bin[from..from + binLength] else []
    {
      Clear();
      if bin == null || binLength == 0 {
        return false;
      }
      if duplicate {
        var copy := new byte[binLength];
        CopyInto(copy, 0, bin[from..from + binLength]);
        WrittenOver(copy[..], bin[from..from + binLength]);
        data, start, length, isAllocate := copy, 0, binLength, true;
        assert copy[0..0 + binLength] == copy[..];
      } else {
        data, start, length := bin, from, binLength;
      }
      ok := true;
    }

    method Load(buffer: array?<byte>, pos: nat, ntoh: bool, duplicate: bool) returns (ok: bool)
      requires buffer != null ==> Fits(buffer[..], pos, ntoh || hostBig)
      modifies this
      ensures ok && Valid()
      ensures Contents() == if buffer == null then [] else ItemAt(buffer[..], pos, ntoh || hostBig)
      ensures data == null || if duplicate then fresh(data) else data == buffer
      ensures isAllocate == (duplicate && data != null)
    {
      hide Number;
      Clear();
      if buffer == null {
        return true;
      }
      ghost var all := buffer[..];
      assert all[pos..pos + WORD] == buffer[pos..pos + WORD];
      length := Number(buffer[pos..pos + WORD], ntoh || hostBig);
      if 0 < length {
        if duplicate {
          var copy := new byte[length];
          assert all[pos + WORD..pos + WORD + length] == buffer[pos + WORD..pos + WORD + length];
          CopyInto(copy, 0, buffer[pos + WORD..pos + WORD + length]);
          data, start, isAllocate := copy, 0, true;
          assert copy[0..0 + length] == copy[..];
        } else {
          data, start := buffer, pos + WORD;
        }
      }
      ok := true;
    }

    method PutAt(buffer: array<byte>, pos: nat, hton: bool)
      requires Valid() && buffer != data && pos + WORD + |Contents()| <= buffer.Length
      modifies buffer
      ensures buffer[..] == Written(old(buffer[..]), pos, PutItem(Contents(), hton || hostBig))
    {
      hide Word, Written;
      ghost var was := buffer[..];
      var big := hton || hostBig;
      CopyInto(buffer, pos, Word(length, big));
      if 0 < length {
        CopyInto(buffer, pos + WORD, data[start..start + length]);
        WrittenTwice(was, pos, Word(length, big), data[start..start + length]);
      } else {
        EmptyItem(Word(length, big), Contents());
      }
    }

    function GetHash(hash: seq<byte> -> nat): nat
      reads this, data
      requires Valid()
    {
      if data == null || length == 0 then 0 else hash(data[start..start + length])
    }
  }

  class ChmKVPair {
    const key: ChmBinData
    const value: ChmBinData

    ghost predicate Valid()
      reads this, key, value
    {
      key != value && key.hostBig == value.hostBig && key.Valid() && value.Valid()
    }

    constructor (hostBig: bool)
      ensures Valid() && key.hostBig == hostBig && fresh(key) && fresh(value)
      ensures key.Contents() == [] && value.Contents() == []
    {
      key := new ChmBinData(hostBig);
      value := new ChmBinData(hostBig);
    }

    /** Takes a pair given by pointers and lengths. A pair without a value is refused,
        although its key has been taken; without a key the value stays as it was. */
    method Set(keyBin: array?<byte>, keyLength: nat, valueBin: array?<byte>, valueLength: nat, duplicate: bool)
      returns (ok: bool)
      requires Valid()
      requires keyBin != null ==> keyLength <= keyBin.Length
      requires valueBin != null ==> valueLength <= valueBin.Length
      modifies key, value
      ensures Valid()
      ensures var hasKey, hasValue := keyBin != null && 0 < keyLength, valueBin != null && 0 < valueLength;
              && ok == (hasKey && hasValue)
              && key.Contents() == (if hasKey then keyBin[..keyLength] else [])
              && value.Contents() == (if !hasKey then old(value.Contents())
                                       else if hasValue then valueBin[..valueLength] else [])
    {
      ok := key.Set(keyBin, 0, keyLength, duplicate);
      if ok {
        ok := value.Set(valueBin, 0, valueLength, duplicate);
      }
    }

    /** Takes a pair from the start of a buffer. */
    method Load(buffer: array?<byte>, ntoh: bool, duplicate: bool) returns (ok: bool)
      requires Valid()
      requires buffer != null ==> PairFits(buffer[..], ntoh || key.hostBig)
      modifies key, value
      ensures ok && Valid()
      ensures buffer == null ==> key.Contents() == [] && value.Contents() == []
      ensures buffer != null ==>
                && key.Contents() == KeyOf(buffer[..], ntoh || key.hostBig)
                && value.Contents() == ValueOf(buffer[..], ntoh || key.hostBig)
    {
      hide Number, Fits, ItemAt;
      ok := key.Load(buffer, 0, ntoh, duplicate);
      assert key.length == |key.Contents()|;
      ok := value.Load(buffer, if buffer == null then 0 else key.length + WORD, ntoh, duplicate);
    }

    /** Puts the pair into a buffer of its own. */
    method Put(hton: bool) returns (buffer: array<byte>)
      requires Valid()
      ensures Valid() && fresh(buffer)
      ensures buffer[..] == PutPair(key.Contents(), value.Contents(), hton || key.hostBig)
    {
      hide Word, Written, PutItem;
      ghost var k, v, big := key.Contents(), value.Contents(), hton || key.hostBig;
      assert |k| == key.length && |v| == value.length;
      ItemLength(k, big);
      ItemLength(v, big);
      buffer := new byte[key.length + value.length + 2 * WORD];
      ghost var s := buffer[..];
      key.PutAt(buffer, 0, hton);
      value.PutAt(buffer, key.length + WORD, hton);
      WrittenTwice(s, 0, PutItem(k, big), PutItem(v, big));
      WrittenOver(s, PutPair(k, v, big));
    }

    /** The hash of the key, as the C interface makes it. */
    function GetHash(hash: seq<byte> -> nat): (r: nat)
      reads this, key, key.data
      requires key.Valid()
      ensures r == MakeKvpHash(key.Contents(), hash)
    {
      key.GetHash(hash)
    }
  }
}
