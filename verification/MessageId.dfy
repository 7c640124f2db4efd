/** Identifiers of messages: what is posted on a queue, the keys under which a
    message is stored, and the serial numbers that tell messages apart. */
module MessageId {
  import opened Words

  const INVALID_MSGID: U64 := TWO_64 - 1

  const MAX_SERIAL: U64 := TWO_30 - 1

  /** `x` with the bit of weight `bit` set. */
  function SetBit(x: U64, bit: int): (r: int)
    requires bit == TWO_30 || bit == TWO_31
    ensures 0 <= r < TWO_64
  {
    if x / bit % 2 == 1 then x else x + bit
  }

  /** `high` and `low` cut to 32 bits and put side by side. */
  function Compose64(high: U64, low: U64): U64 {
    high % TWO_32 * TWO_32 + low % TWO_32
  }

  // ---------------------------------------------------------------------
  // What is posted on a queue

  datatype Composed = Composed(msgid: U64, number: U64, isAck: bool, isSuccess: bool)

  datatype Decoded = Invalid | Decoded(composed: Composed)

  /** The serial number with the acknowledgement bits. */
  function High(c: Composed): U64 {
    if !c.isAck then c.number
    else if c.isSuccess then SetBit(c.number, TWO_31)
    else SetBit(SetBit(c.number, TWO_31), TWO_30)
  }

  /** The word posted for a message, or for the acknowledgement of one. */
  function Compose(base: U64, c: Composed): U64 {
    Compose64(High(c), (c.msgid - base) % TWO_64)
  }

  function Decompose(base: U64, word: U64): Decoded {
    if word == INVALID_MSGID then Invalid
    else
      var high := word / TWO_32;
      var isAck := high / TWO_31 % 2 == 1;
      Decoded(Composed((base + word % TWO_32) % TWO_64, high % TWO_30, isAck, isAck && high / TWO_30 % 2 == 0))
  }

  /** The distance of a message queue's id from the base id of the group. */
  function Offset(base: U64, msgid: U64): U64 {
    (msgid - base) % TWO_64
  }

  /** Decomposing undoes composing exactly for ids less than 2^32 above the base
      and serial numbers in range, save for the one combination whose word is the
      invalid id. (A word that is no acknowledgement has no success flag.) */
  lemma DecomposeUndoesCompose(base: U64, c: Composed)
    ensures Decompose(base, Compose(base, c)) == Decoded(c)
       <==> Offset(base, c.msgid) < TWO_32 && c.number <= MAX_SERIAL && (c.isSuccess ==> c.isAck)
            && !(c.isAck && !c.isSuccess && c.number == MAX_SERIAL && Offset(base, c.msgid) == TWO_32 - 1)
  {
    hide High, Compose64, SetBit;
    var word, offset := Compose(base, c), Offset(base, c.msgid);
    WordParts(High(c), offset);
    if c.number <= MAX_SERIAL { HighParts(c); }
    OffsetBack(base, c.msgid);
  }

  lemma WordParts(high: U64, low: U64)
    ensures Compose64(high, low) / TWO_32 == high % TWO_32
    ensures Compose64(high, low) % TWO_32 == low % TWO_32
  {
  }

  /** The acknowledgement bits leave room for 30 bits of serial number. */
  lemma HighParts(c: Composed)
    requires c.number <= MAX_SERIAL
    ensures High(c) == c.number + if !c.isAck then 0 else if c.isSuccess then TWO_31 else TWO_31 + TWO_30
  {
  }

  /** The bits of a word: the offset of the queue's id, from bit 32 on the serial number,
      and at the top the flags of an acknowledgement and of failure. */
  lemma WordIs(base: U64, c: Composed)
    requires Offset(base, c.msgid) < TWO_32 && c.number <= MAX_SERIAL
    ensures Compose(base, c)
         == c.number * TWO_32 + (c.msgid - base) % TWO_64
            + if !c.isAck then 0 else if c.isSuccess then 0x8000_0000_0000_0000 else 0xC000_0000_0000_0000
  {
    hide High;
    HighParts(c);
  }

  lemma OffsetBack(base: U64, msgid: U64)
    ensures (base + Offset(base, msgid) % TWO_32) % TWO_64 == msgid <==> Offset(base, msgid) < TWO_32
  {
    var d := Offset(base, msgid);
    assert (base + d) % TWO_64 == msgid;
  }

  /** An id whose messages can be told from its acknowledgements, whatever their serial. */
  predicate Addressable(base: U64, msgid: U64) {
    msgid != INVALID_MSGID && Offset(base, msgid) < TWO_32 - 1
  }

  /** A data word, a success and a failure are never taken for one another, nor
      are two messages. */
  lemma WordsAreDistinct(base: U64, c: Composed, d: Composed)
    requires Addressable(base, c.msgid) && c.number <= MAX_SERIAL && (c.isSuccess ==> c.isAck)
    requires Addressable(base, d.msgid) && d.number <= MAX_SERIAL && (d.isSuccess ==> d.isAck)
    ensures Compose(base, c) == Compose(base, d) <==> c == d
  {
    DecomposeUndoesCompose(base, c);
    DecomposeUndoesCompose(base, d);
  }

  // ---------------------------------------------------------------------
  // Serial numbers

  /** The counter after one number was taken from it. */
  function NextSerial(serial: U64): U64 {
    if MAX_SERIAL < (serial + 1) % TWO_64 then 0 else (serial + 1) % TWO_64
  }

  /** The number taken after `n` others. */
  function SerialAt(seed: U64, n: nat): U64 {
    if n == 0 then seed else NextSerial(SerialAt(seed, n - 1))
  }

  lemma CountsOn(x: nat)
    ensures (x + 1) % TWO_30 == if x % TWO_30 == MAX_SERIAL then 0 else x % TWO_30 + 1
  {
    var q, r := x / TWO_30, x % TWO_30;
    assert x == q * TWO_30 + r;
  }

  lemma SameRemainder(x: nat, y: nat)
    requires x <= y
    ensures x % TWO_30 == y % TWO_30 <==> (y - x) % TWO_30 == 0
  {
    assert x == x / TWO_30 * TWO_30 + x % TWO_30;
    assert y == y / TWO_30 * TWO_30 + y % TWO_30;
    assert y - x == (y - x) / TWO_30 * TWO_30 + (y - x) % TWO_30;
  }

  /** From a seed in range the counter never leaves its range; it counts modulo 2^30. */
  lemma {:induction false} SerialCounts(seed: U64, n: nat)
    requires seed <= MAX_SERIAL
    ensures SerialAt(seed, n) == (seed + n) % TWO_30
    ensures SerialAt(seed, n) <= MAX_SERIAL
  {
    if n > 0 {
      SerialCounts(seed, n - 1);
      CountsOn(seed + n - 1);
    }
  }

  /** Two numbers of one counter are equal exactly when a multiple of 2^30 lies
      between them; so any 2^30 consecutive ones are distinct, and no more. */
  lemma SerialsRepeat(seed: U64, i: nat, j: nat)
    requires seed <= MAX_SERIAL && i <= j
    ensures SerialAt(seed, i) == SerialAt(seed, j) <==> (j - i) % TWO_30 == 0
  {
    hide SerialAt;
    SerialCounts(seed, i);
    SerialCounts(seed, j);
    SameRemainder(seed + i, seed + j);
  }

  /** A seed taken from the nanoseconds of a clock lies in range. */
  lemma ClockSeedInRange(nanoseconds: nat)
    requires nanoseconds < 1_000_000_000
    ensures nanoseconds % TWO_32 == nanoseconds <= MAX_SERIAL
  {
  }

  // ---------------------------------------------------------------------
  // Store keys

  function HexDigit(d: nat): char
    requires d < 16
  {
    "0123456789abcdef"[d]
  }

  /** `n` hexadecimal digits of `x`, most significant first. */
  function Hex(x: nat, n: nat): (s: string)
    ensures |s| == n
    decreases n
  {
    if n == 0 then [] else Hex(x / 16, n - 1) + [HexDigit(x % 16)]
  }

  function Pow16(n: nat): nat {
    if n == 0 then 1 else 16 * Pow16(n - 1)
  }

  function DigitValue(c: char): int {
    if c <= '9' then c as int - '0' as int else c as int - 'a' as int + 10
  }

  /** What hexadecimal text stands for. */
  function HexValue(s: string): int {
    if s == [] then 0 else 16 * HexValue(s[..|s| - 1]) + DigitValue(s[|s| - 1])
  }

  lemma {:induction false} HexReadsBack(x: nat, n: nat)
    requires x < Pow16(n)
    ensures HexValue(Hex(x, n)) == x
    decreases n
  {
    if n > 0 {
      var s := Hex(x, n);
      assert s[..n - 1] == Hex(x / 16, n - 1);
      HexReadsBack(x / 16, n - 1);
    }
  }

  lemma HexIsInjective(x: nat, y: nat, n: nat)
    requires x < Pow16(n) && y < Pow16(n) && Hex(x, n) == Hex(y, n)
    ensures x == y
  {
    HexReadsBack(x, n);
    HexReadsBack(y, n);
  }

  /** What identifies a message: the queue it leaves from, the queue it goes to,
      and its serial number. */
  datatype Id = Id(dept: U64, term: U64, serial: U64)

  datatype Key = HeadKey(id: Id) | BodyKey(id: Id)

  function KeyName(k: Key): string {
    Hex(k.id.dept, 16) + "-" + Hex(k.id.term, 16) + "-" + Hex(k.id.serial, 16)
    + if k.HeadKey? then ".HEAD" else ".BODY"
  }

  datatype KeyNames = NoKeys | KeyNames(head: string, body: string)

  /** The names of a message's two entries in the store. */
  function MakeKeys(id: Id): KeyNames {
    if id.dept == INVALID_MSGID || id.term == INVALID_MSGID then NoKeys
    else KeyNames(KeyName(HeadKey(id)), KeyName(BodyKey(id)))
  }

  lemma PowersOf16()
    ensures Pow16(16) == TWO_64
  {
    assert Pow16(4) == 0x1_0000;
    assert Pow16(8) == 0x1_0000_0000;
    assert Pow16(12) == 0x1_0000_0000_0000;
  }

  /** The names are the three numbers in 16 digits each, and what the entry holds. */
  lemma KeyNamesAre(id: Id)
    requires id.dept != INVALID_MSGID && id.term != INVALID_MSGID
    ensures var names := MakeKeys(id);
            && names.KeyNames? && |names.head| == |names.body| == 55 && names.head[..50] == names.body[..50]
            && HexValue(names.head[..16]) == id.dept && HexValue(names.head[17..33]) == id.term
            && HexValue(names.head[34..50]) == id.serial
            && names.head[16] == names.head[33] == '-' && names.head[50..] == ".HEAD" && names.body[50..] == ".BODY"
  {
    hide Hex, HexValue;
    PowersOf16();
    HexReadsBack(id.dept, 16);
    HexReadsBack(id.term, 16);
    HexReadsBack(id.serial, 16);
    var names := MakeKeys(id);
    assert names.head[..16] == Hex(id.dept, 16);
    assert names.head[17..33] == Hex(id.term, 16);
    assert names.head[34..50] == Hex(id.serial, 16);
    assert |".HEAD"| == 5 && |".BODY"| == 5;
  }

  lemma SameParts(a: string, u: string, b: string, v: string)
    requires |a| == |b| && a + u == b + v
    ensures a == b && u == v
  {
    assert (a + u)[..|a|] == a && (a + u)[|a|..] == u;
    assert (b + v)[..|b|] == b && (b + v)[|b|..] == v;
  }

  /** No two entries share a name. */
  lemma KeyNamesAreDistinct(k: Key, l: Key)
    ensures KeyName(k) == KeyName(l) <==> k == l
  {
    hide Hex;
    if KeyName(k) == KeyName(l) {
      var i, j := k.id, l.id;
      var terms, terms' := Hex(i.dept, 16) + "-" + Hex(i.term, 16), Hex(j.dept, 16) + "-" + Hex(j.term, 16);
      var all, all' := terms + "-" + Hex(i.serial, 16), terms' + "-" + Hex(j.serial, 16);
      SameParts(all, if k.HeadKey? then ".HEAD" else ".BODY", all', if l.HeadKey? then ".HEAD" else ".BODY");
      SameParts(terms + "-", Hex(i.serial, 16), terms' + "-", Hex(j.serial, 16));
      SameParts(terms, "-", terms', "-");
      SameParts(Hex(i.dept, 16) + "-", Hex(i.term, 16), Hex(j.dept, 16) + "-", Hex(j.term, 16));
      SameParts(Hex(i.dept, 16), "-", Hex(j.dept, 16), "-");
      PowersOf16();
      HexIsInjective(i.dept, j.dept, 16);
      HexIsInjective(i.term, j.term, 16);
      HexIsInjective(i.serial, j.serial, 16);
      assert ".HEAD"[1] != ".BODY"[1];
    }
  }
}
