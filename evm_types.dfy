/** Value types of the EVM world that the mint-event processor reads: bytes,
    20-byte addresses, 32-byte words (log topics), Wei amounts bounded by
    2^256 - 1, and the event log itself. */
module EvmTypes {

  /** An unsigned byte. */
  type Byte = b: int | 0 <= b < 256

  /** A 20-byte account address. */
  type Address = s: seq<Byte> | |s| == 20 witness Zeros(20)

  /** A 32-byte word, the shape of every log topic. */
  type Word = s: seq<Byte> | |s| == 32 witness Zeros(32)

  /** `n` zero bytes. */
  function Zeros(n: nat): (z: seq<Byte>)
    ensures |z| == n && forall i :: 0 <= i < n ==> z[i] == 0
  {
    if n == 0 then [] else Zeros(n - 1) + [0]
  }

  /** The all-zero address (Address.ZERO). */
  const ZeroAddress: Address := Zeros(20)

  /** Largest value an unsigned 256-bit Wei amount or balance can hold. */
  const MaxWei: nat := 0xffff_ffff_ffff_ffff_ffff_ffff_ffff_ffff_ffff_ffff_ffff_ffff_ffff_ffff_ffff_ffff

  /** An unsigned 256-bit quantity of Wei. */
  type Wei = n: nat | n <= MaxWei

  datatype Option<T> = None | Some(value: T)

  datatype Result<T, E> = Ok(value: T) | Err(error: E)

  /** A log emitted during a transaction: the emitting contract (`logger`),
      its topics and its opaque data payload. */
  datatype Log = Log(logger: Address, topics: seq<Word>, data: seq<Byte>)

  function Pow256(k: nat): (p: nat)
    ensures p > 0
  {
    if k == 0 then 1 else 256 * Pow256(k - 1)
  }

  lemma {:induction false} Pow256Add(a: nat, b: nat)
    ensures Pow256(a + b) == Pow256(a) * Pow256(b)
  {
    if a > 0 {
      Pow256Add(a - 1, b);
    }
  }

  /** A 32-byte word holds exactly the values 0 .. MaxWei. */
  lemma Pow256Word()
    ensures Pow256(32) == MaxWei + 1
  {
    assert Pow256(4) == 0x1_0000_0000;
    Pow256Add(4, 4);
    Pow256Add(8, 8);
    Pow256Add(16, 16);
  }

  /** The unsigned big-endian value of a byte string (the first byte is the
      most significant). */
  function BigEndian(s: seq<Byte>): (n: nat)
    ensures n < Pow256(|s|)
  {
    if s == [] then 0 else BigEndian(s[..|s| - 1]) * 256 + s[|s| - 1]
  }

  /** The `len`-byte big-endian encoding of `n`, keeping its low `len` bytes
      (the ABI encoding of an unsigned integer when len is 32). */
  function ToBigEndian(n: nat, len: nat): (s: seq<Byte>)
    ensures |s| == len
  {
    if len == 0 then [] else ToBigEndian(n / 256, len - 1) + [n % 256]
  }

  /** Decoding an encoding gives back every value that fits in the width. */
  lemma {:induction false} BigEndianOfToBigEndian(n: nat, len: nat)
    requires n < Pow256(len)
    ensures BigEndian(ToBigEndian(n, len)) == n
  {
    if len > 0 {
      var s := ToBigEndian(n, len);
      assert s[..len - 1] == ToBigEndian(n / 256, len - 1);
      assert n / 256 < Pow256(len - 1);
      BigEndianOfToBigEndian(n / 256, len - 1);
    }
  }

  /** Encoding a decoded string at its own width gives back the string. */
  lemma {:induction false} ToBigEndianOfBigEndian(s: seq<Byte>)
    ensures ToBigEndian(BigEndian(s), |s|) == s
  {
    if s != [] {
      var init := s[..|s| - 1];
      var n := BigEndian(s);
      assert n / 256 == BigEndian(init);
      assert n % 256 == s[|s| - 1];
      ToBigEndianOfBigEndian(init);
      assert s == init + [s[|s| - 1]];
    }
  }

  /** A byte string reads as zero exactly when every byte is zero. */
  lemma {:induction false} BigEndianZeroIff(s: seq<Byte>)
    ensures BigEndian(s) == 0 <==> forall i :: 0 <= i < |s| ==> s[i] == 0
  {
    if s != [] {
      var init := s[..|s| - 1];
      BigEndianZeroIff(init);
      if BigEndian(s) == 0 {
        assert BigEndian(init) == 0 && s[|s| - 1] == 0;
        forall i | 0 <= i < |s| ensures s[i] == 0 {
          if i < |s| - 1 {
            assert s[i] == init[i];
          }
        }
      }
    }
  }

  /** The unsigned 256-bit value of a 32-byte payload (Wei.wrap). */
  function WordValue(data: seq<Byte>): (w: Wei)
    requires |data| == 32
    ensures w == 0 <==> forall i :: 0 <= i < 32 ==> data[i] == 0
    ensures ToBigEndian(w, 32) == data
  {
    Pow256Word();
    BigEndianZeroIff(data);
    ToBigEndianOfBigEndian(data);
    BigEndian(data)
  }

  /** The ABI encoding of a Wei amount as one 32-byte word. */
  function EncodeWei(w: Wei): (s: Word)
    ensures WordValue(s) == w
  {
    Pow256Word();
    BigEndianOfToBigEndian(w, 32);
    ToBigEndian(w, 32)
  }

  /** The address held by an indexed-address topic: its low 20 bytes
      (bytes 12 .. 32); the 12 high bytes are not inspected. */
  function TopicAddress(topic: Word): Address
  {
    topic[12..]
  }

  /** The ABI encoding of an indexed address: left-padded with 12 zero bytes. */
  function PadAddress(a: Address): (w: Word)
    ensures TopicAddress(w) == a
    ensures forall i :: 0 <= i < 12 ==> w[i] == 0
  {
    Zeros(12) + a
  }

  /** A topic whose 12 high bytes are zero is the padding of the address it
      holds: reading the address and padding it again gives the topic back. */
  lemma PadTopicAddress(t: Word)
    requires forall i :: 0 <= i < 12 ==> t[i] == 0
    ensures PadAddress(TopicAddress(t)) == t
  {
  }

  /** Reading an address ignores the padding: two topics that agree on their
      low 20 bytes name the same address, whatever their high bytes. */
  lemma TopicAddressIgnoresPadding(t1: Word, t2: Word)
    requires forall i :: 12 <= i < 32 ==> t1[i] == t2[i]
    ensures TopicAddress(t1) == TopicAddress(t2)
  {
  }
}
