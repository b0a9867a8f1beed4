/** Chain-level values: bytes, 32-byte words, big-endian integers, address text, and the
    transaction receipt with its event logs as the node returns it. */
module Evm {
  import opened Js

  type Byte = b: int | 0 <= b < 256

  /** One 32-byte EVM word (a log topic). */
  type Word = s: seq<Byte> | |s| == 32 witness seq(32, _ => 0)

  /** The 20 bytes of an account address. */
  type AddressBytes = s: seq<Byte> | |s| == 20 witness seq(20, _ => 0)

  function Pow256(k: nat): (p: nat)
    ensures p > 0
  {
    if k == 0 then 1 else 256 * Pow256(k - 1)
  }

  /** The unsigned integer a byte string denotes, most significant byte first. */
  function BigEndian(bs: seq<Byte>): (n: nat)
  {
    if bs == [] then 0 else BigEndian(bs[..|bs| - 1]) * 256 + bs[|bs| - 1]
  }

  lemma {:induction false} BigEndianBound(bs: seq<Byte>)
    ensures BigEndian(bs) < Pow256(|bs|)
  {
    if bs != [] {
      BigEndianBound(bs[..|bs| - 1]);
    }
  }

  /** The k-byte big-endian encoding of n (ABI encoding of an unsigned integer when k = 32). */
  function ToBigEndian(n: nat, k: nat): (bs: seq<Byte>)
    requires n < Pow256(k)
    ensures |bs| == k
  {
    if k == 0 then [] else ToBigEndian(n / 256, k - 1) + [n % 256]
  }

  lemma {:induction false} BigEndianOfEncoding(n: nat, k: nat)
    requires n < Pow256(k)
    ensures BigEndian(ToBigEndian(n, k)) == n
  {
    if k > 0 {
      var bs := ToBigEndian(n, k);
      assert bs[..k - 1] == ToBigEndian(n / 256, k - 1);
      BigEndianOfEncoding(n / 256, k - 1);
    }
  }

  lemma {:induction false} EncodingOfBigEndian(bs: seq<Byte>)
    ensures BigEndian(bs) < Pow256(|bs|)
    ensures ToBigEndian(BigEndian(bs), |bs|) == bs
  {
    BigEndianBound(bs);
    if bs != [] {
      var init := bs[..|bs| - 1];
      EncodingOfBigEndian(init);
      var n := BigEndian(bs);
      assert n / 256 == BigEndian(init) && n % 256 == bs[|bs| - 1];
      assert bs == init + [bs[|bs| - 1]];
    }
  }

  const HexDigits: string := "0123456789abcdef"

  /** Lower-case hexadecimal text of a byte string, two digits per byte. */
  function HexBytes(bs: seq<Byte>): (s: string)
    ensures |s| == 2 * |bs|
  {
    if bs == [] then "" else [HexDigits[bs[0] / 16], HexDigits[bs[0] % 16]] + HexBytes(bs[1..])
  }

  /** The `0x`-prefixed text of an address. viem renders decoded addresses with an EIP-55
      checksum (mixed case); every comparison in the core lower-cases first, so the
      lower-case rendering stands for it. */
  function AddressText(a: AddressBytes): (s: string)
    ensures |s| == 42
  {
    "0x" + HexBytes(a)
  }

  lemma {:induction false} HexBytesLower(bs: seq<Byte>)
    ensures Lower(HexBytes(bs)) == HexBytes(bs)
  {
    if bs != [] {
      HexBytesLower(bs[1..]);
      var h := HexBytes(bs);
      forall i | 0 <= i < |h| ensures LowerChar(h[i]) == h[i] {
        if i >= 2 {
          assert h[i] == HexBytes(bs[1..])[i - 2];
          assert LowerChar(HexBytes(bs[1..])[i - 2]) == Lower(HexBytes(bs[1..]))[i - 2];
        }
      }
    }
  }

  lemma HexDigitInjective(i: nat, j: nat)
    requires i < 16 && j < 16 && HexDigits[i] == HexDigits[j]
    ensures i == j
  {
  }

  lemma ByteFromDigits(x: Byte, y: Byte)
    requires x / 16 == y / 16 && x % 16 == y % 16
    ensures x == y
  {
    assert x == x / 16 * 16 + x % 16;
    assert y == y / 16 * 16 + y % 16;
  }

  lemma {:induction false} HexBytesInjective(a: seq<Byte>, b: seq<Byte>)
    requires |a| == |b|
    requires HexBytes(a) == HexBytes(b)
    ensures a == b
  {
    if a != [] {
      var ha, hb := HexBytes(a), HexBytes(b);
      assert ha[0] == hb[0] && ha[1] == hb[1];
      HexDigitInjective(a[0] / 16, b[0] / 16);
      HexDigitInjective(a[0] % 16, b[0] % 16);
      ByteFromDigits(a[0], b[0]);
      assert ha[2..] == HexBytes(a[1..]) && hb[2..] == HexBytes(b[1..]);
      HexBytesInjective(a[1..], b[1..]);
      assert a == [a[0]] + a[1..] && b == [b[0]] + b[1..];
    }
  }

  /** Two decoded addresses compare equal case-insensitively exactly when they are the
      same 20 bytes. */
  lemma AddressTextCanonical(a: AddressBytes, b: AddressBytes)
    ensures Lower(AddressText(a)) == AddressText(a)
    ensures SameAddress(AddressText(a), AddressText(b)) <==> a == b
  {
    HexBytesLower(a);
    HexBytesLower(b);
    var ta, tb := AddressText(a), AddressText(b);
    forall i | 0 <= i < 42 ensures LowerChar(ta[i]) == ta[i] && LowerChar(tb[i]) == tb[i] {
      if i >= 2 {
        assert LowerChar(HexBytes(a)[i - 2]) == Lower(HexBytes(a))[i - 2];
        assert LowerChar(HexBytes(b)[i - 2]) == Lower(HexBytes(b))[i - 2];
      }
    }
    assert Lower(ta) == ta && Lower(tb) == tb;
    if ta == tb {
      assert ta[2..] == HexBytes(a) && tb[2..] == HexBytes(b);
      HexBytesInjective(a, b);
    }
  }

  /** An address as an indexed topic: left-padded with twelve zero bytes. */
  function AddressWord(a: AddressBytes): (w: Word)
    ensures w[12..] == a
  {
    seq(12, _ => 0) + a
  }

  /** The address an indexed `address` topic denotes: its last 20 bytes. */
  function WordAddress(w: Word): (a: AddressBytes)
    ensures AddressWord(a)[12..] == w[12..]
  {
    w[12..]
  }

  /** One event log of a receipt: emitting contract, topics, data payload. */
  datatype Log = Log(address: string, topics: seq<Word>, data: seq<Byte>)

  /** viem reports a mined receipt's status as "success" or "reverted". */
  datatype TxStatus = Success | Reverted

  datatype Receipt = Receipt(status: TxStatus, logs: seq<Log>)

  /** The outcome of `getTransactionReceipt`: a receipt, or none (unknown hash, pending
      transaction, or a transport error). */
  datatype Lookup = Found(receipt: Receipt) | NotFound
}
