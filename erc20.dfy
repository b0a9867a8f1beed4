/** ERC-20 `Transfer(from, to, value)` events (EIP-20, section "Events / Transfer") and how
    the gateway turns receipt logs into transfers. */
module Erc20 {
  import opened Wrappers
  import opened Js
  import opened Evm

  /** A decoded transfer, value in the token's smallest unit. */
  datatype Transfer = Transfer(from: AddressBytes, to: AddressBytes, value: nat)

  /** How an ABI fragment declares the Transfer event. The event signature is the same either
      way; what changes is where `value` is read from: EIP-20 declares `from` and `to`
      indexed (topics 1 and 2) and `value` not indexed (the data payload). */
  datatype TransferAbi = TransferAbi(valueIndexed: bool)

  /** `event Transfer(address indexed from, address indexed to, uint256 value)`. */
  const StandardTransfer: TransferAbi := TransferAbi(false)

  /** The fragment of the verifier, which declares `value` indexed as well. */
  const AllIndexedTransfer: TransferAbi := TransferAbi(true)

  /** keccak256("Transfer(address,address,uint256)"), the topic 0 of every Transfer log. */
  const TransferTopic: Word := [
    0xdd, 0xf2, 0x52, 0xad, 0x1b, 0xe2, 0xc8, 0x9b, 0x69, 0xc2, 0xb0, 0x68, 0xfc, 0x37, 0x8d, 0xaa,
    0x95, 0x2b, 0xa7, 0xf1, 0x63, 0xc4, 0xa1, 0x16, 0x28, 0xf5, 0x5a, 0x4d, 0xf5, 0x23, 0xb3, 0xef]

  function IndexedInputs(abi: TransferAbi): (n: nat) {
    if abi.valueIndexed then 3 else 2
  }

  /** Decoding one log against the Transfer fragment, as a partial function: None where the
      decoder throws and the caller skips the log. A log decodes when its topic 0 is the event
      signature and it has a topic for every indexed input (extra topics are ignored); a
      non-indexed `value` needs at least one 32-byte word of data. */
  function DecodeTransfer(abi: TransferAbi, log: Log): (r: Option<Transfer>)
    ensures r.Some? ==> |log.topics| > IndexedInputs(abi) && log.topics[0] == TransferTopic
    ensures r.Some? ==> r.value.value < Pow256(32)
    ensures r.Some? && !abi.valueIndexed ==> |log.data| >= 32
  {
    if |log.topics| <= IndexedInputs(abi) || log.topics[0] != TransferTopic then None
    else if abi.valueIndexed then
      BigEndianBound(log.topics[3]);
      Some(Transfer(WordAddress(log.topics[1]), WordAddress(log.topics[2]), BigEndian(log.topics[3])))
    else if |log.data| < 32 then None
    else
      BigEndianBound(log.data[..32]);
      Some(Transfer(WordAddress(log.topics[1]), WordAddress(log.topics[2]), BigEndian(log.data[..32])))
  }

  /** The log a token contract at `token` emits for `t` under EIP-20. */
  function TransferLog(token: string, t: Transfer): (l: Log)
    requires t.value < Pow256(32)
    ensures |l.topics| == 3 && |l.data| == 32
  {
    Log(token, [TransferTopic, AddressWord(t.from), AddressWord(t.to)], ToBigEndian(t.value, 32))
  }

  /** Decoding inverts the EIP-20 encoding. */
  lemma StandardDecodesTransferLog(token: string, t: Transfer)
    requires t.value < Pow256(32)
    ensures DecodeTransfer(StandardTransfer, TransferLog(token, t)) == Some(t)
  {
    var l := TransferLog(token, t);
    BigEndianOfEncoding(t.value, 32);
    assert l.data[..32] == l.data;
  }

  /** ... and the encoding inverts decoding on a log of exactly the EIP-20 shape. */
  lemma StandardTransferLogOfDecoded(l: Log)
    requires |l.topics| == 3 && |l.data| == 32 && l.topics[1][..12] == l.topics[2][..12] == seq(12, _ => 0)
    requires DecodeTransfer(StandardTransfer, l).Some?
    ensures TransferLog(l.address, DecodeTransfer(StandardTransfer, l).value) == l
  {
    var t := DecodeTransfer(StandardTransfer, l).value;
    EncodingOfBigEndian(l.data);
    assert l.data[..32] == l.data;
    assert AddressWord(t.from) == l.topics[1][..12] + l.topics[1][12..] == l.topics[1];
    assert AddressWord(t.to) == l.topics[2][..12] + l.topics[2][12..] == l.topics[2];
    assert l.topics == [TransferTopic, AddressWord(t.from), AddressWord(t.to)];
  }

  /** Under the all-indexed fragment no EIP-20 Transfer log decodes: it has one topic too few. */
  lemma AllIndexedRejectsTransferLog(token: string, t: Transfer)
    requires t.value < Pow256(32)
    ensures DecodeTransfer(AllIndexedTransfer, TransferLog(token, t)) == None
  {
  }

  /** `logs.filter(l => l.address.toLowerCase() === token.toLowerCase())`. */
  function TokenLogs(logs: seq<Log>, token: string): (r: seq<Log>)
    ensures |r| <= |logs|
    ensures forall l :: l in r <==> l in logs && SameAddress(l.address, token)
  {
    if logs == [] then []
    else (if SameAddress(logs[0].address, token) then [logs[0]] else []) + TokenLogs(logs[1..], token)
  }

  lemma {:induction false} TokenLogsAppend(a: seq<Log>, b: seq<Log>, token: string)
    ensures TokenLogs(a + b, token) == TokenLogs(a, token) + TokenLogs(b, token)
  {
    if a != [] {
      assert (a + b)[1..] == a[1..] + b;
      assert (a + b)[0] == a[0];
      TokenLogsAppend(a[1..], b, token);
    } else {
      assert a + b == b;
    }
  }

  /** Filtering against an already lower-cased address is the same filter. */
  lemma {:induction false} TokenLogsLowered(logs: seq<Log>, token: string)
    ensures TokenLogs(logs, Lower(token)) == TokenLogs(logs, token)
  {
    LowerIdempotent(token);
    if logs != [] {
      TokenLogsLowered(logs[1..], token);
    }
  }

  /** A receipt part with no log of the token contract filters to nothing. */
  lemma {:induction false} NoTokenLogs(logs: seq<Log>, token: string)
    requires forall l :: l in logs ==> !SameAddress(l.address, token)
    ensures TokenLogs(logs, token) == []
  {
    if logs != [] {
      assert logs[0] in logs;
      NoTokenLogs(logs[1..], token);
    }
  }

  /** The decoded transfers of the logs, in log order, undecodable logs skipped. */
  function Transfers(abi: TransferAbi, logs: seq<Log>): (r: seq<Transfer>)
    ensures |r| <= |logs|
    ensures forall t :: t in r <==> exists l :: l in logs && DecodeTransfer(abi, l) == Some(t)
  {
    if logs == [] then []
    else
      var rest := Transfers(abi, logs[1..]);
      assert forall l :: l in logs[1..] ==> l in logs;
      match DecodeTransfer(abi, logs[0])
      case Some(t) => [t] + rest
      case None => rest
  }

  lemma {:induction false} TransfersAppend(abi: TransferAbi, a: seq<Log>, b: seq<Log>)
    ensures Transfers(abi, a + b) == Transfers(abi, a) + Transfers(abi, b)
  {
    if a != [] {
      assert (a + b)[1..] == a[1..] + b;
      assert (a + b)[0] == a[0];
      TransfersAppend(abi, a[1..], b);
    } else {
      assert a + b == b;
    }
  }
}
