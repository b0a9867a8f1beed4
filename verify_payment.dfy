/** `verifyErc20TransferOnBase`: the single-transfer payment policy over a receipt. */
module VerifyPayment {
  import opened Wrappers
  import opened Js
  import opened Evm
  import opened Erc20

  /** `{ ok: true }` or `{ ok: false, reason }`. */
  datatype Verdict = Verified | Rejected(reason: string) {
    function Reason(): (r: Option<string>) {
      if Verified? then None else Some(reason)
    }
  }

  const MissingRpcUrl: string := "Missing BASE_RPC_URL"
  const TxNotFound: string := "Transaction not found"
  const TxFailed: string := "Transaction failed"
  const NoMatchingTransfer: string := "No matching USDC Transfer found"

  /** The caller's expectations; `minUnits` is the price in base units (6 decimals). */
  datatype VerifyArgs = VerifyArgs(
    expectedTo: string, expectedToken: string, minUnits: int, expectedFrom: Option<string>)

  /** The predicate handed to `transfers.find`: receiver matches, the sender matches when
      one is expected, and the value reaches the minimum. */
  predicate Matches(t: Transfer, args: VerifyArgs)
    ensures Matches(t, args) ==> Lower(args.expectedTo) == AddressText(t.to)
    ensures Matches(t, args) && Truthy(args.expectedFrom) ==> Lower(args.expectedFrom.value) == AddressText(t.from)
    ensures Matches(t, args) ==> t.value >= args.minUnits
    ensures && Lower(args.expectedTo) == AddressText(t.to)
            && (Truthy(args.expectedFrom) ==> Lower(args.expectedFrom.value) == AddressText(t.from))
            && t.value >= args.minUnits
            ==> Matches(t, args)
  {
    AddressTextCanonical(t.to, t.from);
    AddressTextCanonical(t.from, t.to);
    && SameAddress(AddressText(t.to), args.expectedTo)
    && (Truthy(args.expectedFrom) ==> SameAddress(AddressText(t.from), args.expectedFrom.value))
    && t.value >= args.minUnits
  }

  /** `Array.prototype.find`: the first matching transfer. */
  function FindMatch(ts: seq<Transfer>, args: VerifyArgs): (r: Option<Transfer>)
    ensures r.Some? ==> Matches(r.value, args)
    ensures r.Some? ==> exists i :: 0 <= i < |ts| && ts[i] == r.value && forall j :: 0 <= j < i ==> !Matches(ts[j], args)
    ensures r.None? <==> forall t :: t in ts ==> !Matches(t, args)
  {
    if ts == [] then None
    else if Matches(ts[0], args) then Some(ts[0])
    else
      var r := FindMatch(ts[1..], args);
      assert r.Some? ==> exists i :: 1 <= i < |ts| && ts[i] == r.value && forall j :: 0 <= j < i ==> !Matches(ts[j], args) by {
        if r.Some? {
          var i :| 0 <= i < |ts[1..]| && ts[1..][i] == r.value && forall j :: 0 <= j < i ==> !Matches(ts[1..][j], args);
          assert ts[i + 1] == r.value;
          forall j | 0 <= j < i + 1 ensures !Matches(ts[j], args) {
            if j > 0 { assert ts[j] == ts[1..][j - 1]; }
          }
        }
      }
      assert forall t :: t in ts ==> t == ts[0] || t in ts[1..];
      r
  }

  /** The verifier. `rpcUrl` is BASE_RPC_URL and `lookup` the outcome of fetching the
      receipt of the proof transaction through it. */
  function VerifyErc20TransferOnBase(abi: TransferAbi, rpcUrl: Option<string>, lookup: Lookup, args: VerifyArgs): (v: Verdict)
    ensures !Truthy(rpcUrl) ==> v == Rejected(MissingRpcUrl)
    ensures Truthy(rpcUrl) && lookup.NotFound? ==> v == Rejected(TxNotFound)
    ensures Truthy(rpcUrl) && lookup.Found? && lookup.receipt.status != Success ==> v == Rejected(TxFailed)
    ensures v.Verified? ==> lookup.Found? && lookup.receipt.status == Success
    ensures v.Rejected? ==> v.reason in {MissingRpcUrl, TxNotFound, TxFailed, NoMatchingTransfer}
  {
    if !Truthy(rpcUrl) then Rejected(MissingRpcUrl)
    else if lookup.NotFound? then Rejected(TxNotFound)
    else if lookup.receipt.status != Success then Rejected(TxFailed)
    else
      var tokenLogs := TokenLogs(lookup.receipt.logs, args.expectedToken);
      var transfers := Transfers(abi, tokenLogs);
      if FindMatch(transfers, args).None? then Rejected(NoMatchingTransfer) else Verified
  }

  /** A log of the token contract that decodes to a transfer satisfying the policy. */
  predicate PaysAtLeast(abi: TransferAbi, l: Log, args: VerifyArgs) {
    && SameAddress(l.address, args.expectedToken)
    && DecodeTransfer(abi, l).Some?
    && Matches(DecodeTransfer(abi, l).value, args)
  }

  /** The whole verdict: ok exactly when the receipt succeeded and SOME SINGLE log of the
      token contract decodes to a transfer to the receiver, from the expected sender if one
      is given, of at least the minimum. Values of different logs are never added up. */
  lemma VerifiedIff(abi: TransferAbi, rpcUrl: Option<string>, lookup: Lookup, args: VerifyArgs)
    requires Truthy(rpcUrl) && lookup.Found? && lookup.receipt.status == Success
    ensures VerifyErc20TransferOnBase(abi, rpcUrl, lookup, args)
         == if exists l :: l in lookup.receipt.logs && PaysAtLeast(abi, l, args) then Verified
            else Rejected(NoMatchingTransfer)
  {
    var logs := lookup.receipt.logs;
    var tokenLogs := TokenLogs(logs, args.expectedToken);
    var transfers := Transfers(abi, tokenLogs);
    if exists l :: l in logs && PaysAtLeast(abi, l, args) {
      var l :| l in logs && PaysAtLeast(abi, l, args);
      assert l in tokenLogs;
      assert DecodeTransfer(abi, l).value in transfers;
    } else {
      forall t | t in transfers ensures !Matches(t, args) {
        var l :| l in tokenLogs && DecodeTransfer(abi, l) == Some(t);
        assert !PaysAtLeast(abi, l, args);
      }
    }
  }

  /** Logs emitted by other contracts, wherever they sit in the receipt, never change the
      verdict. */
  lemma {:induction false} ForeignLogsIgnored(abi: TransferAbi, rpcUrl: Option<string>, status: TxStatus,
                                               before: seq<Log>, foreign: seq<Log>, after: seq<Log>, args: VerifyArgs)
    requires forall l :: l in foreign ==> !SameAddress(l.address, args.expectedToken)
    ensures VerifyErc20TransferOnBase(abi, rpcUrl, Found(Receipt(status, before + foreign + after)), args)
         == VerifyErc20TransferOnBase(abi, rpcUrl, Found(Receipt(status, before + after)), args)
  {
    var token := args.expectedToken;
    TokenLogsAppend(before + foreign, after, token);
    TokenLogsAppend(before, foreign, token);
    TokenLogsAppend(before, after, token);
    NoTokenLogs(foreign, token);
  }

  /** Exact integer threshold: a single EIP-20 transfer of exactly the minimum verifies, one
      base unit less does not. */
  lemma ExactThreshold(rpcUrl: Option<string>, token: string, t: Transfer, args: VerifyArgs)
    requires Truthy(rpcUrl) && SameAddress(token, args.expectedToken)
    requires SameAddress(AddressText(t.to), args.expectedTo)
    requires Truthy(args.expectedFrom) ==> SameAddress(AddressText(t.from), args.expectedFrom.value)
    requires 0 < args.minUnits < Pow256(32)
    ensures VerifyErc20TransferOnBase(StandardTransfer, rpcUrl,
              Found(Receipt(Success, [TransferLog(token, t.(value := args.minUnits))])), args) == Verified
    ensures VerifyErc20TransferOnBase(StandardTransfer, rpcUrl,
              Found(Receipt(Success, [TransferLog(token, t.(value := args.minUnits - 1))])), args)
         == Rejected(NoMatchingTransfer)
  {
    var exact, short := t.(value := args.minUnits), t.(value := args.minUnits - 1);
    StandardDecodesTransferLog(token, exact);
    StandardDecodesTransferLog(token, short);
    VerifiedIff(StandardTransfer, rpcUrl, Found(Receipt(Success, [TransferLog(token, exact)])), args);
    VerifiedIff(StandardTransfer, rpcUrl, Found(Receipt(Success, [TransferLog(token, short)])), args);
    assert PaysAtLeast(StandardTransfer, TransferLog(token, exact), args);
  }

  /** With a sender expected, a transfer from anyone else is excluded even when receiver and
      value are right. */
  lemma WrongSenderExcluded(rpcUrl: Option<string>, token: string, t: Transfer, args: VerifyArgs)
    requires Truthy(rpcUrl) && t.value < Pow256(32)
    requires Truthy(args.expectedFrom) && !SameAddress(AddressText(t.from), args.expectedFrom.value)
    ensures VerifyErc20TransferOnBase(StandardTransfer, rpcUrl,
              Found(Receipt(Success, [TransferLog(token, t)])), args) == Rejected(NoMatchingTransfer)
  {
    StandardDecodesTransferLog(token, t);
    VerifiedIff(StandardTransfer, rpcUrl, Found(Receipt(Success, [TransferLog(token, t)])), args);
  }

  /** Two transfers that are each short are rejected even when together they would pay. */
  lemma NoSumming(rpcUrl: Option<string>, token: string, t1: Transfer, t2: Transfer, args: VerifyArgs)
    requires Truthy(rpcUrl) && t1.value < args.minUnits && t2.value < args.minUnits
    requires t1.value < Pow256(32) && t2.value < Pow256(32)
    ensures VerifyErc20TransferOnBase(StandardTransfer, rpcUrl,
              Found(Receipt(Success, [TransferLog(token, t1), TransferLog(token, t2)])), args)
         == Rejected(NoMatchingTransfer)
  {
    StandardDecodesTransferLog(token, t1);
    StandardDecodesTransferLog(token, t2);
    VerifiedIff(StandardTransfer, rpcUrl, Found(Receipt(Success, [TransferLog(token, t1), TransferLog(token, t2)])), args);
  }

  /** As written, with the all-indexed fragment, a receipt whose logs carry at most three
      topics (every EIP-20 Transfer log does) never verifies, however much it pays. */
  lemma AllIndexedNeverVerifies(rpcUrl: Option<string>, lookup: Lookup, args: VerifyArgs)
    requires lookup.Found? ==> forall l :: l in lookup.receipt.logs ==> |l.topics| <= 3
    ensures VerifyErc20TransferOnBase(AllIndexedTransfer, rpcUrl, lookup, args) != Verified
  {
    if Truthy(rpcUrl) && lookup.Found? && lookup.receipt.status == Success {
      VerifiedIff(AllIndexedTransfer, rpcUrl, lookup, args);
    }
  }
}
