/** `GET` of the protected-resource route: an x402-style gate in front of fixed content. */
module ProtectedRoute {
  import opened Wrappers
  import opened Js
  import opened Evm
  import opened Erc20
  import opened Http
  import opened VerifyPayment

  /** Server configuration: PAYMENT_RECEIVER, USDC_BASE, PRICE_USDC (already in base units)
      and the verifier's BASE_RPC_URL. `price` is None only when PRICE_USDC is unset: the
      default applies only then, and an empty PRICE_USDC reads as the number 0, so it is
      `Some(0)` and any amount passes (`NonPositivePriceAcceptsAnyAmount`). */
  datatype Env = Env(receiver: Option<string>, token: Option<string>, price: Option<int>, rpcUrl: Option<string>)

  /** The `x-payment-tx` and `x-wallet` request headers. */
  datatype Headers = Headers(paymentTx: Option<string>, wallet: Option<string>)

  /** The response, and whether the verifier was invoked. */
  datatype Handled = Handled(response: Response, verifierCalled: bool)

  /** PRICE_USDC defaults to "0.10", i.e. 100000 base units at 6 decimals. */
  const DefaultPriceUnits: int := 100000
  const BaseChainId: int := 8453
  const UsdcDecimals: nat := 6
  const UsdcSymbol: string := "USDC"
  const MissingConfig: string := "Missing PAYMENT_RECEIVER or USDC_BASE"
  const PaymentRequiredError: string := "Payment required"
  const NotVerifiedError: string := "Payment not verified"
  const Secret: string := "here is your protected response"

  function Price(env: Env): (p: int) {
    env.price.GetOr(DefaultPriceUnits)
  }

  /** What the route asks the verifier to check: the configured receiver, token and price,
      and the `x-wallet` header as the expected sender when one was sent. */
  function Expectation(env: Env, headers: Headers): (e: VerifyArgs)
    requires env.receiver.Some? && env.token.Some?
  {
    VerifyArgs(env.receiver.value, env.token.value, Price(env), headers.wallet)
  }

  function Get(abi: TransferAbi, env: Env, headers: Headers, lookup: Lookup): (out: Handled)
    ensures !Truthy(env.receiver) || !Truthy(env.token) ==>
              out == Handled(Response(StatusInternalError, ErrorMessage(MissingConfig)), false)
    ensures Truthy(env.receiver) && Truthy(env.token) && !Truthy(headers.paymentTx) ==>
              out == Handled(Response(StatusPaymentRequired, PaymentChallenge(PaymentRequiredError,
                       PaymentDescriptor(BaseChainId, env.token.value, env.receiver.value, Price(env), UsdcDecimals, UsdcSymbol))), false)
    ensures out.verifierCalled <==> Truthy(env.receiver) && Truthy(env.token) && Truthy(headers.paymentTx)
    ensures out.verifierCalled ==>
              var v := VerifyErc20TransferOnBase(abi, env.rpcUrl, lookup, Expectation(env, headers));
              out.response == if v.Verified? then Response(StatusOk, ProtectedContent(Secret))
                              else Response(StatusPaymentRequired, NotVerified(NotVerifiedError, v.Reason()))
    ensures out.response.status == StatusOk <==>
              out.verifierCalled && VerifyErc20TransferOnBase(abi, env.rpcUrl, lookup, Expectation(env, headers)).Verified?
  {
    if !Truthy(env.receiver) || !Truthy(env.token) then
      Handled(Response(StatusInternalError, ErrorMessage(MissingConfig)), false)
    else if !Truthy(headers.paymentTx) then
      var payment := PaymentDescriptor(BaseChainId, env.token.value, env.receiver.value, Price(env), UsdcDecimals, UsdcSymbol);
      Handled(Response(StatusPaymentRequired, PaymentChallenge(PaymentRequiredError, payment)), false)
    else
      var verified := VerifyErc20TransferOnBase(abi, env.rpcUrl, lookup, Expectation(env, headers));
      if verified.Rejected? then
        Handled(Response(StatusPaymentRequired, NotVerified(NotVerifiedError, verified.Reason())), true)
      else
        Handled(Response(StatusOk, ProtectedContent(Secret)), true)
  }

  /** Without PRICE_USDC the challenge asks for 0.10 USDC. */
  lemma DefaultPrice(abi: TransferAbi, env: Env, headers: Headers, lookup: Lookup)
    requires Truthy(env.receiver) && Truthy(env.token) && !Truthy(headers.paymentTx) && env.price.None?
    ensures Get(abi, env, headers, lookup).response.body.payment.amount == 100000
  {
  }

  /** Without a proof the response does not depend on the chain at all. */
  lemma NoProofNoChain(abi: TransferAbi, env: Env, headers: Headers, lookup1: Lookup, lookup2: Lookup, rpc: Option<string>)
    requires !Truthy(headers.paymentTx)
    ensures Get(abi, env, headers, lookup1) == Get(abi, env.(rpcUrl := rpc), headers, lookup2)
  {
  }

  /** Access is granted exactly when the configuration is present, a proof is sent, and its
      receipt succeeded with some single token transfer to the receiver, of at least the
      price, from the `x-wallet` address when that header is non-empty. */
  lemma GrantedIff(abi: TransferAbi, env: Env, headers: Headers, lookup: Lookup)
    ensures Get(abi, env, headers, lookup).response.status == StatusOk <==>
      && Truthy(env.receiver) && Truthy(env.token) && Truthy(headers.paymentTx)
      && Truthy(env.rpcUrl) && lookup.Found? && lookup.receipt.status == Success
      && exists l :: l in lookup.receipt.logs && PaysAtLeast(abi, l, Expectation(env, headers))
  {
    if Truthy(env.receiver) && Truthy(env.token) && Truthy(env.rpcUrl) && lookup.Found? && lookup.receipt.status == Success {
      VerifiedIff(abi, env.rpcUrl, lookup, Expectation(env, headers));
    }
  }

  /** An absent or empty `x-wallet` header leaves the sender unconstrained. */
  lemma NoWalletNoSenderCheck(abi: TransferAbi, env: Env, headers: Headers, lookup: Lookup)
    requires !Truthy(headers.wallet) && Truthy(env.receiver) && Truthy(env.token)
    ensures forall t :: Matches(t, Expectation(env, headers)) <==>
              SameAddress(AddressText(t.to), env.receiver.value) && t.value >= Price(env)
  {
  }

  /** The route does not check PRICE_USDC: with a price of zero or less, a transfer of any
      value to the receiver (from the `x-wallet` address, when sent) is enough. */
  lemma NonPositivePriceAcceptsAnyAmount(env: Env, headers: Headers, t: Transfer)
    requires env.receiver.Some? && env.token.Some? && Price(env) <= 0
    ensures Matches(t, Expectation(env, headers)) <==>
              && SameAddress(AddressText(t.to), env.receiver.value)
              && (Truthy(headers.wallet) ==> SameAddress(AddressText(t.from), headers.wallet.value))
  {
  }

  /** As written (all-indexed Transfer fragment), a proof whose receipt holds only EIP-20
      Transfer logs is never granted access, whatever it pays. */
  lemma AsWrittenNeverGrants(env: Env, headers: Headers, lookup: Lookup)
    requires lookup.Found? ==> forall l :: l in lookup.receipt.logs ==> |l.topics| <= 3
    ensures Get(AllIndexedTransfer, env, headers, lookup).response.status != StatusOk
  {
    if Truthy(env.receiver) && Truthy(env.token) {
      AllIndexedNeverVerifies(env.rpcUrl, lookup, Expectation(env, headers));
    }
  }

  /** With the EIP-20 fragment, one transfer of exactly the price to the receiver is granted
      access (e.g. 100000 base units for 0.10 USDC). */
  lemma CorrectedGrantsExactPayment(env: Env, headers: Headers, t: Transfer)
    requires Truthy(env.receiver) && Truthy(env.token) && Truthy(headers.paymentTx) && Truthy(env.rpcUrl)
    requires !Truthy(headers.wallet)
    requires SameAddress(AddressText(t.to), env.receiver.value)
    requires 0 < Price(env) < Pow256(32)
    ensures Get(StandardTransfer, env, headers,
              Found(Receipt(Success, [TransferLog(env.token.value, t.(value := Price(env)))]))).response
         == Response(StatusOk, ProtectedContent(Secret))
  {
    ExactThreshold(env.rpcUrl, env.token.value, t, Expectation(env, headers));
  }
}
