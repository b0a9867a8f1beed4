/** The HTTP responses the two gateway routes produce, as status plus JSON body. */
module Http {
  import opened Wrappers

  const StatusOk: int := 200
  const StatusBadRequest: int := 400
  /** 402 Payment Required, section 15.5.3 of RFC 9110. */
  const StatusPaymentRequired: int := 402
  const StatusTooManyRequests: int := 429
  const StatusInternalError: int := 500

  /** How to pay: the body of a 402 challenge. `amount` is the price in the token's
      smallest unit. */
  datatype PaymentDescriptor = PaymentDescriptor(
    chainId: int, token: string, to: string, amount: int, decimals: nat, symbol: string)

  /** The JSON bodies, one constructor per shape the routes emit. */
  datatype Body =
    | ErrorMessage(error: string)
    | PaymentChallenge(error: string, payment: PaymentDescriptor)
    | NotVerified(error: string, reason: Option<string>)
    | ProtectedContent(secret: string)
    | ErrorDetails(error: string, details: string)
    | Underpaid(error: string, paidUnits: nat, priceUnits: int)
    | UpstreamFailure(error: string, details: string, upstreamStatus: int)
    | Forwarded(data: string)

  datatype Response = Response(status: int, body: Body)
}
