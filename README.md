# booking-calendar payment gate, modelled in Dafny

This project models the x402-style payment gate of the booking-calendar repository, plus the
slot arithmetic of its calendar hook. A protected HTTP action runs only after an on-chain
USDC transfer on Base has been checked. 402 is "Payment Required", section 15.5.3 of RFC 9110.

- **Receipt verifier** (`verifyErc20TransferOnBase`, module `VerifyPayment`). It takes a
  transaction receipt (status plus logs) and keeps the logs of the token contract,
  compared case-insensitively. It decodes ERC-20 `Transfer(from, to, value)` events
  (EIP-20, "Events / Transfer"). The verdict is ok when a **single** decoded transfer goes
  to the receiver, comes from the expected sender if one is given, and carries at least the
  minimum in base units.
- **Protected-resource route** (`GET`, module `ProtectedRoute`). Missing configuration
  gives 500. No `x-payment-tx` header gives 402 with a payment descriptor. Otherwise the
  verifier decides: 402 with its reason, or 200 with the content.
- **Booking route** (`POST`, module `BookRoute`). It checks the rate limit, then the
  configuration in a fixed order, then the request and the proof. It **sums** every
  matching transfer (the aggregate policy), validates `eventTypeId`, builds the Cal.com
  payload and passes on Cal.com's status. The route is a pure reference function
  `Book`. The imperative handler `Post` reads the configuration into reassigned locals and
  runs the summing loop (`PaidToReceiver`), and it is proved equal to `Book`.
- **Calendar slots hook** (module `CalendarSlots`). It computes the Monday-to-Sunday month
  grid, selects and sorts the slots of one date, and converts slot records. The hook's
  state (`monthSlots`, `availableSlots`, `loading`) is the class `SlotsHook`.

External calls are inputs, not actions:
- the RPC receipt fetch is a `Lookup` (`Found(receipt)` or `NotFound`);
- Cal.com's reply is a `CalcomReply`;
- the slots endpoint's reply is a `SlotsReply`;
- the rate limiter's verdict is a `RateLimit`.

Each route's outcome records what it invoked: `verifierCalled` for the protected route, and
`receiptFetched` plus the Cal.com payload sent (`calcomRequest`) for the booking route.

Amounts are `nat`/`int` base units at 6 decimals. PRICE_USDC is given already scaled. The
default price "0.10" is 100000 units.

Decoding is a partial function `DecodeTransfer(abi, log)`. The ABI is a parameter, so the
two fragments of the source can both be stated:
- `StandardTransfer` is EIP-20's (`value` in data), as declared in book/route.ts:27-29;
- `AllIndexedTransfer` is the verifier's, which marks `value` indexed (verifyPayment.ts:9-13).

The verifier and `ProtectedRoute.Get` take the ABI as an argument. `BookRoute` uses
`StandardTransfer`.

Behaviour of the code worth noting:
- A receipt that cannot be fetched gives 500 in the booking route. The verifier answers
  "Transaction not found" instead.
- Reason strings are the code's: "Transaction failed", "No matching USDC Transfer found".
- The protected route does not check that the price is positive (`NonPositivePriceAcceptsAnyAmount`).
- The two routes use different amount policies, single-transfer and aggregate. They are
  modelled side by side, not merged.

## Model

| member | source | states |
|---|---|---|
| `Erc20.DecodeTransfer` | src/app/api/booking-calendar/book/route.ts:27-29 | a log decodes only when topic 0 is the Transfer signature and every indexed input has a topic; a decoded value fits in uint256; a non-indexed value needs a 32-byte data word |
| `Erc20.StandardDecodesTransferLog` | src/app/api/booking-calendar/book/route.ts:27-29 | decoding under the EIP-20 fragment inverts the EIP-20 log encoding of any transfer |
| `Erc20.StandardTransferLogOfDecoded` | src/app/api/booking-calendar/book/route.ts:27-29 | conversely, re-encoding a decoded 3-topic, 32-byte-data log gives back the log |
| `Erc20.AllIndexedRejectsTransferLog` | src/lib/booking-calendar/x402/verifyPayment.ts:5-15 | under the verifier's all-indexed fragment no EIP-20 Transfer log decodes |
| `Erc20.TokenLogs` | src/lib/booking-calendar/x402/verifyPayment.ts:52-54 | a log is kept exactly when it is in the receipt and its emitting address equals the token case-insensitively |
| `Erc20.TokenLogsLowered` | src/app/api/booking-calendar/book/route.ts:72-73 | filtering against the lower-cased configured token is the same filter |
| `Erc20.Transfers` | src/lib/booking-calendar/x402/verifyPayment.ts:56-61 | a transfer is in the result exactly when some log decodes to it; undecodable logs are skipped |
| `Evm.AddressTextCanonical` | src/lib/booking-calendar/x402/verifyPayment.ts:63-65 | two decoded addresses compare equal case-insensitively exactly when they are the same 20 bytes |
| `Evm.EncodingOfBigEndian` | src/app/api/booking-calendar/book/route.ts:144 | reading a uint256 big-endian and writing it back is the identity |
| `VerifyPayment.Matches` | src/lib/booking-calendar/x402/verifyPayment.ts:63-67 | a transfer matches exactly when its recipient is, in canonical lower-case text, the lower-cased receiver, its sender is likewise the expected sender when one is given, and its value reaches the minimum |
| `VerifyPayment.FindMatch` | src/lib/booking-calendar/x402/verifyPayment.ts:63-67 | the result is the first transfer satisfying to/from/min, and None exactly when none does |
| `VerifyPayment.VerifyErc20TransferOnBase` | src/lib/booking-calendar/x402/verifyPayment.ts:25-71 | missing BASE_RPC_URL, a missing receipt and a non-success status each give their fixed reason whatever the logs; ok implies a found successful receipt; every reason is one of four |
| `VerifyPayment.VerifiedIff` | src/lib/booking-calendar/x402/verifyPayment.ts:52-70 | for a successful receipt, ok exactly when some single token log decodes to a transfer to the receiver, from the expected sender if given, with value at least min; else "No matching USDC Transfer found" |
| `VerifyPayment.ForeignLogsIgnored` | src/lib/booking-calendar/x402/verifyPayment.ts:52-54 | inserting logs of other contracts anywhere in the receipt never changes the verdict |
| `VerifyPayment.ExactThreshold` | src/lib/booking-calendar/x402/verifyPayment.ts:63-70 | a transfer of exactly min base units verifies; one of min-1 is rejected |
| `VerifyPayment.WrongSenderExcluded` | src/lib/booking-calendar/x402/verifyPayment.ts:65 | with a sender expected, a transfer from another address is rejected even if receiver and value match |
| `VerifyPayment.NoSumming` | src/lib/booking-calendar/x402/verifyPayment.ts:63-69 | two transfers each below min are rejected even if together they reach it |
| `VerifyPayment.AllIndexedNeverVerifies` | src/lib/booking-calendar/x402/verifyPayment.ts:5-15 | with the all-indexed fragment, a receipt of logs with at most three topics never verifies |
| `ProtectedRoute.Get` | src/app/api/booking-calendar/protected/route.ts:4-57 | missing receiver or token gives 500 without calling the verifier; no proof gives 402 with the descriptor (8453, token, receiver, price, 6, "USDC") without calling it; otherwise 200 exactly when the verdict is ok, else 402 with the verdict's reason |
| `ProtectedRoute.DefaultPrice` | src/app/api/booking-calendar/protected/route.ts:7 | without PRICE_USDC the descriptor asks for 100000 base units (0.10 USDC) |
| `ProtectedRoute.NoProofNoChain` | src/app/api/booking-calendar/protected/route.ts:16-32 | without a proof the response depends neither on BASE_RPC_URL nor on the chain |
| `ProtectedRoute.GrantedIff` | src/app/api/booking-calendar/protected/route.ts:34-56 | 200 exactly when configuration, proof and RPC URL are present and the receipt succeeded with a single sufficient transfer to the receiver, from the x-wallet address when sent |
| `ProtectedRoute.NoWalletNoSenderCheck` | src/app/api/booking-calendar/protected/route.ts:14-39 | an absent or empty x-wallet header leaves the sender unconstrained |
| `ProtectedRoute.NonPositivePriceAcceptsAnyAmount` | src/app/api/booking-calendar/protected/route.ts:7-11 | with a price of zero or less, any transfer to the receiver (from x-wallet, if sent) matches |
| `ProtectedRoute.AsWrittenNeverGrants` | src/app/api/booking-calendar/protected/route.ts:34-56 | as written (all-indexed fragment), a receipt of EIP-20 Transfer logs never gets 200 |
| `ProtectedRoute.CorrectedGrantsExactPayment` | src/app/api/booking-calendar/protected/route.ts:34-56 | with the EIP-20 fragment and no x-wallet header sent, one transfer of exactly the price to the receiver gets 200 with the content |
| `BookRoute.Throttled` | src/app/api/booking-calendar/book/route.ts:39-48 | a denial returns the limiter's own response when it carries one, and otherwise a 429 "Too many booking requests. Please try again later." |
| `BookRoute.ConfigFault` | src/app/api/booking-calendar/book/route.ts:50-87 | no fault exactly when key, URL, RPC URL, receiver, token are set and the price is finite and positive; the key is checked first; the price message comes only after all variables are present |
| `BookRoute.PaidToReceiver` | src/app/api/booking-calendar/book/route.ts:131-152 | the loop's total is the sum of values of decoded transfers to the receiver |
| `BookRoute.PaidIsSumOverLogs` | src/app/api/booking-calendar/book/route.ts:127-152 | filter-decode-sum equals the per-log sum over token logs that decode as a Transfer to the receiver |
| `BookRoute.NonPayingLogsIgnored` | src/app/api/booking-calendar/book/route.ts:133-152 | logs that pay the receiver nothing (other contracts, undecodable, other recipients) never change the paid amount |
| `BookRoute.EpsilonComparisonExact` | src/app/api/booking-calendar/book/route.ts:154 | in exact arithmetic, `paid/1e6 + 1e-9 < price/1e6` holds exactly when `paid < price` |
| `BookRoute.BuildCalcomBooking` | src/app/api/booking-calendar/book/route.ts:173-196 | the payload copies start, attendee and id, sets language "en", defaults notes to "No additional notes provided", passes the referral source as the discovery method, and has guests exactly when a non-empty list was sent |
| `BookRoute.CalcomResponse` | src/app/api/booking-calendar/book/route.ts:210-229 | a non-2xx Cal.com status is returned as that status with the upstream text; 2xx gives 200 with the data |
| `BookRoute.Book` | src/app/api/booking-calendar/book/route.ts:37-237 | the receipt is fetched only after the rate limit, the configuration, the JSON body, the required fields (eventTypeId, start, attendee) and a proof pass; Cal.com is called only for a fetched successful receipt whose summed payment reaches the price; every other answer of an allowed request is a 400, 402 or 500 |
| `BookRoute.Post` | src/app/api/booking-calendar/book/route.ts:37-237 | the imperative handler computes exactly the reference outcome `Book` |
| `BookRoute.RateLimitFirst` | src/app/api/booking-calendar/book/route.ts:39-48 | a denial answers before any configuration, receipt or Cal.com work |
| `BookRoute.ConfigErrorsAreInternal` | src/app/api/booking-calendar/book/route.ts:50-87 | a configuration fault is a 500, nothing fetched and Cal.com not called |
| `BookRoute.MissingDataBeforeProof` | src/app/api/booking-calendar/book/route.ts:97-103 | missing eventTypeId, start or attendee is a 400 whatever the proof |
| `BookRoute.MissingProofIsPaymentRequired` | src/app/api/booking-calendar/book/route.ts:105-112 | a missing paymentTxHash is a 402 and the chain is not consulted |
| `BookRoute.ReceiptFailures` | src/app/api/booking-calendar/book/route.ts:114-124 | an unfetchable receipt is a 500 (outer catch); a non-success status is a 402 "Payment transaction failed" |
| `BookRoute.CalcomOnlyAfterPayment` | src/app/api/booking-calendar/book/route.ts:114-208 | Cal.com is called exactly when every check passes and the summed payment reaches the price, and then with the built payload |
| `BookRoute.InsufficientPayment` | src/app/api/booking-calendar/book/route.ts:154-162 | paid below price is a 402 reporting both amounts, Cal.com not called |
| `BookRoute.InvalidEventTypeAfterPayment` | src/app/api/booking-calendar/book/route.ts:164-171 | after payment passes, an eventTypeId that is not finite or is at most 0 is a 400 |
| `BookRoute.UpstreamStatusPropagated` | src/app/api/booking-calendar/book/route.ts:210-226 | when Cal.com is called and answers non-2xx, the response carries Cal.com's status |
| `BookRoute.ProofNotForwarded` | src/app/api/booking-calendar/book/route.ts:178-196 | bodies differing only in the proof, with the same receipt lookup, give identical outcomes; the Cal.com payload has no proof field |
| `BookRoute.SingleTransferImpliesAggregate` | src/app/api/booking-calendar/book/route.ts:146-154 | with the EIP-20 fragment, whatever the single-transfer verifier accepts, the aggregate policy accepts |
| `BookRoute.SplitPaymentOnlyAggregate` | src/app/api/booking-calendar/book/route.ts:146-154 | two short transfers reaching the price together pass the aggregate policy and fail the verifier |
| `CalendarSlots.ConvertCalcomSlot` | src/lib/booking-calendar/hooks/use-calendar-slots.ts:23-33 | start becomes time, absent attendees become 0, bookingUid is copied |
| `CalendarSlots.MonthGridRange` | src/lib/booking-calendar/hooks/use-calendar-slots.ts:51-60 | the range starts on a Monday at most 6 days before the 1st, ends on a Sunday at most 6 days after the last day, and spans a multiple of 7 days |
| `CalendarSlots.SlotsOfDay` | src/lib/booking-calendar/hooks/use-calendar-slots.ts:103-108 | every selected slot has the requested local date |
| `CalendarSlots.SlotsOfDayComplete` | src/lib/booking-calendar/hooks/use-calendar-slots.ts:103-108 | conversely, every slot of the list on the requested local date is selected, converted |
| `CalendarSlots.SlotsOn` | src/lib/booking-calendar/hooks/use-calendar-slots.ts:99-110 | every slot selected from all entries has the requested local date |
| `CalendarSlots.SlotsOnComplete` | src/lib/booking-calendar/hooks/use-calendar-slots.ts:99-110 | conversely, every slot of any entry on the requested local date is selected, converted |
| `CalendarSlots.CollectSlots` | src/lib/booking-calendar/hooks/use-calendar-slots.ts:99-110 | the nested loops push exactly the slots `SlotsOn` selects, in order |
| `CalendarSlots.SortByTime` | src/lib/booking-calendar/hooks/use-calendar-slots.ts:113-116 | the array ends sorted ascending by time and is a permutation of its old contents |
| `CalendarSlots.InsertAt` | src/lib/booking-calendar/hooks/use-calendar-slots.ts:113-116 | one insertion step extends the sorted prefix by one element, permutes the array, and leaves everything after position i unchanged |
| `CalendarSlots.Sorted` | src/lib/booking-calendar/hooks/use-calendar-slots.ts:154-156 | a sorted permutation of the collected slots |
| `CalendarSlots.SlotsHook.constructor` | src/lib/booking-calendar/hooks/use-calendar-slots.ts:39-41 | the hook starts with no month slots, no available slots, not loading |
| `CalendarSlots.SlotsHook.FetchMonthSlots` | src/lib/booking-calendar/hooks/use-calendar-slots.ts:44-87 | inactive: nothing changes; otherwise it requests the Monday-to-Sunday grid window, starting at most 6 days before the month's first day and ending at most 6 days after its last, stores the reply's object or `{}` on failure, and keeps a non-object reply's old value |
| `CalendarSlots.SlotsHook.FetchSlots` | src/lib/booking-calendar/hooks/use-calendar-slots.ts:90-169 | inactive: nothing changes. Otherwise it ends not loading, with slots sorted by time and all on the selected date. Cached slots for the date mean no fallback request. Else it requests day-1..day+1 and shows the reply's slots, or none on failure |

## Left out

- Network I/O is not modelled: the RPC client, the Cal.com `fetch`, the slots endpoint.
  Their outcomes are inputs. The model does not relate a transaction hash to its receipt,
  and hash format is not checked (the source does not check it either).
- The rate limiter is not modelled; its source is not part of this model. Only its
  verdict (allowed, or denied with an optional response) is an input.
- Floating point is not modelled: `Math.round(expectedAmount * 1_000_000)`, the `Number(formatUnits(...))`
  sum and the `1e-9` epsilon. Prices and amounts are integer base units;
  `EpsilonComparisonExact` relates the booking route's comparison to them. A price that is
  not a whole number of base units is not modelled.
- `ProtectedRoute.Get`: a PRICE_USDC that is not a number is not modelled. Without a proof
  such a request still gets its 402, with the descriptor's amount serialised as `null`.
  With a proof, the missing-RPC-URL, not-found and failed-receipt reasons are still
  returned. Only after a successful receipt does `BigInt(NaN)` throw
  (verifyPayment.ts:50), which fails the request unhandled.
- viem internals are not modelled: `getAddress` (EIP-55 checksums; it throws on malformed
  addresses, which would fail the request), `parseEventLogs`/`decodeEventLog`, keccak
  hashing. Decoding is the partial function `DecodeTransfer`. Address comparison is
  equality of ASCII-lower-cased strings; Unicode case mapping is out of scope.
- The text of the "Insufficient payment" detail is not modelled; the body carries the paid
  and required amounts in base units instead. Logging (`console.error`) is left out too.
- Cal.com request framing is not modelled: URL, headers, JSON serialisation. A failure to
  parse Cal.com's success body, and statuses outside the range the framework accepts, are
  left out too.
- JSON value typing is simplified: `eventTypeId` is an integer or a string with its
  `Number()` value, other fields are strings or absent. A fractional `eventTypeId` is
  not modelled.
- Dates and time zones are not modelled: `toISOString`, local `getDay`,
  `getSlotLocalDate`/`getLocalDateString`. Days are integers and the requested windows
  are day numbers. A slot's local date and epoch milliseconds come with it (`SlotTime`).
- Slot values are simplified: non-array values in slot maps, `NaN` attendee counts and
  unparsable times (a `NaN` sort key) are left out.
- `CalendarSlots.SortByTime`: promises sorted and a permutation, not the stability of
  JavaScript's sort.
- React hook mechanics are not modelled: asynchronous state updates and the closure's
  stale `monthSlots`. The hook's state is updated in place, one call at a time.
- Replay protection is not modelled: the source does not implement it, it only mentions it
  in a comment.
- The wallet payment helper, the booking widget, the page and the connect button are not
  part of this model.

## Findings

| source | as written | input that shows it | evidently intended | confidence | as-written member | corrected member |
|---|---|---|---|---|---|---|
| src/lib/booking-calendar/x402/verifyPayment.ts:12 | the Transfer fragment marks `value` as `indexed`, so decoding needs four topics | a successful receipt whose only log is a USDC `Transfer(from, receiver, price)` with the three topics every EIP-20 token emits: the log is skipped and the route answers 402 "No matching USDC Transfer found" | `value` not indexed, as EIP-20 and book/route.ts:28 declare it, so the exact payment is granted | medium (not executed) | `ProtectedRoute.AsWrittenNeverGrants` | `ProtectedRoute.CorrectedGrantsExactPayment` |
