# Jackpot page controller, modelled in Dafny

This project models the controller logic of the Jackpot lottery page
(`frontend/src/App.tsx`). The page shows a countdown to the weekly draw, which
is every Monday at 07:00. It also tracks the wallet's chain id, accepts only the
Flare Coston (14) and Coston2 (114) test networks, and buys tickets from the
jackpot contract. After a purchase succeeds it refreshes the jackpot balance, the
entry fee and the win probability. Locally it keeps a ticket counter and a list
of falling coins, which are dropped when the ticket count is raised.

Modules, one per part of the page:

- `Countdown` (countdown.dfy) is the pure tick body of the one-second timer. It
  finds the next-draw target, splits the remaining time into days, hours,
  minutes and seconds, and builds the label. Instants are local wall-clock
  milliseconds with fixed 24-hour days. The weekday is derived from the instant:
  day 0, 1 January 1970, was a Thursday.
- `Network` (network.dfy) holds the configured network list and
  `IsSupportedNetwork`.
- `Jackpot` (jackpot.dfy) holds the remote contract's replies as a `Ledger`
  value (one reply per kind of call) and the record of the calls made. It
  defines `Sync`, which says what `updateJackpotInfo` does, and `Purchase`,
  which says what `enterJackpot` does.
- `Tickets` (tickets.dfy) holds the clamp of the ticket counter and the coin
  filter.
- `App` (app.dfy) is the class `JackpotApp`. Its fields are the component's
  state. Its methods are the handlers that change that state, each proved
  against the functions above. A ghost field `calls` records every contract call. The wallet provider's chain-id request and `getWalletClient` are not in it.

Identifiers the file uses without declaring them are modelled by their evident
intent:

- `setTimeLeft` stores the label in `timeLeft`. No state declares it, so its initial value, the empty string, is this model's choice.
- `updateLotteryInfo` is the refresh `updateJackpotInfo`.
- `setPrevTicketCount` records the old count in `prevTicketCount`, which starts
  at 1.
- `primaryWallet` is a parameter of `Init`.

The model follows what the code does, including where that differs from what a
weekly-draw countdown or a snapshot refresh would be expected to do:

- A countdown to a weekly draw would be expected to aim at the soonest Monday
  07:00 strictly after now. The code's offset `(1 + 7 - day) % 7 || 7` is 7 on any Monday. So between
  Monday 00:00 and 07:00 the target is the following week's Monday, even though
  that morning's draw is still ahead (`MondayMorningSkipsToday`). At every other
  time the target is the soonest one (`NextDrawIsSoonest`). The target is always
  more than seven hours ahead, so the "Drawing now!" branch is never taken.
- A snapshot refresh would be expected to replace all three fields or none of
  them. The code sets each field right after its own read. A failing read therefore
  leaves the earlier fields updated (`SyncIsNotAtomic`).
- Nothing stops a second purchase from starting while one is in flight. The
  code has no such guard, and the model claims none.
- The code does not tell a declined signature, a rejected submission and a
  reverted transaction apart. It has one catch branch. `PurchaseFailed` records
  which step failed.

## Model

| member | source | states |
|---|---|---|
| `Countdown.DayOfWeek` | frontend/src/App.tsx:94 | `getDay()` of an instant is a weekday number in 0..6 |
| `Countdown.StartOfDay` | frontend/src/App.tsx:95 | the midnight of an instant's day is at or before it, less than a day earlier, on a day boundary |
| `Countdown.DaysUntilNextMonday` | frontend/src/App.tsx:94 | the offset `(1 + 7 - day) % 7`, with 0 replaced by 7, is in 1..7, lands on a Monday, and is 7 exactly when today is Monday |
| `Countdown.DaysUntilNextMondayIsLeast` | frontend/src/App.tsx:94 | that offset is the only one in 1..7 that lands on a Monday, so no earlier day is a Monday |
| `Countdown.NextDraw` | frontend/src/App.tsx:93-95 | the target: today's midnight plus the offset in days plus 07:00; it lies more than 7 hours and at most 7 days 7 hours after now. Its meaning is stated by `NextDrawIsMondayMorning` and `NextDrawIsSoonest` |
| `Countdown.NextDrawIsMondayMorning` | frontend/src/App.tsx:93-97 | the target is a Monday at 07:00:00.000, more than 7 hours and at most 7 days 7 hours after now, so the time difference is always positive |
| `Countdown.NextDrawIsSoonest` | frontend/src/App.tsx:93-95 | except on Monday before 07:00, no Monday 07:00 lies strictly between now and the target |
| `Countdown.MondayMorningSkipsToday` | frontend/src/App.tsx:94-95 | on Monday before 07:00 that morning's draw is still ahead, but the target is a week later |
| `Countdown.SameTargetUntilDrawDay` | frontend/src/App.tsx:93-95 | every instant from now up to the midnight starting the draw day computes the same target |
| `Countdown.Decompose` | frontend/src/App.tsx:100-103 | for a positive difference, hours < 24, minutes < 60, seconds < 60, days >= 0, and the components reach the difference to within one second |
| `Countdown.DecomposeIsUnique` | frontend/src/App.tsx:100-103 | any duration with those bounds that reaches the difference to within a second is the computed one |
| `Countdown.DecomposeCountsSeconds` | frontend/src/App.tsx:100-103 | the components add up to the whole seconds of the difference |
| `Countdown.Tick` | frontend/src/App.tsx:97-108 | the tick always shows time remaining, never "Drawing now!", with components normal and within a second of the time to the target |
| `Countdown.TickOneSecondLater` | frontend/src/App.tsx:91-105 | one second later, before the draw day starts, the countdown shows exactly one second less |
| `Countdown.Decimal` | frontend/src/App.tsx:105 | a number is printed as at least one decimal digit with no leading zero |
| `Countdown.DecimalRoundTrip` | frontend/src/App.tsx:105 | reading the printed digits back gives the number printed |
| `Countdown.Label` | frontend/src/App.tsx:105-107 | the label is "Drawing now!" exactly in the drawing case; otherwise it starts with the days' digits followed by "d" and ends with "s" |
| `Countdown.LabelDeterminesDuration` | frontend/src/App.tsx:105 | two durations with the same label `${days}d ${hours}h ${minutes}m ${seconds}s` are equal: every component is printed in full, in its place |
| `Countdown.WednesdayMorningLabel` | frontend/src/App.tsx:94-105 | on a Wednesday at 07:00 the label is "5d 0h 0m 0s" |
| `Network.IsSupportedNetwork` | frontend/src/App.tsx:154-159 | true exactly when the stored chain id is that of a configured network (14 or 114); false when no id is known |
| `Jackpot.Sync` | frontend/src/App.tsx:143-152 | the refresh reads balance, fee, probability in that order and stops at the first failure; each field set holds its own read's reply, and a field is set only if every earlier read succeeded |
| `Jackpot.SyncIsNotAtomic` | frontend/src/App.tsx:143-152 | when the fee read fails, the balance has already been replaced and the other two fields have not |
| `Jackpot.Purchase` | frontend/src/App.tsx:161-178 | no remote call exactly when there is no contract or the network is unsupported; otherwise the outcome is `Purchased` or the error branch. The error branch names the price read, the submission or the confirmation exactly when that reply failed and all earlier ones succeeded. The calls are, in order, read price, `buyTickets(count)` with value price * count, wait, then the refresh reads. Each call is made exactly when the step before succeeded, and the refresh only after all three. At most one `buyTickets` |
| `Tickets.AdjustedCount` | frontend/src/App.tsx:182 | the new count is at least 1, and it is prev + amount whenever that sum is at least 1 |
| `Tickets.CountAfterIsPositive` | frontend/src/App.tsx:180-182 | starting from at least one ticket, any sequence of adjustments keeps the count at least 1 |
| `Tickets.CountAfterIsRunningSum` | frontend/src/App.tsx:180-182 | if no running total drops below 1, the count after the adjustments is the start plus their sum |
| `Tickets.WithoutCoin` | frontend/src/App.tsx:195-196 | a coin is kept exactly when it was in the list and its id differs from the removed one |
| `Tickets.WithoutCoinAppend` | frontend/src/App.tsx:196 | filtering a concatenation filters each part in place, so the kept coins keep their order |
| `Tickets.WithoutCoinCounts` | frontend/src/App.tsx:196 | every coin with another id keeps its number of occurrences; coins with the id are all gone |
| `Tickets.WithoutAbsentCoin` | frontend/src/App.tsx:196 | removing an id that no coin has leaves the list unchanged |
| `App.JackpotApp.constructor` | frontend/src/App.tsx:65-77 | the initial state: zero snapshot, one ticket, no coins, no contract, not connected, no chain id; the invariant holds |
| `App.JackpotApp.EnterEnabled` | frontend/src/App.tsx:231 | the enter button is enabled exactly when a contract is bound and the chain id is 14 or 114, the same conditions under which `enterJackpot` gets past its two early returns |
| `App.JackpotApp.Init` | frontend/src/App.tsx:79-89 | a signed-in wallet binds the contract and refreshes; otherwise nothing changes |
| `App.JackpotApp.SetUpContract` | frontend/src/App.tsx:131-141 | binds the contract to the wallet client, marks the page connected, and applies one refresh |
| `App.JackpotApp.UpdateJackpotInfo` | frontend/src/App.tsx:143-152 | makes exactly the calls of `Sync` and sets each field that `Sync` set, leaving the rest unchanged |
| `App.JackpotApp.CheckNetwork` | frontend/src/App.tsx:111-122 | with a provider, the reported chain id replaces the stored one unconditionally; without one, the stored id is kept |
| `App.JackpotApp.OnTimerTick` | frontend/src/App.tsx:91-109 | stores the label of the tick at `now`, which is never "Drawing now!" |
| `App.JackpotApp.EnterJackpot` | frontend/src/App.tsx:161-178 | returns and records exactly what `Purchase` gives for the current state; some remote call is made exactly when the enter button is enabled; the snapshot changes only after a successful purchase, by its refresh |
| `App.JackpotApp.AdjustTicketCount` | frontend/src/App.tsx:180-193 | records the old count, stores the clamped new count (so the count stays at least 1), starts the animation, and appends the new coins only for a positive amount |
| `App.JackpotApp.EndAnimation` | frontend/src/App.tsx:184 | the animation flag is cleared |
| `App.JackpotApp.RemoveCoin` | frontend/src/App.tsx:195-197 | the coin list becomes `WithoutCoin` of the old list |

## Left out

- Rendering is left out: the JSX, the styles, the wallet widget and its auth context. The enter button's enabling condition is kept as `EnterEnabled`.
- `formatEther` and `.toNumber()` are library conversions. The snapshot fields hold the integers read, not their display strings.
- `getContract` is not modelled as a library call. A handle is the contract address paired with the wallet client.
- `isEthereumWallet` is not modelled. `primaryWallet` is `None` when no Ethereum wallet is present.
- App.JackpotApp.EnterJackpot: `price.mul(ticketCount)` is taken as exact integer multiplication. The price type that the contract library returns is not part of this model.
- App.JackpotApp.EnterJackpot: the alerts and `console.error` are represented by the outcome value.
- App.JackpotApp.EnterJackpot: the refresh after a purchase is not awaited in the code. The model runs it right after the success, and its failure never changes the purchase outcome.
- App.JackpotApp.CheckNetwork: the provider query and `parseInt(chainId, 16)` are not modelled. `reported` is the already-parsed id, or `None` when there is no provider.
- App.JackpotApp.CheckNetwork: registering and removing the `chainChanged` listener is not modelled.
- App.JackpotApp.AdjustTicketCount: `newCoins` stands for the randomly generated coins. The model does not constrain their number (one to four in the code) or their random ids and positions.
- The 150 ms `setTimeout` and the `setInterval` scheduling are left out. Their callbacks are the methods `EndAnimation` and `OnTimerTick`.
- Time zones and daylight saving are left out. Every day is exactly 86,400,000 ms of local time.
- Concurrent handlers are not modelled. Each handler runs to completion before the next one starts. Interleavings during the awaits are left out, as is re-entry into `enterJackpot`.
- `useEnsName` is left out.
- The winner data is left out: `lastWinner` and `lastWinAmount` are never updated by the code.
- The environment configuration and its start-up `console.error` checks are left out. The contract address is a constructor parameter.
- The numbers are JavaScript numbers in the code. The model uses unbounded integers for the ticket count and the timestamps.
