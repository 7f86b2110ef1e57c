/**
 * The jackpot contract as the page sees it: the replies the remote contract gives
 * to each read and write, the record of the calls the page makes, and what the
 * refresh (`updateJackpotInfo`) and the ticket purchase (`enterJackpot`) do with them.
 */
module Jackpot {
  import opened Wrappers
  import Network

  /** The wallet client a signed-in wallet hands out; only its identity matters here. */
  datatype WalletClient = WalletClient(account: string)

  /** What `getContract` returns: the contract address bound to a wallet client. */
  datatype ContractHandle = ContractHandle(address: string, client: WalletClient)

  type TxHash = nat

  /**
   * How the remote contract answers, one reply per kind of call: `None` for a read
   * or write that throws, and for `wait`, whether the transaction's receipt arrives
   * without throwing.
   */
  datatype Ledger = Ledger(
    ticketPrice: Option<nat>,
    buyTickets: (int, int) -> Option<TxHash>,   // (ticket count, value sent)
    confirms: TxHash -> bool,
    jackpotBalance: Option<nat>,
    entryFee: Option<nat>,
    winProbability: Option<nat>)

  /** The contract calls the page makes, in the order it makes them. */
  datatype RemoteCall =
    | ReadTicketPrice
    | WriteBuyTickets(count: int, value: int)
    | WaitForReceipt(tx: TxHash)
    | ReadJackpotBalance
    | ReadEntryFee
    | ReadWinProbability

  /** The three reads of a refresh, in order. */
  const SYNC_READS: seq<RemoteCall> := [ReadJackpotBalance, ReadEntryFee, ReadWinProbability]

  /** What a refresh did: the reads it issued, and the new value of each field it set. */
  datatype SyncResult = SyncResult(
    calls: seq<RemoteCall>,
    balance: Option<nat>,
    entryFee: Option<nat>,
    winProbability: Option<nat>)

  /**
   * `updateJackpotInfo`: read the balance and set it, then the entry fee, then the
   * win probability. Each field is set right after its own read, so a failing read
   * stops the refresh with the fields before it already replaced.
   */
  function Sync(ledger: Ledger): (s: SyncResult)
    ensures 1 <= |s.calls| <= 3 && s.calls == SYNC_READS[..|s.calls|]
    ensures s.balance == ledger.jackpotBalance
    ensures s.entryFee == (if s.balance.Some? then ledger.entryFee else None)
    ensures s.winProbability == (if s.entryFee.Some? then ledger.winProbability else None)
    ensures |s.calls| == 1 + (if s.balance.Some? then 1 else 0) + (if s.entryFee.Some? then 1 else 0)
  {
    match ledger.jackpotBalance
    case None => SyncResult(SYNC_READS[..1], None, None, None)
    case Some(balance) =>
      match ledger.entryFee
      case None => SyncResult(SYNC_READS[..2], Some(balance), None, None)
      case Some(fee) => SyncResult(SYNC_READS, Some(balance), Some(fee), ledger.winProbability)
  }

  /** A refresh whose second read fails has already replaced the balance: it is not all-or-nothing. */
  lemma SyncIsNotAtomic(ledger: Ledger)
    requires ledger.jackpotBalance.Some? && ledger.entryFee.None?
    ensures Sync(ledger).balance == ledger.jackpotBalance
    ensures Sync(ledger).entryFee.None? && Sync(ledger).winProbability.None?
  {
  }

  /** The step of the purchase whose failure sent it to the error branch. */
  datatype FailedStep = PriceRead | Submission | Confirmation

  /** How a call of `enterJackpot` ends. */
  datatype PurchaseOutcome =
    | NotConnected                     // no contract yet: silent return
    | NetworkUnsupported               // the "please connect to a supported network" alert
    | Purchased                        // the success alert, followed by a refresh
    | PurchaseFailed(step: FailedStep) // the catch branch's error alert

  datatype Attempt = Attempt(outcome: PurchaseOutcome, calls: seq<RemoteCall>)

  /** The cost sent with the purchase: `price.mul(ticketCount)`, taken as exact. */
  function TotalCost(price: nat, ticketCount: int): int
  {
    price * ticketCount
  }

  /**
   * `enterJackpot`: return when there is no contract or the network is not
   * supported; otherwise read the price, send `buyTickets(ticketCount)` with the
   * total cost, wait for the receipt and, only when all three succeeded, refresh.
   */
  function Purchase(contract: Option<ContractHandle>, chainId: Option<int>, ticketCount: int, ledger: Ledger): (a: Attempt)
    ensures a.calls == [] <==> contract.None? || !Network.IsSupportedNetwork(chainId)
    ensures contract.None? ==> a.outcome == NotConnected
    ensures contract.Some? && !Network.IsSupportedNetwork(chainId) ==> a.outcome == NetworkUnsupported
    ensures a.calls != [] ==> a.calls[0] == ReadTicketPrice
    ensures |a.calls| >= 2 ==>
      ledger.ticketPrice.Some? &&
      a.calls[1] == WriteBuyTickets(ticketCount, ledger.ticketPrice.value * ticketCount)
    ensures |a.calls| >= 3 ==>
      ledger.buyTickets(ticketCount, ledger.ticketPrice.value * ticketCount).Some? &&
      a.calls[2] == WaitForReceipt(ledger.buyTickets(ticketCount, ledger.ticketPrice.value * ticketCount).value)
    ensures a.outcome == Purchased <==>
      contract.Some? && Network.IsSupportedNetwork(chainId) && ledger.ticketPrice.Some? &&
      ledger.buyTickets(ticketCount, ledger.ticketPrice.value * ticketCount).Some? &&
      ledger.confirms(ledger.buyTickets(ticketCount, ledger.ticketPrice.value * ticketCount).value)
    ensures contract.Some? && Network.IsSupportedNetwork(chainId) ==> a.outcome.Purchased? || a.outcome.PurchaseFailed?
    ensures a.outcome == PurchaseFailed(PriceRead) <==>
      contract.Some? && Network.IsSupportedNetwork(chainId) && ledger.ticketPrice.None?
    ensures a.outcome == PurchaseFailed(Submission) <==>
      contract.Some? && Network.IsSupportedNetwork(chainId) && ledger.ticketPrice.Some? &&
      ledger.buyTickets(ticketCount, ledger.ticketPrice.value * ticketCount).None?
    ensures a.outcome == PurchaseFailed(Confirmation) <==>
      contract.Some? && Network.IsSupportedNetwork(chainId) && ledger.ticketPrice.Some? &&
      ledger.buyTickets(ticketCount, ledger.ticketPrice.value * ticketCount).Some? &&
      !ledger.confirms(ledger.buyTickets(ticketCount, ledger.ticketPrice.value * ticketCount).value)
    ensures a.outcome == Purchased ==> |a.calls| > 3 && a.calls[3..] == Sync(ledger).calls
    ensures a.outcome != Purchased ==> |a.calls| <= 3
    ensures a.outcome.PurchaseFailed? ==>
      |a.calls| == match a.outcome.step case PriceRead => 1 case Submission => 2 case Confirmation => 3
    ensures forall i :: 0 <= i < |a.calls| && a.calls[i].WriteBuyTickets? ==> i == 1
  {
    if contract.None? then Attempt(NotConnected, [])
    else if !Network.IsSupportedNetwork(chainId) then Attempt(NetworkUnsupported, [])
    else
      match ledger.ticketPrice
      case None => Attempt(PurchaseFailed(PriceRead), [ReadTicketPrice])
      case Some(price) =>
        var totalCost := TotalCost(price, ticketCount);
        var submitted := [ReadTicketPrice, WriteBuyTickets(ticketCount, totalCost)];
        match ledger.buyTickets(ticketCount, totalCost)
        case None => Attempt(PurchaseFailed(Submission), submitted)
        case Some(tx) =>
          var waited := submitted + [WaitForReceipt(tx)];
          if !ledger.confirms(tx) then Attempt(PurchaseFailed(Confirmation), waited)
          else Attempt(Purchased, waited + Sync(ledger).calls)
  }
}
