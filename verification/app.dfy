/**
 * The state of the jackpot page (the `App` component) and the handlers that change
 * it. Remote replies, the wallet provider, the clock and the random coins are
 * parameters of the handlers; `calls` records every contract call made.
 */
module App {
  import opened Wrappers
  import Countdown
  import Network
  import opened Jackpot
  import opened Tickets

  class JackpotApp {
    /** The contract address from the environment configuration. */
    const contractAddress: string

    var jackpotBalance: nat
    var entryFee: nat
    var winProbability: nat
    var ticketCount: int
    var prevTicketCount: int
    var fallingCoins: seq<Coin>
    var contract: Option<ContractHandle>
    var isConnected: bool
    var isAnimating: bool
    var currentChainId: Option<int>
    var timeLeft: string

    /** Every contract call made so far, oldest first. */
    ghost var calls: seq<RemoteCall>

    /** At least one ticket is always selected, and "connected" means a contract is bound. */
    ghost predicate Valid()
      reads this
    {
      ticketCount >= 1 && (isConnected <==> contract.Some?)
    }

    /** The initial `useState` values. */
    constructor (contractAddress: string)
      ensures Valid()
      ensures this.contractAddress == contractAddress
      ensures jackpotBalance == 0 && entryFee == 0 && winProbability == 0
      ensures ticketCount == 1 && prevTicketCount == 1 && fallingCoins == []
      ensures contract.None? && !isConnected && !isAnimating && currentChainId.None?
      ensures timeLeft == "" && calls == []
    {
      this.contractAddress := contractAddress;
      jackpotBalance, entryFee, winProbability := 0, 0, 0;
      ticketCount, prevTicketCount, fallingCoins := 1, 1, [];
      contract, isConnected, isAnimating, currentChainId := None, false, false, None;
      timeLeft := "";
      calls := [];
    }

    /** The enter button is enabled: `!(!isConnected || !isSupportedNetwork())`. */
    predicate EnterEnabled()
      reads this
      ensures Valid() ==> (EnterEnabled() <==> contract.Some? && Network.IsSupportedNetwork(currentChainId))
      ensures EnterEnabled() ==> currentChainId == Some(Network.FLARE_COSTON) || currentChainId == Some(Network.FLARE_COSTON2)
    {
      isConnected && Network.IsSupportedNetwork(currentChainId)
    }

    /**
     * The start-up `init`: when signed in with an Ethereum wallet, bind the contract
     * to its client. `primaryWallet` is `None` when there is no such wallet.
     */
    method Init(isLoggedIn: bool, primaryWallet: Option<WalletClient>, ledger: Ledger)
      requires Valid()
      modifies this
      ensures Valid()
      ensures if isLoggedIn && primaryWallet.Some? then
                contract == Some(ContractHandle(contractAddress, primaryWallet.value)) && isConnected &&
                calls == old(calls) + Sync(ledger).calls &&
                jackpotBalance == Sync(ledger).balance.GetOr(old(jackpotBalance)) &&
                entryFee == Sync(ledger).entryFee.GetOr(old(entryFee)) &&
                winProbability == Sync(ledger).winProbability.GetOr(old(winProbability))
              else
                contract == old(contract) && isConnected == old(isConnected) && calls == old(calls) &&
                jackpotBalance == old(jackpotBalance) && entryFee == old(entryFee) &&
                winProbability == old(winProbability)
      ensures ticketCount == old(ticketCount) && prevTicketCount == old(prevTicketCount)
      ensures fallingCoins == old(fallingCoins) && isAnimating == old(isAnimating)
      ensures currentChainId == old(currentChainId) && timeLeft == old(timeLeft)
    {
      if isLoggedIn && primaryWallet.Some? {
        SetUpContract(primaryWallet.value, ledger);
      }
    }

    /** `setUpContract`: bind the contract, mark the page connected, and refresh. */
    method SetUpContract(walletClient: WalletClient, ledger: Ledger)
      requires Valid()
      modifies this`contract, this`isConnected, this`jackpotBalance, this`entryFee, this`winProbability, this`calls
      ensures Valid()
      ensures contract == Some(ContractHandle(contractAddress, walletClient)) && isConnected
      ensures calls == old(calls) + Sync(ledger).calls
      ensures jackpotBalance == Sync(ledger).balance.GetOr(old(jackpotBalance))
      ensures entryFee == Sync(ledger).entryFee.GetOr(old(entryFee))
      ensures winProbability == Sync(ledger).winProbability.GetOr(old(winProbability))
    {
      contract := Some(ContractHandle(contractAddress, walletClient));
      isConnected := true;
      UpdateJackpotInfo(ledger);
    }

    /** `updateJackpotInfo`: each field is set right after its own read succeeds. */
    method UpdateJackpotInfo(ledger: Ledger)
      modifies this`jackpotBalance, this`entryFee, this`winProbability, this`calls
      ensures calls == old(calls) + Sync(ledger).calls
      ensures jackpotBalance == Sync(ledger).balance.GetOr(old(jackpotBalance))
      ensures entryFee == Sync(ledger).entryFee.GetOr(old(entryFee))
      ensures winProbability == Sync(ledger).winProbability.GetOr(old(winProbability))
    {
      calls := calls + [ReadJackpotBalance];
      if ledger.jackpotBalance.None? {
        return;
      }
      jackpotBalance := ledger.jackpotBalance.value;
      calls := calls + [ReadEntryFee];
      if ledger.entryFee.None? {
        return;
      }
      entryFee := ledger.entryFee.value;
      calls := calls + [ReadWinProbability];
      if ledger.winProbability.None? {
        return;
      }
      winProbability := ledger.winProbability.value;
    }

    /**
     * `checkNetwork`, run at start-up and on every `chainChanged` event: with a
     * provider present (`reported` is its chain id), store the id unconditionally.
     */
    method CheckNetwork(reported: Option<int>)
      modifies this`currentChainId
      ensures currentChainId == if reported.Some? then reported else old(currentChainId)
    {
      if reported.Some? {
        currentChainId := reported;
      }
    }

    /** One tick of the one-second timer at local time `now`. */
    method OnTimerTick(now: int)
      modifies this`timeLeft
      ensures timeLeft == Countdown.Label(Countdown.Tick(now))
      ensures timeLeft != "Drawing now!"
    {
      var display := Countdown.Tick(now);
      timeLeft := Countdown.Label(display);
      assert timeLeft[|timeLeft| - 1] == 's';
    }

    /**
     * `enterJackpot`: return when there is no contract or the network is not
     * supported; otherwise read the price, buy `ticketCount` tickets for
     * `price * ticketCount`, wait for the receipt and, on success, refresh.
     * Any failure ends in the error branch without a refresh.
     */
    method EnterJackpot(ledger: Ledger) returns (outcome: PurchaseOutcome)
      requires Valid()
      modifies this`jackpotBalance, this`entryFee, this`winProbability, this`calls
      ensures Valid()
      ensures outcome == Purchase(contract, currentChainId, ticketCount, ledger).outcome
      ensures calls == old(calls) + Purchase(contract, currentChainId, ticketCount, ledger).calls
      ensures old(EnterEnabled()) <==> |calls| > |old(calls)|
      ensures if outcome == Purchased then
                jackpotBalance == Sync(ledger).balance.GetOr(old(jackpotBalance)) &&
                entryFee == Sync(ledger).entryFee.GetOr(old(entryFee)) &&
                winProbability == Sync(ledger).winProbability.GetOr(old(winProbability))
              else
                jackpotBalance == old(jackpotBalance) && entryFee == old(entryFee) &&
                winProbability == old(winProbability)
    {
      if contract.None? {
        return NotConnected;
      }
      if !Network.IsSupportedNetwork(currentChainId) {
        return NetworkUnsupported;
      }
      calls := calls + [ReadTicketPrice];
      if ledger.ticketPrice.None? {
        return PurchaseFailed(PriceRead);
      }
      var price := ledger.ticketPrice.value;
      var totalCost := TotalCost(price, ticketCount);
      calls := calls + [WriteBuyTickets(ticketCount, totalCost)];
      var tx := ledger.buyTickets(ticketCount, totalCost);
      if tx.None? {
        return PurchaseFailed(Submission);
      }
      calls := calls + [WaitForReceipt(tx.value)];
      if !ledger.confirms(tx.value) {
        return PurchaseFailed(Confirmation);
      }
      outcome := Purchased;
      UpdateJackpotInfo(ledger);
    }

    /**
     * `adjustTicketCount`: remember the old count, clamp the new one to at least
     * one, start the bump animation and, for a positive amount, drop `newCoins`
     * (the randomly generated coins).
     */
    method AdjustTicketCount(amount: int, newCoins: seq<Coin>)
      requires Valid()
      modifies this`prevTicketCount, this`ticketCount, this`isAnimating, this`fallingCoins
      ensures Valid()
      ensures prevTicketCount == old(ticketCount)
      ensures ticketCount == AdjustedCount(old(ticketCount), amount)
      ensures isAnimating
      ensures fallingCoins == if amount > 0 then old(fallingCoins) + newCoins else old(fallingCoins)
    {
      prevTicketCount := ticketCount;
      ticketCount := AdjustedCount(ticketCount, amount);
      isAnimating := true;
      if amount > 0 {
        fallingCoins := fallingCoins + newCoins;
      }
    }

    /** The `setTimeout` callback that ends the bump animation. */
    method EndAnimation()
      modifies this`isAnimating
      ensures !isAnimating
    {
      isAnimating := false;
    }

    /** `removeCoin`: drop every coin with this id, keeping the others in order. */
    method RemoveCoin(id: real)
      modifies this`fallingCoins
      ensures fallingCoins == WithoutCoin(old(fallingCoins), id)
    {
      fallingCoins := WithoutCoin(fallingCoins, id);
    }
  }
}
