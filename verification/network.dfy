/** The networks the jackpot page accepts, and the guard that checks the wallet's current one. */
module Network {
  import opened Wrappers

  /** Chain ids of the two Flare test networks. */
  const FLARE_COSTON: int := 14
  const FLARE_COSTON2: int := 114

  /** One entry of the wallet widget's network list. */
  datatype NetworkConfig = NetworkConfig(
    chainId: int,
    chainName: string,
    currencyName: string,
    currencySymbol: string,
    decimals: nat,
    rpcUrls: seq<string>,
    blockExplorerUrls: seq<string>)

  /** The network list handed to the wallet widget, Coston2 first. */
  const EVM_NETWORKS: seq<NetworkConfig> := [
    NetworkConfig(FLARE_COSTON2, "Flare Coston2", "Coston2 Flare", "C2FLR", 18,
                  ["https://coston2-api.flare.network/ext/C/rpc"], ["https://coston2-explorer.flare.network"]),
    NetworkConfig(FLARE_COSTON, "Flare Coston", "Coston Flare", "CFLR", 18,
                  ["https://coston-api.flare.network/ext/C/rpc"], ["https://coston-explorer.flare.network"])
  ]

  /**
   * `currentChainId === FLARE_COSTON || currentChainId === FLARE_COSTON2`, where
   * `None` stands for the `null` of a chain id not yet known.
   */
  function IsSupportedNetwork(currentChainId: Option<int>): (supported: bool)
    ensures currentChainId.None? ==> !supported
    ensures supported <==> exists n :: n in EVM_NETWORKS && currentChainId == Some(n.chainId)
  {
    assert EVM_NETWORKS[0] in EVM_NETWORKS && EVM_NETWORKS[1] in EVM_NETWORKS;
    currentChainId == Some(FLARE_COSTON) || currentChainId == Some(FLARE_COSTON2)
  }
}
