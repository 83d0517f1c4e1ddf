/** Addresses and the well-known contracts of a chain, as the handlers see them. */
module Chain {

  /** An account or contract address, compared by equality only. */
  type Address = string

  type ChainId = nat

  /** The three protocol contracts an ERC-20 allowance slot can be kept for. */
  datatype Contract = Morpho | GeneralAdapter1 | Permit2

  /** Position of a contract in the order spenders are matched against the registry. */
  function Rank(c: Contract): nat
  {
    match c
    case Morpho => 0
    case GeneralAdapter1 => 1
    case Permit2 => 2
  }

  /** The addresses the registry resolves for one chain. */
  datatype ChainAddresses = ChainAddresses(morpho: Address, generalAdapter1: Address, permit2: Address)
  {
    /** The address registered for contract `c`. */
    function AddressOf(c: Contract): Address {
      match c
      case Morpho => morpho
      case GeneralAdapter1 => generalAdapter1
      case Permit2 => permit2
    }
  }

  /** Tokens whose positive allowance may not be set to a positive amount again, listed per chain. */
  type ApproveOnlyOnceTokens = map<ChainId, seq<Address>>

  /** Whether `token` is on the approve-only-once list of `chainId`; a chain without a list has none. */
  predicate IsApproveOnlyOnce(tokens: ApproveOnlyOnceTokens, chainId: ChainId, token: Address) {
    chainId in tokens && token in tokens[chainId]
  }
}
