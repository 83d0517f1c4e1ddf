/**
 * The parts of the simulation state document that the approval handler reads and writes:
 * holdings keyed by (user, token), vaults keyed by address and vault users keyed by
 * (vault, user), together with the chain the document belongs to.
 */
module State {
  import opened Chain

  /** A holding's allowance slots, one per contract of the registry. */
  datatype Erc20Allowances = Erc20Allowances(morpho: int, generalAdapter1: int, permit2: int)
  {
    /** The allowance granted to contract `c`. */
    function Get(c: Contract): int {
      match c
      case Morpho => morpho
      case GeneralAdapter1 => generalAdapter1
      case Permit2 => permit2
    }

    /** These allowances with the slot of `c` overwritten by `amount`. */
    function With(c: Contract, amount: int): (r: Erc20Allowances)
      ensures r.Get(c) == amount
      ensures forall other :: other != c ==> r.Get(other) == Get(other)
    {
      match c
      case Morpho => this.(morpho := amount)
      case GeneralAdapter1 => this.(generalAdapter1 := amount)
      case Permit2 => this.(permit2 := amount)
    }
  }

  /** What a user holds of one token. */
  datatype Holding = Holding(balance: int, erc20Allowances: Erc20Allowances)

  /** A vault; of its fields only the underlying asset is consulted here. */
  datatype Vault = Vault(asset: Address)

  /** A user's record with one vault: the allowance granted on the user's vault shares. */
  datatype VaultUser = VaultUser(allowance: int)

  /** A value snapshot of the whole document. */
  datatype Document = Document(
    chainId: ChainId,
    holdings: map<(Address, Address), Holding>,
    vaults: map<Address, Vault>,
    vaultUsers: map<(Address, Address), VaultUser>)

  /** The mutable document the handlers receive and update in place. */
  class SimulationState {
    var chainId: ChainId
    /** Keyed by (user, token). */
    var holdings: map<(Address, Address), Holding>
    var vaults: map<Address, Vault>
    /** Keyed by (vault, user). */
    var vaultUsers: map<(Address, Address), VaultUser>

    constructor (d: Document)
      ensures View() == d
    {
      chainId := d.chainId;
      holdings := d.holdings;
      vaults := d.vaults;
      vaultUsers := d.vaultUsers;
    }

    /** The current contents of the document as a value. */
    function View(): Document
      reads this
    {
      Document(chainId, holdings, vaults, vaultUsers)
    }
  }
}
