/**
 * The ERC-20 approval handler: it records the allowance a sender grants a spender on a
 * token, either in the sender's holding (when the spender is one of the chain's registered
 * contracts) or in the sender's vault-user record (when the spender is a vault of that token).
 *
 * `Approve` states the handler's effect on a document snapshot; the method
 * `HandleErc20ApproveOperation` performs it in place and is proved to agree with it.
 */
module Erc20Approve {
  import opened Chain
  import opened Errors
  import opened State

  datatype ApproveArgs = ApproveArgs(spender: Address, amount: int)

  /** An `Erc20_Approve` operation: `sender` approves `args.spender` on token `address`. */
  datatype ApproveOperation = ApproveOperation(sender: Address, address: Address, args: ApproveArgs)

  /** The registered contract `spender` is, matching morpho, then generalAdapter1, then permit2. */
  function Classify(addresses: ChainAddresses, spender: Address): (r: Option<Contract>)
    ensures r.None? <==> forall c :: spender != addresses.AddressOf(c)
    ensures forall c :: r == Some(c) <==>
      && spender == addresses.AddressOf(c)
      && forall earlier :: Rank(earlier) < Rank(c) ==> spender != addresses.AddressOf(earlier)
  {
    if spender == addresses.morpho then
      assert spender == addresses.AddressOf(Morpho);
      Some(Morpho)
    else if spender == addresses.generalAdapter1 then
      assert spender == addresses.AddressOf(GeneralAdapter1);
      Some(GeneralAdapter1)
    else if spender == addresses.permit2 then
      assert spender == addresses.AddressOf(Permit2);
      Some(Permit2)
    else None
  }

  /** Whether `spender` is a vault whose underlying asset is `token`. */
  predicate IsVaultOf(d: Document, spender: Address, token: Address) {
    spender in d.vaults && d.vaults[spender].asset == token
  }

  /**
   * The records the handler looks up must be present: the sender's holding of the token
   * always, and the (vault, sender) vault user when the vault branch is taken.
   */
  predicate HasRecords(d: Document, op: ApproveOperation, addresses: ChainAddresses) {
    && (op.sender, op.address) in d.holdings
    && (Classify(addresses, op.args.spender).None? && IsVaultOf(d, op.args.spender, op.address)
        ==> (op.args.spender, op.sender) in d.vaultUsers)
  }

  /** The sender's current allowance for contract `c` on the approved token. */
  function CurrentAllowance(d: Document, op: ApproveOperation, c: Contract): int
    requires (op.sender, op.address) in d.holdings
  {
    d.holdings[(op.sender, op.address)].erc20Allowances.Get(c)
  }

  /** The approve-only-once rule refuses this operation for registered contract `c`. */
  predicate RefusedOnce(d: Document, op: ApproveOperation, onlyOnce: ApproveOnlyOnceTokens, c: Contract)
    requires (op.sender, op.address) in d.holdings
  {
    IsApproveOnlyOnce(onlyOnce, d.chainId, op.address) && CurrentAllowance(d, op, c) > 0 && op.args.amount > 0
  }

  /** The document after the approval, or the error the handler throws. */
  function Approve(d: Document, op: ApproveOperation, chainAddresses: ChainId -> ChainAddresses,
                   onlyOnce: ApproveOnlyOnceTokens): (r: Result<Document>)
    requires HasRecords(d, op, chainAddresses(d.chainId))
    ensures r.Ok? ==> r.value.chainId == d.chainId && r.value.vaults == d.vaults
    ensures r.Err? ==> r.error.NonZeroAllowance? || r.error.UnknownAllowance?
  {
    var holding := d.holdings[(op.sender, op.address)];
    match Classify(chainAddresses(d.chainId), op.args.spender)
    case Some(contract) =>
      if IsApproveOnlyOnce(onlyOnce, d.chainId, op.address)
         && holding.erc20Allowances.Get(contract) > 0 && op.args.amount > 0
      then
        Err(NonZeroAllowance(op.address, op.sender, contract, op.args.amount))
      else
        var allowances := holding.erc20Allowances.With(contract, op.args.amount);
        Ok(d.(holdings := d.holdings[(op.sender, op.address) := holding.(erc20Allowances := allowances)]))
    case None =>
      if IsVaultOf(d, op.args.spender, op.address) then
        var key := (op.args.spender, op.sender);
        Ok(d.(vaultUsers := d.vaultUsers[key := d.vaultUsers[key].(allowance := op.args.amount)]))
      else
        Err(UnknownAllowance(op.address, op.sender, op.args.spender))
  }

  /** The handler as it runs: it updates `data` in place, or throws and leaves it untouched. */
  method HandleErc20ApproveOperation(op: ApproveOperation, data: SimulationState,
                                     getChainAddresses: ChainId -> ChainAddresses,
                                     onlyOnce: ApproveOnlyOnceTokens)
    returns (outcome: Outcome)
    requires HasRecords(data.View(), op, getChainAddresses(data.chainId))
    modifies data
    ensures match Approve(old(data.View()), op, getChainAddresses, onlyOnce)
            case Ok(d) => outcome == Pass && data.View() == d
            case Err(e) => outcome == Fail(e) && data.View() == old(data.View())
  {
    var senderTokenData := data.holdings[(op.sender, op.address)];
    var addresses := getChainAddresses(data.chainId);
    var contract := Classify(addresses, op.args.spender);
    if contract.Some? {
      var c := contract.value;
      if IsApproveOnlyOnce(onlyOnce, data.chainId, op.address)
         && senderTokenData.erc20Allowances.Get(c) > 0 && op.args.amount > 0
      {
        return Fail(NonZeroAllowance(op.address, op.sender, c, op.args.amount));
      }
      var allowances := senderTokenData.erc20Allowances.With(c, op.args.amount);
      data.holdings := data.holdings[(op.sender, op.address) := senderTokenData.(erc20Allowances := allowances)];
    } else {
      var vault := if op.args.spender in data.vaults then Some(data.vaults[op.args.spender]) else None;
      if vault.Some? && vault.value.asset == op.address {
        var key := (op.args.spender, op.sender);
        var vaultUserData := data.vaultUsers[key];
        data.vaultUsers := data.vaultUsers[key := vaultUserData.(allowance := op.args.amount)];
      } else {
        return Fail(UnknownAllowance(op.address, op.sender, op.args.spender));
      }
    }
    outcome := Pass;
  }

  // ---------------------------------------------------------------------------
  // Allowance cells: the single values an approval may overwrite
  // ---------------------------------------------------------------------------

  /** One allowance value of the document: a holding's slot for a contract, or a vault user's allowance. */
  datatype AllowanceCell =
    | Erc20Slot(user: Address, token: Address, contract: Contract)
    | VaultUserSlot(vault: Address, user: Address)

  /** The value of `cell` in `d`, or `None` when its record is absent. */
  function ReadCell(d: Document, cell: AllowanceCell): Option<int> {
    match cell
    case Erc20Slot(user, token, c) =>
      if (user, token) in d.holdings then Some(d.holdings[(user, token)].erc20Allowances.Get(c)) else None
    case VaultUserSlot(vault, user) =>
      if (vault, user) in d.vaultUsers then Some(d.vaultUsers[(vault, user)].allowance) else None
  }

  /** The cell the operation targets: the holding slot of the registered contract, else the vault user. */
  function TargetCell(op: ApproveOperation, addresses: ChainAddresses): AllowanceCell {
    match Classify(addresses, op.args.spender)
    case Some(c) => Erc20Slot(op.sender, op.address, c)
    case None => VaultUserSlot(op.args.spender, op.sender)
  }

  /** `d'` has the same records, balances and vaults as `d`, and differs at most in allowance cells. */
  predicate SameRecords(d: Document, d': Document) {
    && d'.chainId == d.chainId
    && d'.vaults == d.vaults
    && d'.holdings.Keys == d.holdings.Keys
    && d'.vaultUsers.Keys == d.vaultUsers.Keys
    && forall k :: k in d.holdings ==> d'.holdings[k].balance == d.holdings[k].balance
  }

  // ---------------------------------------------------------------------------
  // Properties of the approval
  // ---------------------------------------------------------------------------

  /** A spender equal to the registry's morpho address gets the morpho slot, whatever else it equals. */
  lemma MorphoSpenderSetsMorphoSlot(d: Document, op: ApproveOperation,
                                    chainAddresses: ChainId -> ChainAddresses, onlyOnce: ApproveOnlyOnceTokens)
    requires HasRecords(d, op, chainAddresses(d.chainId))
    requires op.args.spender == chainAddresses(d.chainId).morpho
    ensures Approve(d, op, chainAddresses, onlyOnce).Ok? ==>
      Approve(d, op, chainAddresses, onlyOnce).value.holdings[(op.sender, op.address)].erc20Allowances.morpho
        == op.args.amount
  {
  }

  /**
   * For a registered spender classified as `c`, the approval succeeds exactly when the
   * approve-only-once rule does not refuse it, and then the sender's slot for `c` holds the amount.
   */
  lemma RegisteredSpenderOverwritesSlot(d: Document, op: ApproveOperation, c: Contract,
                                        chainAddresses: ChainId -> ChainAddresses, onlyOnce: ApproveOnlyOnceTokens)
    requires HasRecords(d, op, chainAddresses(d.chainId))
    requires Classify(chainAddresses(d.chainId), op.args.spender) == Some(c)
    ensures Approve(d, op, chainAddresses, onlyOnce).Ok? <==> !RefusedOnce(d, op, onlyOnce, c)
    ensures Approve(d, op, chainAddresses, onlyOnce).Ok? ==>
      Approve(d, op, chainAddresses, onlyOnce).value.holdings[(op.sender, op.address)].erc20Allowances.Get(c)
        == op.args.amount
  {
  }

  /**
   * The approval throws `NonZeroAllowance` exactly when the spender is a registered contract, the
   * token is approve-only-once on this chain, the current slot is positive and the amount is positive.
   */
  lemma NonZeroAllowanceExactly(d: Document, op: ApproveOperation,
                                chainAddresses: ChainId -> ChainAddresses, onlyOnce: ApproveOnlyOnceTokens)
    requires HasRecords(d, op, chainAddresses(d.chainId))
    ensures var r := Approve(d, op, chainAddresses, onlyOnce);
      var c := Classify(chainAddresses(d.chainId), op.args.spender);
      (r.Err? && r.error.NonZeroAllowance?) <==> c.Some? && RefusedOnce(d, op, onlyOnce, c.value)
    ensures var r := Approve(d, op, chainAddresses, onlyOnce);
      r.Err? && r.error.NonZeroAllowance? ==>
        r.error == NonZeroAllowance(op.address, op.sender, TargetCell(op, chainAddresses(d.chainId)).contract,
                                    op.args.amount)
  {
  }

  /** Setting a registered contract's allowance to zero (or below) is never refused. */
  lemma ZeroApprovalAccepted(d: Document, op: ApproveOperation,
                             chainAddresses: ChainId -> ChainAddresses, onlyOnce: ApproveOnlyOnceTokens)
    requires HasRecords(d, op, chainAddresses(d.chainId))
    requires Classify(chainAddresses(d.chainId), op.args.spender).Some?
    requires op.args.amount <= 0
    ensures Approve(d, op, chainAddresses, onlyOnce).Ok?
  {
  }

  /**
   * A spender outside the registry that is a vault of the token gets the amount as the
   * (vault, sender) vault-user allowance; no holding changes.
   */
  lemma VaultSpenderSetsVaultUserAllowance(d: Document, op: ApproveOperation,
                                           chainAddresses: ChainId -> ChainAddresses, onlyOnce: ApproveOnlyOnceTokens)
    requires HasRecords(d, op, chainAddresses(d.chainId))
    requires Classify(chainAddresses(d.chainId), op.args.spender).None?
    requires IsVaultOf(d, op.args.spender, op.address)
    ensures Approve(d, op, chainAddresses, onlyOnce).Ok?
    ensures Approve(d, op, chainAddresses, onlyOnce).value.vaultUsers[(op.args.spender, op.sender)].allowance
      == op.args.amount
    ensures Approve(d, op, chainAddresses, onlyOnce).value.holdings == d.holdings
  {
  }

  /** A spender outside the registry that is not a vault of the token is refused with `UnknownAllowance`. */
  lemma UnknownSpenderRefused(d: Document, op: ApproveOperation,
                              chainAddresses: ChainId -> ChainAddresses, onlyOnce: ApproveOnlyOnceTokens)
    requires HasRecords(d, op, chainAddresses(d.chainId))
    requires Classify(chainAddresses(d.chainId), op.args.spender).None?
    ensures Approve(d, op, chainAddresses, onlyOnce).Err? <==> !IsVaultOf(d, op.args.spender, op.address)
    ensures !IsVaultOf(d, op.args.spender, op.address) ==>
      Approve(d, op, chainAddresses, onlyOnce) == Err(UnknownAllowance(op.address, op.sender, op.args.spender))
  {
  }

  /**
   * A successful approval writes the amount into the target cell and changes no other cell,
   * no balance, no vault and no set of records.
   */
  lemma ApprovalChangesOnlyTargetCell(d: Document, op: ApproveOperation,
                                      chainAddresses: ChainId -> ChainAddresses, onlyOnce: ApproveOnlyOnceTokens)
    requires HasRecords(d, op, chainAddresses(d.chainId))
    requires Approve(d, op, chainAddresses, onlyOnce).Ok?
    ensures var d' := Approve(d, op, chainAddresses, onlyOnce).value;
      var target := TargetCell(op, chainAddresses(d.chainId));
      && SameRecords(d, d')
      && ReadCell(d', target) == Some(op.args.amount)
      && forall cell :: cell != target ==> ReadCell(d', cell) == ReadCell(d, cell)
  {
  }

  /**
   * Applying the same approval to its own result succeeds with no further change, except that an
   * approve-only-once token given a positive amount for a registered contract is then refused.
   */
  lemma ReapplyingApproval(d: Document, op: ApproveOperation,
                           chainAddresses: ChainId -> ChainAddresses, onlyOnce: ApproveOnlyOnceTokens)
    requires HasRecords(d, op, chainAddresses(d.chainId))
    requires Approve(d, op, chainAddresses, onlyOnce).Ok?
    ensures HasRecords(Approve(d, op, chainAddresses, onlyOnce).value, op, chainAddresses(d.chainId))
    ensures var d' := Approve(d, op, chainAddresses, onlyOnce).value;
      var c := Classify(chainAddresses(d.chainId), op.args.spender);
      if c.Some? && IsApproveOnlyOnce(onlyOnce, d.chainId, op.address) && op.args.amount > 0 then
        Approve(d', op, chainAddresses, onlyOnce) == Err(NonZeroAllowance(op.address, op.sender, c.value, op.args.amount))
      else
        Approve(d', op, chainAddresses, onlyOnce) == Ok(d')
  {
    var d' := Approve(d, op, chainAddresses, onlyOnce).value;
    var c := Classify(chainAddresses(d.chainId), op.args.spender);
    if c.Some? {
      var k := (op.sender, op.address);
      assert d'.holdings[k].erc20Allowances.Get(c.value) == op.args.amount;
      assert d'.holdings[k := d'.holdings[k]] == d'.holdings;
    } else {
      var key := (op.args.spender, op.sender);
      assert d'.vaultUsers[key := d'.vaultUsers[key]] == d'.vaultUsers;
    }
  }
}
