# Operation simulator: ERC-20 approvals and the market-operation entry point

This project models two handlers of an off-chain simulator. The simulator replays a lending protocol's operations against a snapshot of on-chain state, called the state document.

- **The ERC-20 approval handler** (`Erc20_Approve`). It checks the spender against the chain's three registered contracts in a fixed order: morpho, then the bundler's general adapter, then permit2.
  - If the spender is one of them, the handler overwrites that contract's allowance slot in the sender's holding of the token. For an approve-only-once token it refuses (`NonZeroAllowance`) when the current allowance and the new amount are both positive, even if they are equal.
  - Otherwise, if the spender is a vault whose asset is the token, the handler overwrites the allowance of the (vault, sender) vault user.
  - Otherwise it throws `UnknownAllowanceError`, modelled as `UnknownAllowance(address, owner, spender)`.
- **The market-operation entry point** (`Blue_*` operations). It rejects a negative `assets`, a negative `shares`, or a `slippage` outside [0, WAD], checking them in that order. A present but undefined argument counts as 0. It then sends the operation to the handler for its kind, one of ten.

Modules:

- `Chain` (chain.dfy): addresses, the per-chain contract registry and the approve-only-once token lists.
- `Errors` (errors.dfy): the simulation errors and the `Result`/`Outcome` types that carry them.
- `State` (state.dfy): holdings, vaults and vault users. `Document` is a value snapshot of the state document. `SimulationState` is the mutable document itself.
- `Erc20Approve` (erc20_approve.dfy) models the approval handler in two forms:
  - `Approve` gives the handler's effect on a snapshot.
  - `HandleErc20ApproveOperation` updates a `SimulationState` in place and is proved to agree with `Approve`.
  - The lemmas state what the handler guarantees.
- `BlueDispatch` (blue_dispatch.dfy): argument validation and routing for market operations.

Amounts and allowances are unbounded integers, because the source's amounts are bigints and the approval handler never checks the sign of `amount` (packages/simulation-sdk/src/handlers/erc20/approve.ts:10-36). A negative approval is stored as given.

## Model

| member | source | states |
|---|---|---|
| `State.Erc20Allowances.With` | packages/simulation-sdk/src/handlers/erc20/approve.ts:36 | the written slot holds the new amount and every other contract's slot keeps its value |
| `Erc20Approve.Classify` | packages/simulation-sdk/src/handlers/erc20/approve.ts:13-26 | the spender is classified as contract c exactly when it equals c's registered address and none of the earlier contracts' addresses (morpho, then generalAdapter1, then permit2); no class exactly when it equals none |
| `Erc20Approve.Approve` | packages/simulation-sdk/src/handlers/erc20/approve.ts:10-46 | a successful approval keeps the chain and the vaults; a failure is either `NonZeroAllowance` or `UnknownAllowance` |
| `Erc20Approve.HandleErc20ApproveOperation` | packages/simulation-sdk/src/handlers/erc20/approve.ts:8-46 | the in-place handler passes and leaves exactly the document `Approve` gives, or throws `Approve`'s error and leaves the document unchanged |
| `Erc20Approve.MorphoSpenderSetsMorphoSlot` | packages/simulation-sdk/src/handlers/erc20/approve.ts:19-36 | a spender equal to the morpho address ends, on success, with the sender's morpho slot equal to the amount, even if it also equals another registered address |
| `Erc20Approve.RegisteredSpenderOverwritesSlot` | packages/simulation-sdk/src/handlers/erc20/approve.ts:19-36 | for a registered spender, success holds iff the approve-only-once rule does not refuse, and on success the sender's slot for that contract equals the amount |
| `Erc20Approve.NonZeroAllowanceExactly` | packages/simulation-sdk/src/handlers/erc20/approve.ts:28-34 | `NonZeroAllowance` is thrown iff the spender is registered, the token is approve-only-once on the document's chain, the current slot is positive and the amount is positive; the error carries token, sender, contract and amount |
| `Erc20Approve.ZeroApprovalAccepted` | packages/simulation-sdk/src/handlers/erc20/approve.ts:28-36 | approving a registered contract for zero (or less) always succeeds |
| `Erc20Approve.VaultSpenderSetsVaultUserAllowance` | packages/simulation-sdk/src/handlers/erc20/approve.ts:37-43 | an unregistered spender that is a vault of the token succeeds, sets the (vault, sender) allowance to the amount and leaves every holding unchanged |
| `Erc20Approve.UnknownSpenderRefused` | packages/simulation-sdk/src/handlers/erc20/approve.ts:37-44 | an unregistered spender fails iff it is not a vault of the token (no vault, or a vault of another asset), and then the error is `UnknownAllowance(token, sender, spender)` |
| `Erc20Approve.ApprovalChangesOnlyTargetCell` | packages/simulation-sdk/src/handlers/erc20/approve.ts:28-45 | on success the target allowance cell holds the amount; every other allowance cell, every balance, the vaults, the chain and the sets of records are unchanged |
| `Erc20Approve.ReapplyingApproval` | packages/simulation-sdk/src/handlers/erc20/approve.ts:28-36 | applying the same approval to its result succeeds with no change, except for a registered spender on an approve-only-once token with a positive amount, which is then refused with `NonZeroAllowance` |
| `BlueDispatch.Route` | packages/simulation-sdk/src/handlers/blue/index.ts:40-61 | the handler chosen for a kind is the handler written for that kind |
| `BlueDispatch.RouteInverse` | packages/simulation-sdk/src/handlers/blue/index.ts:40-61 | every handler is the one chosen for its own kind, so routing is a bijection between the ten kinds and the ten handlers |
| `BlueDispatch.RouteInjective` | packages/simulation-sdk/src/handlers/blue/index.ts:40-61 | distinct kinds reach distinct handlers |
| `BlueDispatch.Validate` | packages/simulation-sdk/src/handlers/blue/index.ts:21-38 | validation passes iff no argument is invalid; it fails with `InvalidInput(name, v)` iff `name` is invalid with defaulted value v and every argument checked before it is valid (order: assets, shares, slippage) |
| `BlueDispatch.HandleBlueOperation` | packages/simulation-sdk/src/handlers/blue/index.ts:17-62 | a failed validation is returned as the operation's error |
| `BlueDispatch.NegativeAssetsRejected` | packages/simulation-sdk/src/handlers/blue/index.ts:21-25 | a present negative `assets` fails with `InvalidInput(Assets, assets)` whatever the other arguments are |
| `BlueDispatch.NegativeSharesRejected` | packages/simulation-sdk/src/handlers/blue/index.ts:27-31 | with valid `assets`, a present negative `shares` fails with `InvalidInput(Shares, shares)` |
| `BlueDispatch.SlippageAcceptedWithinWad` | packages/simulation-sdk/src/handlers/blue/index.ts:33-38 | with valid amounts, a given slippage passes iff 0 <= slippage <= WAD (both ends accepted), and otherwise fails with `InvalidInput(Slippage, slippage)` |
| `BlueDispatch.UndefinedArgsPass` | packages/simulation-sdk/src/handlers/blue/index.ts:21-38 | arguments that are missing or present but undefined default to 0 and pass |
| `BlueDispatch.FailedValidationRunsNoHandler` | packages/simulation-sdk/src/handlers/blue/index.ts:21-40 | when validation fails, the result is an `InvalidInput` error that does not depend on the handlers or the document |
| `BlueDispatch.ValidOperationReachesOwnHandler` | packages/simulation-sdk/src/handlers/blue/index.ts:40-61 | when validation passes, the result is what the operation kind's own handler returns, and handlers that agree on that one give the same result |

## Left out

- Erc20Approve.Approve: the sender's holding, and in the vault branch the (vault, sender) vault user, must be present (`HasRecords`). The lookups that would throw when a record is missing are not part of this model.
- Erc20Approve.HandleErc20ApproveOperation: has the same `HasRecords` precondition, for the same reason.
- The chain-address lookup is a foreign library call. It is a parameter, a function from chain id to the three registered addresses.
- The approve-only-once token lists live in a constants file that is not part of this model. They are a parameter: a map from chain id to a list of tokens, where a chain with no list has no such tokens.
- The ten per-kind market handlers (accrue interest, set authorization, borrow, repay, supply, supply collateral, withdraw, withdraw collateral, flash loan, buy debt) are not part of this model. They appear only as the `Handler` names and the `run` parameter of `HandleBlueOperation`, and any state changes they make happen inside `run`.
- Operation arguments other than `assets`, `shares`, `slippage` (approval: `spender`, `amount`) are not modelled, because the modelled code does not read them.
- Vaults and vault users keep only the fields the approval handler reads or writes. Holdings keep their allowances and their balance; the handler never touches the balance, which is kept so that the frame lemma can state that no balance changes. The other fields are not modelled.
- Error message text is not modelled. Errors are datatype variants that carry their fields.
- The fixed-point math library, interest accrual, share/asset conversion and the vault deposit/withdraw queue allocation are left out. Their code is not part of this model.
- The vault deposit and withdraw test suites are fixture comparisons of that engine's results, so they are left out too.
- `WAD` is a named constant (10^18), not the math library that defines it.
