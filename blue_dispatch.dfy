/**
 * The entry point for market operations: it checks the amount and slippage arguments of the
 * operation and then routes it to the handler of its kind. The ten handlers themselves are not
 * part of this model; they are named by `Handler` and run through a parameter.
 */
module BlueDispatch {
  import opened Chain
  import opened Errors
  import opened State

  /** The fixed-point scale: 1.0 is 10^18; a slippage bound may be at most one WAD. */
  const WAD: int := 1_000_000_000_000_000_000

  /** An optional integer argument: absent from the arguments, present but undefined, or given. */
  datatype OptionalArg = Missing | Undefined | Given(value: int)
  {
    predicate IsPresent() {
      !Missing?
    }

    /** The argument's value, an undefined one defaulting to zero. */
    function OrZero(): int {
      if Given? then value else 0
    }
  }

  /** The arguments the entry point inspects; a kind that has no such argument leaves it `Missing`. */
  datatype BlueArgs = BlueArgs(assets: OptionalArg, shares: OptionalArg, slippage: OptionalArg)

  /** The ten kinds of market operation. */
  datatype BlueOperationType =
    | AccrueInterest | SetAuthorization | Borrow | Repay | Supply
    | SupplyCollateral | Withdraw | WithdrawCollateral | FlashLoan | ParaswapBuyDebt

  datatype BlueOperation = BlueOperation(kind: BlueOperationType, sender: Address, address: Address, args: BlueArgs)

  /** The per-kind handlers the entry point can call. */
  datatype Handler =
    | HandleAccrueInterest | HandleSetAuthorization | HandleBorrow | HandleRepay | HandleSupply
    | HandleSupplyCollateral | HandleWithdraw | HandleWithdrawCollateral | HandleFlashLoan
    | HandleParaswapBuyDebt

  /** The operation kind a handler is written for. */
  function HandledKind(h: Handler): BlueOperationType {
    match h
    case HandleAccrueInterest => AccrueInterest
    case HandleSetAuthorization => SetAuthorization
    case HandleBorrow => Borrow
    case HandleRepay => Repay
    case HandleSupply => Supply
    case HandleSupplyCollateral => SupplyCollateral
    case HandleWithdraw => Withdraw
    case HandleWithdrawCollateral => WithdrawCollateral
    case HandleFlashLoan => FlashLoan
    case HandleParaswapBuyDebt => ParaswapBuyDebt
  }

  /** The handler the entry point calls for an operation of kind `kind`. */
  function Route(kind: BlueOperationType): (h: Handler)
    ensures HandledKind(h) == kind
  {
    match kind
    case AccrueInterest => HandleAccrueInterest
    case SetAuthorization => HandleSetAuthorization
    case Borrow => HandleBorrow
    case Repay => HandleRepay
    case Supply => HandleSupply
    case SupplyCollateral => HandleSupplyCollateral
    case Withdraw => HandleWithdraw
    case WithdrawCollateral => HandleWithdrawCollateral
    case FlashLoan => HandleFlashLoan
    case ParaswapBuyDebt => HandleParaswapBuyDebt
  }

  // ---------------------------------------------------------------------------
  // Argument validation
  // ---------------------------------------------------------------------------

  /** The order in which the arguments are checked. */
  function CheckOrder(name: ArgName): nat {
    match name
    case Assets => 0
    case Shares => 1
    case Slippage => 2
  }

  function Arg(args: BlueArgs, name: ArgName): OptionalArg {
    match name
    case Assets => args.assets
    case Shares => args.shares
    case Slippage => args.slippage
  }

  /**
   * Argument `name` is present and out of range once defaulted: amounts must not be negative,
   * and a slippage bound must lie in the closed interval [0, WAD].
   */
  predicate IsInvalid(args: BlueArgs, name: ArgName) {
    var v := Arg(args, name).OrZero();
    Arg(args, name).IsPresent() && (v < 0 || (name == Slippage && v > WAD))
  }

  /** The argument checks, in source order: assets, then shares, then slippage. */
  function Validate(args: BlueArgs): (r: Outcome)
    ensures r == Pass <==> forall name :: !IsInvalid(args, name)
    ensures forall name, v :: r == Fail(InvalidInput(name, v)) <==>
      && IsInvalid(args, name)
      && v == Arg(args, name).OrZero()
      && forall earlier :: CheckOrder(earlier) < CheckOrder(name) ==> !IsInvalid(args, earlier)
    ensures r.Fail? ==> r.error.InvalidInput?
  {
    if args.assets.IsPresent() && args.assets.OrZero() < 0 then
      assert IsInvalid(args, Assets);
      Fail(InvalidInput(Assets, args.assets.OrZero()))
    else if args.shares.IsPresent() && args.shares.OrZero() < 0 then
      assert IsInvalid(args, Shares);
      Fail(InvalidInput(Shares, args.shares.OrZero()))
    else if args.slippage.IsPresent() && (args.slippage.OrZero() < 0 || args.slippage.OrZero() > WAD) then
      assert IsInvalid(args, Slippage);
      Fail(InvalidInput(Slippage, args.slippage.OrZero()))
    else
      Pass
  }

  /**
   * The entry point: validate, then run the handler of the operation's kind on `data`.
   * `run` stands for the handlers, which are not part of this model.
   */
  function HandleBlueOperation(op: BlueOperation, data: Document,
                               run: (Handler, BlueOperation, Document) -> Result<Document>): (r: Result<Document>)
    ensures Validate(op.args).Fail? ==> r == Err(Validate(op.args).error)
  {
    match Validate(op.args)
    case Fail(e) => Err(e)
    case Pass => run(Route(op.kind), op, data)
  }

  // ---------------------------------------------------------------------------
  // Properties of the entry point
  // ---------------------------------------------------------------------------

  /** A present, negative `assets` is reported, whatever the other arguments are. */
  lemma NegativeAssetsRejected(args: BlueArgs, v: int)
    requires args.assets == Given(v) && v < 0
    ensures Validate(args) == Fail(InvalidInput(Assets, v))
  {
  }

  /** A present, negative `shares` is reported when `assets` is acceptable. */
  lemma NegativeSharesRejected(args: BlueArgs, v: int)
    requires !IsInvalid(args, Assets)
    requires args.shares == Given(v) && v < 0
    ensures Validate(args) == Fail(InvalidInput(Shares, v))
  {
  }

  /** With acceptable amounts, a given slippage passes exactly when 0 <= slippage <= WAD. */
  lemma SlippageAcceptedWithinWad(args: BlueArgs, s: int)
    requires !IsInvalid(args, Assets) && !IsInvalid(args, Shares)
    requires args.slippage == Given(s)
    ensures Validate(args) == Pass <==> 0 <= s <= WAD
    ensures Validate(args) != Pass ==> Validate(args) == Fail(InvalidInput(Slippage, s))
  {
  }

  /** Arguments that are absent or present but undefined default to zero and pass. */
  lemma UndefinedArgsPass(args: BlueArgs)
    requires forall name :: !Arg(args, name).Given?
    ensures Validate(args) == Pass
  {
  }

  /**
   * When validation fails no handler runs and the document is not consulted: the result is the
   * validation error, whichever handlers and document are supplied.
   */
  lemma FailedValidationRunsNoHandler(op: BlueOperation, data: Document, data': Document,
                                      run: (Handler, BlueOperation, Document) -> Result<Document>,
                                      run': (Handler, BlueOperation, Document) -> Result<Document>)
    requires Validate(op.args).Fail?
    ensures HandleBlueOperation(op, data, run) == HandleBlueOperation(op, data', run')
    ensures HandleBlueOperation(op, data, run).Err? && HandleBlueOperation(op, data, run).error.InvalidInput?
  {
  }

  /**
   * When validation passes, the result is exactly what the operation kind's own handler returns:
   * two sets of handlers that agree on that one handler give the same result.
   */
  lemma ValidOperationReachesOwnHandler(op: BlueOperation, data: Document,
                                        run: (Handler, BlueOperation, Document) -> Result<Document>,
                                        run': (Handler, BlueOperation, Document) -> Result<Document>,
                                        h: Handler)
    requires Validate(op.args) == Pass
    requires HandledKind(h) == op.kind
    requires run(h, op, data) == run'(h, op, data)
    ensures HandleBlueOperation(op, data, run) == run(h, op, data)
    ensures HandleBlueOperation(op, data, run) == HandleBlueOperation(op, data, run')
  {
    RouteInverse(h);
  }

  /** Routing is a bijection between operation kinds and handlers: each kind has its own handler. */
  lemma RouteInverse(h: Handler)
    ensures Route(HandledKind(h)) == h
  {
  }

  /** Distinct kinds are routed to distinct handlers. */
  lemma RouteInjective(k: BlueOperationType, k': BlueOperationType)
    requires k != k'
    ensures Route(k) != Route(k')
  {
  }
}
