/**
 * The Ethereum send flow's synchronisation logic, as pure functions over the
 * handler's state. The handler keeps one asynchronous slot of its own, the
 * gas-limit estimate, and reads a second one, the fee-rate state, from the
 * fee-priority module. After every event it pushes a loading flag, a fee, an
 * external error and an available balance to the amount and fee modules, and
 * a validity verdict to its delegate. The class in module SendHandler performs the
 * same steps with field updates and is proved equal to these functions.
 */
module SendEthereumModel {
  import opened Wrappers

  type Address = string

  /** An error seen by the send flow; `NoFee` is the one the handler raises itself. */
  datatype Failure = NoFee | Reported(message: string)

  /** The state of one asynchronously fetched number: loading, a value or an error. */
  datatype FeeState = Loading | Value(value: int) | Error(error: Failure)
  {
    predicate IsLoading() { Loading? }
    predicate IsError() { Error? }
    predicate IsValid() { Value? }
  }

  /** The gas-limit slot's initial state (`FeeState.zero`). */
  const ZeroState: FeeState := Value(0)

  /**
   * The interactor's answers. Its fee and balance arithmetic is not part of
   * this model, so `fee` and `availableBalance` are arbitrary functions of
   * (gas price, gas limit).
   */
  datatype Interactor = Interactor(
    fee: (int, int) -> real,
    availableBalance: (int, int) -> real,
    minimumRequiredBalance: real,
    minimumSpendableAmount: Option<real>,
    ethereumBalance: real)

  /** What the collaborating modules answer when the handler asks them during one event. */
  datatype Env = Env(
    feeRateState: FeeState,                  // fee-priority module: state of the fee-rate fetch
    feeRate: Option<int>,                    // fee-priority module: the gas price, if known
    feeModuleValid: bool,                    // fee module: its own validity
    validAmount: Result<real, Failure>,      // amount module: the amount, or the error it throws
    validAddress: Result<Address, Failure>,  // address module: the address, or the error it throws
    currentAmount: real)                     // amount module: the amount as currently entered

  /** The arguments of one gas-limit estimate, tagged with the dispose-bag generation it belongs to. */
  datatype EstimateRequest = EstimateRequest(generation: nat, to: Option<Address>, value: real, gasPrice: Option<int>)

  /** The arguments the interactor's send receives. */
  datatype SendRequest = SendRequest(amount: real, address: Address, gasPrice: int, gasLimit: int)

  /** The values last pushed to the collaborators; None means never pushed. */
  datatype Outputs = Outputs(
    amountLoading: Option<bool>,             // amount module
    availableBalance: Option<real>,
    minimumRequiredBalance: Option<real>,
    minimumAmount: Option<real>,
    feeLoading: Option<bool>,                // fee module
    fee: Option<real>,
    externalError: Option<Failure>,
    availableFeeBalance: Option<real>,
    isValid: Option<bool>)                   // delegate

  /**
   * The handler's whole state. Replacing the dispose bag is modelled by
   * `generation`: a completion is applied only if it belongs to the current
   * generation and the estimate subscribed in it is still `pending`.
   */
  datatype HandlerState = HandlerState(
    gasLimitState: FeeState,
    generation: nat,
    pending: bool,
    lastEstimate: Option<EstimateRequest>,
    feeRateFetches: nat,
    out: Outputs)

  const NothingPushed: Outputs := Outputs(None, None, None, None, None, None, None, None, None)

  /** The state right after construction. */
  const Initial: HandlerState := HandlerState(ZeroState, 0, false, None, 0, NothingPushed)

  /** The loading flag pushed by syncState: either slot is loading. */
  predicate LoadingFlag(feeRateState: FeeState, gasLimitState: FeeState)
  {
    feeRateState.IsLoading() || gasLimitState.IsLoading()
  }

  /** The address passed to the estimate: `try? validAddress()`. */
  function AddressIfValid(a: Result<Address, Failure>): Option<Address>
  {
    if a.Ok? then Some(a.value) else None
  }

  /**
   * `syncState`: both modules receive the same loading flag; while loading
   * nothing else is pushed; otherwise a fee-rate error wins over a gas error
   * (fee 0 and that error), and when both slots hold values the balance, a
   * cleared error and the interactor's fee are pushed.
   */
  function SyncState(h: HandlerState, feeRateState: FeeState, ix: Interactor): (r: HandlerState)
    ensures r == h.(out := r.out)
    ensures r.out.amountLoading == r.out.feeLoading == Some(LoadingFlag(feeRateState, h.gasLimitState))
    ensures LoadingFlag(feeRateState, h.gasLimitState) ==>
      r.out == h.out.(amountLoading := Some(true), feeLoading := Some(true))
    ensures r.out.minimumRequiredBalance == h.out.minimumRequiredBalance && r.out.minimumAmount == h.out.minimumAmount
    ensures r.out.availableFeeBalance == h.out.availableFeeBalance && r.out.isValid == h.out.isValid
    ensures !LoadingFlag(feeRateState, h.gasLimitState) && feeRateState.Error? ==>
      r.out.fee == Some(0.0) && r.out.externalError == Some(feeRateState.error)
      && r.out.availableBalance == h.out.availableBalance
    ensures !LoadingFlag(feeRateState, h.gasLimitState) && !feeRateState.Error? && h.gasLimitState.Error? ==>
      r.out.fee == Some(0.0) && r.out.externalError == Some(h.gasLimitState.error)
      && r.out.availableBalance == h.out.availableBalance
    ensures feeRateState.Value? && h.gasLimitState.Value? ==>
      r.out.fee == Some(ix.fee(feeRateState.value, h.gasLimitState.value))
      && r.out.externalError == None
      && r.out.availableBalance == Some(ix.availableBalance(feeRateState.value, h.gasLimitState.value))
  {
    var loading := LoadingFlag(feeRateState, h.gasLimitState);
    var o := h.out.(amountLoading := Some(loading), feeLoading := Some(loading));
    if loading then h.(out := o)
    else if feeRateState.Error? then h.(out := o.(fee := Some(0.0), externalError := Some(feeRateState.error)))
    else if h.gasLimitState.Error? then h.(out := o.(fee := Some(0.0), externalError := Some(h.gasLimitState.error)))
    else
      var price, limit := feeRateState.value, h.gasLimitState.value;
      h.(out := o.(availableBalance := Some(ix.availableBalance(price, limit)),
                   externalError := None,
                   fee := Some(ix.fee(price, limit))))
  }

  /**
   * `syncValidation`: succeeds exactly when amount and address validate; the
   * verdict it emits is true exactly when it succeeds, the fee module is
   * valid and both slots hold values. Only the verdict changes.
   */
  function SyncValidation(h: HandlerState, env: Env): (r: (HandlerState, bool))
    ensures r.1 <==> env.validAmount.Ok? && env.validAddress.Ok?
    ensures r.0 == h.(out := h.out.(isValid := r.0.out.isValid))
    ensures r.0.out.isValid.Some?
    ensures r.0.out.isValid == Some(true) <==>
      r.1 && env.feeModuleValid && env.feeRateState.Value? && h.gasLimitState.Value?
  {
    var success := env.validAmount.Ok? && env.validAddress.Ok?;
    var verdict := success && env.feeModuleValid && env.feeRateState.IsValid() && h.gasLimitState.IsValid();
    (h.(out := h.out.(isValid := Some(verdict))), success)
  }

  /**
   * `syncEstimateGasLimit`: a new generation supersedes any estimate in
   * flight, the gas slot becomes loading, the loading flag true is pushed
   * and nothing else, and the new estimate is started with the current
   * address, amount and gas price.
   */
  function StartEstimate(h: HandlerState, env: Env, ix: Interactor): (r: HandlerState)
    ensures r.generation == h.generation + 1 && r.pending && r.gasLimitState == Loading
    ensures r.feeRateFetches == h.feeRateFetches
    ensures r.out == h.out.(amountLoading := Some(true), feeLoading := Some(true))
    ensures r.lastEstimate == Some(EstimateRequest(r.generation, AddressIfValid(env.validAddress), env.currentAmount, env.feeRate))
  {
    var bagged := h.(generation := h.generation + 1, pending := true, gasLimitState := Loading);
    var synced := SyncState(bagged, env.feeRateState, ix);
    synced.(lastEstimate := Some(EstimateRequest(synced.generation, AddressIfValid(env.validAddress), env.currentAmount, env.feeRate)))
  }

  /**
   * `onViewDidLoad`: one fee-rate fetch, the interactor's minimums and
   * balance pushed, a sync with the slots as they are, then a new estimate.
   * `env` is what the modules answer once the fetch has been requested.
   */
  function ViewDidLoad(h: HandlerState, env: Env, ix: Interactor): (r: HandlerState)
    ensures r.feeRateFetches == h.feeRateFetches + 1
    ensures r.generation == h.generation + 1 && r.pending && r.gasLimitState == Loading
    ensures r.out.amountLoading == Some(true) && r.out.feeLoading == Some(true)
    ensures r.out.minimumRequiredBalance == Some(ix.minimumRequiredBalance)
    ensures r.out.minimumAmount == if ix.minimumSpendableAmount.Some? then ix.minimumSpendableAmount else h.out.minimumAmount
    ensures r.out.availableFeeBalance == Some(ix.ethereumBalance)
    ensures r.out.isValid == h.out.isValid
    ensures var synced := SyncState(h, env.feeRateState, ix).out;
      r.out.fee == synced.fee && r.out.externalError == synced.externalError
      && r.out.availableBalance == synced.availableBalance
    ensures r.lastEstimate == Some(EstimateRequest(r.generation, AddressIfValid(env.validAddress), env.currentAmount, env.feeRate))
  {
    var fetched := h.(feeRateFetches := h.feeRateFetches + 1);
    var minimums := fetched.(out := fetched.out.(
      minimumRequiredBalance := Some(ix.minimumRequiredBalance),
      minimumAmount := if ix.minimumSpendableAmount.Some? then ix.minimumSpendableAmount else fetched.out.minimumAmount,
      availableFeeBalance := Some(ix.ethereumBalance)));
    StartEstimate(SyncState(minimums, env.feeRateState, ix), env, ix)
  }

  /**
   * On the first view load with the fee rate already known, the sync before
   * the estimate uses the initial gas limit 0: the fee and balance for gas
   * limit 0 are pushed, and then the loading flag.
   */
  lemma FirstViewLoadUsesZeroGasLimit(env: Env, ix: Interactor)
    requires env.feeRateState.Value?
    ensures var r := ViewDidLoad(Initial, env, ix);
      r.out.fee == Some(ix.fee(env.feeRateState.value, 0))
      && r.out.availableBalance == Some(ix.availableBalance(env.feeRateState.value, 0))
      && r.out.externalError == None && r.out.amountLoading == Some(true)
  {
  }

  /**
   * `onChangeAmount` and `onUpdateAddress`: validate, and start a new
   * estimate only if validation succeeded; a failed validation emits
   * `false` and leaves the slots and the estimate in flight alone.
   */
  function Edit(h: HandlerState, env: Env, ix: Interactor): (r: HandlerState)
    ensures !(env.validAmount.Ok? && env.validAddress.Ok?) ==> r == h.(out := h.out.(isValid := Some(false)))
    ensures env.validAmount.Ok? && env.validAddress.Ok? ==>
      r.generation == h.generation + 1 && r.pending && r.gasLimitState == Loading
      && r.out.amountLoading == Some(true) && r.out.feeLoading == Some(true)
      && r.out.fee == h.out.fee && r.out.externalError == h.out.externalError
      && r.out.availableBalance == h.out.availableBalance
      && r.out.isValid == Some(env.feeModuleValid && env.feeRateState.Value? && h.gasLimitState.Value?)
      && r.lastEstimate == Some(EstimateRequest(r.generation, AddressIfValid(env.validAddress), env.currentAmount, env.feeRate))
    ensures r.feeRateFetches == h.feeRateFetches
    ensures r.out.minimumRequiredBalance == h.out.minimumRequiredBalance && r.out.minimumAmount == h.out.minimumAmount
    ensures r.out.availableFeeBalance == h.out.availableFeeBalance
  {
    var validated := SyncValidation(h, env);
    if validated.1 then StartEstimate(validated.0, env, ix) else validated.0
  }

  /** `onUpdateFeePriority`: a sync with the new fee-rate state, then as an edit. */
  function FeePriorityUpdate(h: HandlerState, env: Env, ix: Interactor): (r: HandlerState)
    ensures !(env.validAmount.Ok? && env.validAddress.Ok?) ==>
      r == SyncState(h, env.feeRateState, ix).(out := SyncState(h, env.feeRateState, ix).out.(isValid := Some(false)))
    ensures env.validAmount.Ok? && env.validAddress.Ok? ==>
      r.generation == h.generation + 1 && r.pending && r.gasLimitState == Loading
      && r.out.amountLoading == Some(true) && r.out.feeLoading == Some(true)
      && r.out.isValid == Some(env.feeModuleValid && env.feeRateState.Value? && h.gasLimitState.Value?)
      && r.lastEstimate == Some(EstimateRequest(r.generation, AddressIfValid(env.validAddress), env.currentAmount, env.feeRate))
    ensures r.feeRateFetches == h.feeRateFetches
    ensures r.out.minimumRequiredBalance == h.out.minimumRequiredBalance && r.out.minimumAmount == h.out.minimumAmount
    ensures r.out.availableFeeBalance == h.out.availableFeeBalance
    ensures var synced := SyncState(h, env.feeRateState, ix).out;
      r.out.fee == synced.fee && r.out.externalError == synced.externalError
      && r.out.availableBalance == synced.availableBalance
  {
    Edit(SyncState(h, env.feeRateState, ix), env, ix)
  }

  /**
   * `sync()`, the retry: only when either slot is an error is the fee rate
   * fetched again and a new estimate started; otherwise nothing happens.
   * `env` is read before the fetch is requested, `refetched` after.
   */
  function Retry(h: HandlerState, env: Env, refetched: Env, ix: Interactor): (r: HandlerState)
    ensures !(env.feeRateState.IsError() || h.gasLimitState.IsError()) ==> r == h
    ensures env.feeRateState.IsError() || h.gasLimitState.IsError() ==>
      r.feeRateFetches == h.feeRateFetches + 1 && r.generation == h.generation + 1
      && r.pending && r.gasLimitState == Loading
      && r.out == h.out.(amountLoading := Some(true), feeLoading := Some(true))
      && r.lastEstimate == Some(EstimateRequest(r.generation, AddressIfValid(refetched.validAddress),
                                                refetched.currentAmount, refetched.feeRate))
  {
    if env.feeRateState.IsError() || h.gasLimitState.IsError() then
      StartEstimate(h.(feeRateFetches := h.feeRateFetches + 1), refetched, ix)
    else h
  }

  /** Whether a completion tagged `generation` still belongs to the live dispose bag. */
  predicate Live(h: HandlerState, generation: nat)
  {
    h.pending && generation == h.generation
  }

  /**
   * `onReceive(gasLimit:)` (an Ok result) and `onGasLimitError` (an Err
   * result): a completion from a superseded generation changes nothing; a
   * live one is stored, then synced, then validated.
   */
  function Complete(h: HandlerState, generation: nat, result: Result<int, Failure>, env: Env, ix: Interactor): (r: HandlerState)
    ensures !Live(h, generation) ==> r == h
    ensures Live(h, generation) ==>
      r.gasLimitState == (if result.Ok? then Value(result.value) else Error(result.error))
      && !r.pending && r.generation == h.generation
      && r.out.amountLoading == Some(env.feeRateState.IsLoading())
      && r.out.feeLoading == Some(env.feeRateState.IsLoading())
      && r.out.isValid == Some(env.validAmount.Ok? && env.validAddress.Ok? && env.feeModuleValid
                               && env.feeRateState.Value? && result.Ok?)
    ensures Live(h, generation) && env.feeRateState.Error? ==>
      r.out.fee == Some(0.0) && r.out.externalError == Some(env.feeRateState.error)
    ensures Live(h, generation) && env.feeRateState.Value? && result.Err? ==>
      r.out.fee == Some(0.0) && r.out.externalError == Some(result.error)
    ensures Live(h, generation) && env.feeRateState.Value? && result.Ok? ==>
      r.out.fee == Some(ix.fee(env.feeRateState.value, result.value))
      && r.out.externalError == None
      && r.out.availableBalance == Some(ix.availableBalance(env.feeRateState.value, result.value))
    ensures r.lastEstimate == h.lastEstimate && r.feeRateFetches == h.feeRateFetches
    ensures r.out.minimumRequiredBalance == h.out.minimumRequiredBalance && r.out.minimumAmount == h.out.minimumAmount
    ensures r.out.availableFeeBalance == h.out.availableFeeBalance
    ensures !(env.feeRateState.Value? && result.Ok?) ==> r.out.availableBalance == h.out.availableBalance
    ensures Live(h, generation) && env.feeRateState.Loading? ==>
      r.out.fee == h.out.fee && r.out.externalError == h.out.externalError
      && r.out.availableBalance == h.out.availableBalance
  {
    if Live(h, generation) then
      var stored := h.(gasLimitState := if result.Ok? then Value(result.value) else Error(result.error), pending := false);
      SyncValidation(SyncState(stored, env.feeRateState, ix), env).0
    else h
  }

  /**
   * `sendSingle`: fails with NoFee unless a gas price is known and the gas
   * slot holds a value; then with the amount's or the address's error, in
   * that order; otherwise hands exactly those values to the interactor.
   */
  function Send(h: HandlerState, env: Env): (r: Result<SendRequest, Failure>)
    ensures r.Ok? <==> env.feeRate.Some? && h.gasLimitState.Value? && env.validAmount.Ok? && env.validAddress.Ok?
    ensures env.feeRate.None? || !h.gasLimitState.Value? ==> r == Err(NoFee)
    ensures r.Ok? ==>
      r.value.gasPrice == env.feeRate.value && r.value.gasLimit == h.gasLimitState.value
      && r.value.amount == env.validAmount.value && r.value.address == env.validAddress.value
    ensures env.feeRate.Some? && h.gasLimitState.Value? && env.validAmount.Err? ==> r == Err(env.validAmount.error)
    ensures env.feeRate.Some? && h.gasLimitState.Value? && env.validAmount.Ok? && env.validAddress.Err? ==>
      r == Err(env.validAddress.error)
  {
    if env.feeRate.None? || !h.gasLimitState.Value? then Err(NoFee)
    else if env.validAmount.Err? then Err(env.validAmount.error)
    else if env.validAddress.Err? then Err(env.validAddress.error)
    else Ok(SendRequest(env.validAmount.value, env.validAddress.value, env.feeRate.value, h.gasLimitState.value))
  }

  // ---------------------------------------------------------------------
  // Event sequences

  /** The events the handler reacts to. */
  datatype Event =
    | ViewLoaded(env: Env)
    | AmountChanged(env: Env)
    | AddressUpdated(env: Env)
    | FeePriorityUpdated(env: Env)
    | RetryRequested(env: Env, refetched: Env)
    | GasLimitReceived(generation: nat, gasLimit: int, env: Env)
    | GasLimitFailed(generation: nat, error: Failure, env: Env)

  function Step(h: HandlerState, e: Event, ix: Interactor): HandlerState
  {
    match e
    case ViewLoaded(env) => ViewDidLoad(h, env, ix)
    case AmountChanged(env) => Edit(h, env, ix)
    case AddressUpdated(env) => Edit(h, env, ix)
    case FeePriorityUpdated(env) => FeePriorityUpdate(h, env, ix)
    case RetryRequested(env, refetched) => Retry(h, env, refetched, ix)
    case GasLimitReceived(g, limit, env) => Complete(h, g, Ok(limit), env, ix)
    case GasLimitFailed(g, err, env) => Complete(h, g, Err(err), env, ix)
  }

  function Run(h: HandlerState, events: seq<Event>, ix: Interactor): HandlerState
    decreases |events|
  {
    if events == [] then h else Run(Step(h, events[0], ix), events[1..], ix)
  }

  /**
   * The reachable-state invariant: the gas slot is loading exactly while an
   * estimate of the current generation is outstanding.
   */
  predicate Consistent(h: HandlerState)
  {
    (h.pending <==> h.gasLimitState.Loading?)
    && (h.pending ==> h.lastEstimate.Some? && h.lastEstimate.value.generation == h.generation)
  }

  /** One event never moves the generation backwards. */
  lemma StepGenerationMonotone(h: HandlerState, e: Event, ix: Interactor)
    ensures Step(h, e, ix).generation >= h.generation
  {
  }

  /** Neither does any sequence of events. */
  lemma {:induction false} RunGenerationMonotone(h: HandlerState, events: seq<Event>, ix: Interactor)
    ensures Run(h, events, ix).generation >= h.generation
    decreases |events|
  {
    if events != [] {
      StepGenerationMonotone(h, events[0], ix);
      RunGenerationMonotone(Step(h, events[0], ix), events[1..], ix);
    }
  }

  /**
   * Cancellation: once a later estimate has been started, the result of an
   * earlier one is never applied, whatever happens in between.
   */
  lemma {:induction false} SupersededResultIgnored(
    h: HandlerState, events: seq<Event>, generation: nat, result: Result<int, Failure>, env: Env, ix: Interactor)
    requires generation < h.generation
    ensures Complete(Run(h, events, ix), generation, result, env, ix) == Run(h, events, ix)
  {
    RunGenerationMonotone(h, events, ix);
  }

  /**
   * The result that arrives while a later estimate is in flight is dropped,
   * and the later estimate's own result is applied.
   */
  lemma LastEstimateWins(h: HandlerState, env: Env, ix: Interactor, first: nat, late: int, current: int)
    requires Live(h, first) && env.validAmount.Ok? && env.validAddress.Ok?
    ensures var edited := Edit(h, env, ix);
      Complete(edited, first, Ok(late), env, ix) == edited
      && Complete(edited, edited.generation, Ok(current), env, ix).gasLimitState == Value(current)
  {
  }

  lemma StepConsistent(h: HandlerState, e: Event, ix: Interactor)
    requires Consistent(h)
    ensures Consistent(Step(h, e, ix))
  {
  }

  /** Every state reached from the initial one by events is consistent. */
  lemma {:induction false} RunConsistent(h: HandlerState, events: seq<Event>, ix: Interactor)
    requires Consistent(h)
    ensures Consistent(Run(h, events, ix))
    decreases |events|
  {
    if events != [] {
      StepConsistent(h, events[0], ix);
      RunConsistent(Step(h, events[0], ix), events[1..], ix);
    }
  }

  lemma ReachableConsistent(events: seq<Event>, ix: Interactor)
    ensures Consistent(Run(Initial, events, ix))
  {
    RunConsistent(Initial, events, ix);
  }

  /** Submitting while an estimate is outstanding fails with NoFee. */
  lemma SendWhileEstimatingFails(h: HandlerState, env: Env)
    requires Consistent(h) && h.pending
    ensures Send(h, env) == Err(NoFee)
  {
  }

  /**
   * The verdict emitted by an edit is computed before the new estimate is
   * started, so it can still be true while the gas slot is loading; the
   * loading flag pushed in the same step is true.
   */
  lemma EditVerdictPrecedesEstimate(h: HandlerState, env: Env, ix: Interactor)
    requires env.validAmount.Ok? && env.validAddress.Ok? && env.feeModuleValid
    requires env.feeRateState.Value? && h.gasLimitState.Value?
    ensures var r := Edit(h, env, ix);
      r.out.isValid == Some(true) && r.gasLimitState == Loading && r.out.amountLoading == Some(true)
  {
  }

  /** Running syncState twice in a row pushes the same values as running it once. */
  lemma SyncStateIdempotent(h: HandlerState, feeRateState: FeeState, ix: Interactor)
    ensures SyncState(SyncState(h, feeRateState, ix), feeRateState, ix) == SyncState(h, feeRateState, ix)
  {
  }

  /**
   * A fee-rate error that occurs while the estimate is loading is hidden by
   * the loading flag, and surfaces, with fee 0, once the estimate completes,
   * even if the estimate itself failed.
   */
  lemma FeeRateErrorSurfacesAfterEstimate(
    h: HandlerState, generation: nat, result: Result<int, Failure>, env: Env, ix: Interactor)
    requires Consistent(h) && Live(h, generation) && env.feeRateState.Error?
    ensures SyncState(h, env.feeRateState, ix).out.amountLoading == Some(true)
    ensures var r := Complete(h, generation, result, env, ix);
      r.out.amountLoading == Some(false) && r.out.fee == Some(0.0)
      && r.out.externalError == Some(env.feeRateState.error) && r.out.isValid == Some(false)
  {
  }
}
