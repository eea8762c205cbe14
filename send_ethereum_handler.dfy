/**
 * The send handler as an object: the gas-limit slot, the dispose-bag
 * generation and the values last pushed to the amount module, the fee module
 * and the delegate are fields that each event updates in the source's order.
 * Every method is proved to leave the object in the state that the matching
 * function of SendEthereumModel describes.
 */
module SendHandler {
  import opened Wrappers
  import opened SendEthereumModel

  class SendEthereumHandler {
    const interactor: Interactor

    var estimateGasLimitState: FeeState
    var gasDisposeBag: nat               // generation of the live dispose bag
    var estimatePending: bool            // the estimate subscribed in it has not completed
    var lastEstimate: Option<EstimateRequest>
    var feeRateFetches: nat

    // values last pushed to the amount module
    var amountLoading: Option<bool>
    var availableBalance: Option<real>
    var minimumRequiredBalance: Option<real>
    var minimumAmount: Option<real>
    // values last pushed to the fee module
    var feeLoading: Option<bool>
    var fee: Option<real>
    var externalError: Option<Failure>
    var availableFeeBalance: Option<real>
    // verdict last emitted to the delegate
    var isValid: Option<bool>

    ghost function State(): HandlerState
      reads this
    {
      HandlerState(estimateGasLimitState, gasDisposeBag, estimatePending, lastEstimate, feeRateFetches,
        Outputs(amountLoading, availableBalance, minimumRequiredBalance, minimumAmount,
                feeLoading, fee, externalError, availableFeeBalance, isValid))
    }

    constructor (interactor: Interactor)
      ensures State() == Initial && this.interactor == interactor
    {
      this.interactor := interactor;
      estimateGasLimitState := ZeroState;
      gasDisposeBag, estimatePending, lastEstimate, feeRateFetches := 0, false, None, 0;
      amountLoading, availableBalance, minimumRequiredBalance, minimumAmount := None, None, None, None;
      feeLoading, fee, externalError, availableFeeBalance := None, None, None, None;
      isValid := None;
    }

    method SyncValidation(env: Env) returns (success: bool)
      modifies this
      ensures (State(), success) == SendEthereumModel.SyncValidation(old(State()), env)
    {
      success := false;
      if env.validAmount.Ok? && env.validAddress.Ok? {
        isValid := Some(env.feeModuleValid && env.feeRateState.IsValid() && estimateGasLimitState.IsValid());
        success := true;
      } else {
        isValid := Some(false);
      }
    }

    method ProcessFee(error: Failure)
      modifies this
      ensures State() == old(State()).(out := old(State()).out.(externalError := Some(error)))
    {
      externalError := Some(error);
    }

    method SyncState(feeRateState: FeeState)
      modifies this
      ensures State() == SendEthereumModel.SyncState(old(State()), feeRateState, interactor)
    {
      var loading := feeRateState.IsLoading() || estimateGasLimitState.IsLoading();

      amountLoading := Some(loading);
      feeLoading := Some(loading);

      if loading {
        return;
      }

      if feeRateState.Error? {
        fee := Some(0.0);
        ProcessFee(feeRateState.error);
      } else if estimateGasLimitState.Error? {
        fee := Some(0.0);
        ProcessFee(estimateGasLimitState.error);
      } else if feeRateState.Value? && estimateGasLimitState.Value? {
        availableBalance := Some(interactor.availableBalance(feeRateState.value, estimateGasLimitState.value));
        externalError := None;
        fee := Some(interactor.fee(feeRateState.value, estimateGasLimitState.value));
      }
    }

    method SyncEstimateGasLimit(env: Env)
      modifies this
      ensures State() == StartEstimate(old(State()), env, interactor)
    {
      gasDisposeBag := gasDisposeBag + 1;
      estimatePending := true;

      estimateGasLimitState := Loading;
      SyncState(env.feeRateState);

      lastEstimate := Some(EstimateRequest(gasDisposeBag, AddressIfValid(env.validAddress), env.currentAmount, env.feeRate));
    }

    /** `env` is what the modules answer once the fee-rate fetch has been requested. */
    method OnViewDidLoad(env: Env)
      modifies this
      ensures State() == ViewDidLoad(old(State()), env, interactor)
    {
      feeRateFetches := feeRateFetches + 1;

      minimumRequiredBalance := Some(interactor.minimumRequiredBalance);
      if interactor.minimumSpendableAmount.Some? {
        minimumAmount := interactor.minimumSpendableAmount;
      }

      availableFeeBalance := Some(interactor.ethereumBalance);
      SyncState(env.feeRateState);

      SyncEstimateGasLimit(env);
    }

    /** The retry; `env` is read before the fee-rate fetch is requested, `refetched` after. */
    method Sync(env: Env, refetched: Env)
      modifies this
      ensures State() == Retry(old(State()), env, refetched, interactor)
    {
      if env.feeRateState.IsError() || estimateGasLimitState.IsError() {
        feeRateFetches := feeRateFetches + 1;
        SyncEstimateGasLimit(refetched);
      }
    }

    method SendSingle(env: Env) returns (r: Result<SendRequest, Failure>)
      ensures r == Send(State(), env)
    {
      if env.feeRate.None? || !estimateGasLimitState.Value? {
        return Err(NoFee);
      }
      if env.validAmount.Err? {
        return Err(env.validAmount.error);
      }
      if env.validAddress.Err? {
        return Err(env.validAddress.error);
      }
      r := Ok(SendRequest(env.validAmount.value, env.validAddress.value, env.feeRate.value, estimateGasLimitState.value));
    }

    method OnChangeAmount(env: Env)
      modifies this
      ensures State() == Edit(old(State()), env, interactor)
    {
      var valid := SyncValidation(env);
      if valid {
        SyncEstimateGasLimit(env);
      }
    }

    method OnUpdateAddress(env: Env)
      modifies this
      ensures State() == Edit(old(State()), env, interactor)
    {
      var valid := SyncValidation(env);
      if valid {
        SyncEstimateGasLimit(env);
      }
    }

    method OnUpdateFeePriority(env: Env)
      modifies this
      ensures State() == FeePriorityUpdate(old(State()), env, interactor)
    {
      SyncState(env.feeRateState);
      var valid := SyncValidation(env);
      if valid {
        SyncEstimateGasLimit(env);
      }
    }

    /**
     * The estimate's success callback. It runs only while the subscription
     * of `generation` is alive; a disposed one never delivers.
     */
    method OnReceive(generation: nat, gasLimit: int, env: Env)
      modifies this
      ensures State() == Complete(old(State()), generation, Ok(gasLimit), env, interactor)
    {
      if !(estimatePending && generation == gasDisposeBag) {
        return;
      }
      estimatePending := false;
      estimateGasLimitState := Value(gasLimit);

      SyncState(env.feeRateState);
      var _ := SyncValidation(env);
    }

    /** The estimate's error callback, under the same rule as OnReceive. */
    method OnGasLimitError(generation: nat, error: Failure, env: Env)
      modifies this
      ensures State() == Complete(old(State()), generation, Err(error), env, interactor)
    {
      if !(estimatePending && generation == gasDisposeBag) {
        return;
      }
      estimatePending := false;
      estimateGasLimitState := Error(error);

      SyncState(env.feeRateState);
      var _ := SyncValidation(env);
    }
  }
}
