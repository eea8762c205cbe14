# Send-flow synchronisation and rate coin mapping of Unstoppable Wallet (iOS)

This project models two parts of the wallet in Dafny and proves properties of them.

**The Ethereum send handler** (`SendEthereumHandler`). The handler owns one
asynchronous slot, the gas-limit estimate. It reads a second one, the fee-rate
state, from the fee-priority module. A slot is loading, a value or an error.
On every event it pushes values to its collaborators:

- a loading flag, to the amount module and to the fee module;
- a fee and an external error, to the fee module;
- an available balance, to the amount module;
- a validity verdict, to its delegate.

The events are: view loaded, amount changed, address updated, fee priority
updated, retry, gas estimate received, gas estimate failed, and send.

- `send_ethereum_model.dfy` (module `SendEthereumModel`) describes each step
  as a pure function over a `HandlerState`. It also states the lemmas about
  sequences of events.
- `send_ethereum_handler.dfy` (module `SendHandler`) is the class
  `SendEthereumHandler`. Its fields are the gas slot, the dispose-bag
  generation and the values last pushed. Its methods make the source's
  setter calls in the source's order. Each method is proved to produce the
  state that its model function describes.

Replacing `gasDisposeBag` is modelled as a generation counter (`gasDisposeBag`
in the class, `generation` in the model) with a pending flag. A completion
is applied only when it carries the current generation and its estimate is
still outstanding. Otherwise it changes nothing, the way a disposed
subscription never delivers.

The collaborators are inputs. An `Env` value holds what the fee-priority,
amount, address and fee modules answer during one event. An `Interactor`
value holds the interactor's fee and balance functions, left arbitrary, and
its minimums and balance.

**The rate coin mapper** (`RateCoinMapper`). This is a deny-list of coin
codes that have no exchange rate and a rename table (`HOT` to `HOLO`).
`ConvertCode` and `ConvertCoin` are functions. `Unconvert` is a method that
walks the table in a loop, as the source does.

## Model

| member | source | states |
|---|---|---|
| `RateCoinMapper.ConvertCode` | UnstoppableWallet/UnstoppableWallet/Core/Managers/RateCoinMapper.swift:24-30 | None exactly for the seven disabled codes; otherwise the rename-table target if the code is a key, else the code unchanged |
| `RateCoinMapper.ConvertCoin` | UnstoppableWallet/UnstoppableWallet/Core/Managers/RateCoinMapper.swift:12-22 | None exactly when `ConvertCode` of the coin's code is None; otherwise the coin with only `code` possibly changed, and that code equals `ConvertCode(coin.code)` |
| `RateCoinMapper.Unconvert` | UnstoppableWallet/UnstoppableWallet/Core/Managers/RateCoinMapper.swift:32-42 | The result starts with the given code; the rest holds exactly the table keys mapped to that code, each once |
| `RateCoinMapper.ConvertCodeIdentityElsewhere` | UnstoppableWallet/UnstoppableWallet/Core/Managers/RateCoinMapper.swift:24-30 | A code converts to itself if and only if it is neither disabled nor a rename key |
| `RateCoinMapper.ConvertThenUnconvert` | UnstoppableWallet/UnstoppableWallet/Core/Managers/RateCoinMapper.swift:24-41 | Round trip: every non-disabled code converts to some code, and is either that code or among the keys that unconvert back from it |
| `RateCoinMapper.ConvertThenUnconvertCodes` | UnstoppableWallet/UnstoppableWallet/Core/Managers/RateCoinMapper.swift:24-41 | For every non-disabled code c, calling unconvert on convert(c) returns a list that contains c |
| `RateCoinMapper.PreimageOfTable` | UnstoppableWallet/UnstoppableWallet/Core/Managers/RateCoinMapper.swift:5-7 | Read backwards, the table gives `HOT` for `HOLO` and nothing for any other code, so unconvert("HOLO") holds "HOLO" and "HOT" |
| `SendEthereumModel.SyncState` | UnstoppableWallet/UnstoppableWallet/Modules/Send/SendEthereumHandler.swift:50-74 | Both modules get the same loading flag, which is true if either slot is loading. While loading, nothing else is pushed. A fee-rate error wins over a gas error, and either gives fee 0 with that error. When both slots hold values, it pushes the interactor's available balance, a cleared error and the interactor's fee. Nothing outside the pushed values changes |
| `SendEthereumModel.SyncValidation` | UnstoppableWallet/UnstoppableWallet/Modules/Send/SendEthereumHandler.swift:29-44 | Returns true exactly when amount and address validate. The emitted verdict is true exactly when validation succeeds, the fee module is valid and both slots hold values. Only the verdict changes |
| `SendEthereumModel.StartEstimate` | UnstoppableWallet/UnstoppableWallet/Modules/Send/SendEthereumHandler.swift:76-87 | A new generation supersedes the estimate in flight. The gas slot becomes loading and only loading = true is pushed. The new request carries the current address (if valid), amount and gas price |
| `SendEthereumModel.ViewDidLoad` | UnstoppableWallet/UnstoppableWallet/Modules/Send/SendEthereumHandler.swift:93-105 | One fee-rate fetch. The minimum required balance, the minimum amount (when the interactor has one) and the Ethereum balance are pushed. The fee, external error and balance are those the sync with the current slots pushes. Then a new estimate starts with the current address, amount and gas price, and loading is pushed. The verdict is untouched |
| `SendEthereumModel.Edit` | UnstoppableWallet/UnstoppableWallet/Modules/Send/SendEthereumHandler.swift:146-150 | For the amount and address edits: a failed validation emits false and changes nothing else, so no estimate starts. A successful one emits the verdict "fee module valid and both slots hold values" as they were before the edit. It then starts a new estimate with the current address, amount and gas price, and pushes only the loading flag. Fetch count, minimums and fee balance stay unchanged |
| `SendEthereumModel.FeePriorityUpdate` | UnstoppableWallet/UnstoppableWallet/Modules/Send/SendEthereumHandler.swift:178-183 | syncState with the new fee-rate state runs first, and its fee, error and balance are what remain pushed. Then, as an edit: false and no estimate on failed validation. On success the verdict is "fee module valid and both slots hold values". Then a new estimate starts with the current address, amount and gas price, and loading is pushed. Fetch count, minimums and fee balance stay unchanged |
| `SendEthereumModel.Retry` | UnstoppableWallet/UnstoppableWallet/Modules/Send/SendEthereumHandler.swift:119-124 | A no-op unless either slot is an error. Then there is one more fee-rate fetch, and a new estimate starts with the address, amount and gas price read after the fetch. Only the loading flags are pushed, both true |
| `SendEthereumModel.Complete` | UnstoppableWallet/UnstoppableWallet/Modules/Send/SendEthereumHandler.swift:189-201 | A result from a superseded or finished generation changes nothing. A live one stores the value or error and ends the pending estimate. The loading flag then follows the fee-rate slot alone. A fee-rate error is pushed with fee 0. Otherwise, with a known fee rate, a gas error is pushed with fee 0, or a gas value pushes the interactor's fee and balance and clears the error. While the fee rate is loading, fee, error and balance stay; the balance also stays in both error cases. The request, fetch count, minimums and fee balance never change. The verdict is true exactly when amount and address validate, the fee module is valid, the fee rate is a value and the result is a value |
| `SendEthereumModel.Send` | UnstoppableWallet/UnstoppableWallet/Modules/Send/SendEthereumHandler.swift:135-140 | Succeeds exactly when a gas price is known, the gas slot holds a value, and amount and address validate. Without a gas price or gas value it fails with NoFee. Otherwise it fails with the amount error, or, if the amount is valid, with the address error. On success it hands over exactly those four values |
| `SendEthereumModel.StepGenerationMonotone` | UnstoppableWallet/UnstoppableWallet/Modules/Send/SendEthereumHandler.swift:76-79 | No event moves the dispose-bag generation backwards |
| `SendEthereumModel.RunGenerationMonotone` | UnstoppableWallet/UnstoppableWallet/Modules/Send/SendEthereumHandler.swift:76-79 | No sequence of events moves the generation backwards |
| `SendEthereumModel.SupersededResultIgnored` | UnstoppableWallet/UnstoppableWallet/Modules/Send/SendEthereumHandler.swift:76-86 | Once a later estimate has started, an earlier estimate's result or error is never applied, whatever events come between |
| `SendEthereumModel.LastEstimateWins` | UnstoppableWallet/UnstoppableWallet/Modules/Send/SendEthereumHandler.swift:146-150 | After a valid edit, the previous estimate's late result is dropped and the new estimate's result is stored |
| `SendEthereumModel.StepConsistent` | UnstoppableWallet/UnstoppableWallet/Modules/Send/SendEthereumHandler.swift:76-80 | Every event keeps the invariant: the gas slot is loading exactly while an estimate of the current generation is outstanding |
| `SendEthereumModel.RunConsistent` | UnstoppableWallet/UnstoppableWallet/Modules/Send/SendEthereumHandler.swift:76-80 | Every sequence of events keeps that invariant |
| `SendEthereumModel.ReachableConsistent` | UnstoppableWallet/UnstoppableWallet/Modules/Send/SendEthereumHandler.swift:19 | Every state reached from the initial one (gas slot `.zero`, nothing in flight) satisfies the invariant |
| `SendEthereumModel.SendWhileEstimatingFails` | UnstoppableWallet/UnstoppableWallet/Modules/Send/SendEthereumHandler.swift:135-138 | In a reachable state, sending while an estimate is outstanding fails with NoFee |
| `SendEthereumModel.EditVerdictPrecedesEstimate` | UnstoppableWallet/UnstoppableWallet/Modules/Send/SendEthereumHandler.swift:146-150 | The verdict of a valid edit is computed before the new estimate starts. It can still be true while the gas slot is loading and loading = true is pushed |
| `SendEthereumModel.FirstViewLoadUsesZeroGasLimit` | UnstoppableWallet/UnstoppableWallet/Modules/Send/SendEthereumHandler.swift:93-105 | On the first view load with a known fee rate, the fee and balance for the initial gas limit 0 are pushed and the error cleared, and the loading flag is true |
| `SendEthereumModel.SyncStateIdempotent` | UnstoppableWallet/UnstoppableWallet/Modules/Send/SendEthereumHandler.swift:50-74 | Running syncState twice in a row leaves the same last-pushed values as running it once |
| `SendEthereumModel.FeeRateErrorSurfacesAfterEstimate` | UnstoppableWallet/UnstoppableWallet/Modules/Send/SendEthereumHandler.swift:51-63 | While the estimate is loading, a fee-rate error is hidden behind loading = true. When the estimate completes, with a value or an error, the fee-rate error is pushed with fee 0 and the verdict is false |
| `SendHandler.SendEthereumHandler.constructor` | UnstoppableWallet/UnstoppableWallet/Modules/Send/SendEthereumHandler.swift:19-27 | Starts with the gas slot at `.zero`, nothing in flight and nothing pushed |
| `SendHandler.SendEthereumHandler.SyncValidation` | UnstoppableWallet/UnstoppableWallet/Modules/Send/SendEthereumHandler.swift:29-44 | The new state and the result are those of `SendEthereumModel.SyncValidation` |
| `SendHandler.SendEthereumHandler.ProcessFee` | UnstoppableWallet/UnstoppableWallet/Modules/Send/SendEthereumHandler.swift:46-48 | Pushes the error as the fee module's external error and changes nothing else |
| `SendHandler.SendEthereumHandler.SyncState` | UnstoppableWallet/UnstoppableWallet/Modules/Send/SendEthereumHandler.swift:50-74 | Its setter calls leave the state `SendEthereumModel.SyncState` describes |
| `SendHandler.SendEthereumHandler.SyncEstimateGasLimit` | UnstoppableWallet/UnstoppableWallet/Modules/Send/SendEthereumHandler.swift:76-87 | Its steps (new bag, loading, syncState, request) leave the state `StartEstimate` describes |
| `SendHandler.SendEthereumHandler.OnViewDidLoad` | UnstoppableWallet/UnstoppableWallet/Modules/Send/SendEthereumHandler.swift:93-105 | Leaves the state `ViewDidLoad` describes |
| `SendHandler.SendEthereumHandler.Sync` | UnstoppableWallet/UnstoppableWallet/Modules/Send/SendEthereumHandler.swift:119-124 | Leaves the state `Retry` describes |
| `SendHandler.SendEthereumHandler.SendSingle` | UnstoppableWallet/UnstoppableWallet/Modules/Send/SendEthereumHandler.swift:135-140 | Returns what `SendEthereumModel.Send` returns for the current state, and changes nothing |
| `SendHandler.SendEthereumHandler.OnChangeAmount` | UnstoppableWallet/UnstoppableWallet/Modules/Send/SendEthereumHandler.swift:146-150 | Leaves the state `Edit` describes |
| `SendHandler.SendEthereumHandler.OnUpdateAddress` | UnstoppableWallet/UnstoppableWallet/Modules/Send/SendEthereumHandler.swift:164-168 | Leaves the state `Edit` describes |
| `SendHandler.SendEthereumHandler.OnUpdateFeePriority` | UnstoppableWallet/UnstoppableWallet/Modules/Send/SendEthereumHandler.swift:178-183 | Leaves the state `FeePriorityUpdate` describes |
| `SendHandler.SendEthereumHandler.OnReceive` | UnstoppableWallet/UnstoppableWallet/Modules/Send/SendEthereumHandler.swift:189-194 | Leaves the state `Complete` describes for a value result |
| `SendHandler.SendEthereumHandler.OnGasLimitError` | UnstoppableWallet/UnstoppableWallet/Modules/Send/SendEthereumHandler.swift:196-201 | Leaves the state `Complete` describes for an error result |

## Behaviour worth knowing

- An amount, address or fee-priority edit computes its verdict *before* it
  sets the gas slot to loading, and emits no further verdict itself. The next
  verdict comes from the estimate's completion or from a later edit, which
  emits `false` because the gas slot is then loading. Until then the delegate
  can hold `true` while an estimate is loading. In that state the loading flag
  pushed to both modules is true, and a send fails with NoFee
  (`EditVerdictPrecedesEstimate`, `SendWhileEstimatingFails`).
- No fee is pushed while loading: the last fee pushed stays in the fee module.
- The fee and the available balance come from the interactor. The model leaves
  them as arbitrary functions and claims no relation between them.
- When the view loads with the fee rate already known, syncState runs while the
  gas slot still holds its initial `.zero`. It pushes the fee and balance for
  gas limit 0, then the estimate starts and pushes loading
  (`FirstViewLoadUsesZeroGasLimit`).

## Left out

- RxSwift scheduling in `syncEstimateGasLimit` (`subscribeOn`, `observeOn`, `DisposeBag`): this is thread plumbing. Only its observable effect is kept: a new estimate supersedes the old one (the generation counter).
- The interactor's `fee`, `availableBalance`, `estimateGasLimit`, `minimumRequiredBalance`, `minimumSpendableAmount`, `ethereumBalance` and `sendSingle`: their code is not part of this model. Fee and balance are arbitrary functions. The estimate is recorded as the request it is given. The send is the `SendRequest` handed over.
- The collaborator modules' internals (`fetchFeeRate`, `feeRateState`, `feeRate`, `validAmount`, `validateAddress`, `validAddress`, the fee module's `isValid`): not part of this model. Their answers are the `Env` fields, and a fee-rate fetch is only counted (`feeRateFetches`).
- `validateAddress()` and `validAddress()` are taken to succeed or fail together and are modelled as one `Result` in `Env`.
- `FeeState` is defined outside the core files. It is modelled as loading / value(Int) / error, and `.zero` is taken to be `value(0)`.
- `error.convertedError`: the error conversion is not part of this model. `OnGasLimitError` receives the converted error.
- The interactor's answers (fee, available balance, minimums, Ethereum balance) are taken to be the same for every event: the class holds one `Interactor` value and `Step`/`Run` use one for a whole sequence of events.
- Within one event only the last value passed to each setter is kept. `onViewDidLoad` can push loading = false and then true (lines 102-104), and `onUpdateFeePriority` can push the loading flags twice (lines 179-181). The intermediate pushes are not recorded, and `SyncStateIdempotent` is a statement about the last-pushed values.
- Swift `Decimal` amounts, fees and balances are modelled as `real`.
- The delegate is a weak reference and may be nil. The model always records the emitted verdict.
- Forwarding and display members of the handler (`confirmationViewItems`, `showKeyboard`, `sync(rateValue:)`, `sync(inputType:)`, `onChange(inputType:)`, `onUpdate(amount:)`, `validate(address:)`): they only forward to collaborators or build display items.
- `sendSingle`'s `logger` argument and the returned `Single`: no logging or asynchronous send is modelled.
- The order of `Unconvert`'s result after its first element follows dictionary iteration. The model states which codes appear, not their order.
- `SendFeePriorityView.swift`, `FaqViewController.swift`, `PrivacySortModeViewController.swift` and `AddBinanceTokenModule.swift` are not part of this model. They contain UI layout, navigation and dependency wiring.
