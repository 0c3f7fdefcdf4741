# Overlay interface: balance aggregation and the Build form, in Dafny

This project models the logic of a DeFi trading front end that can be stated apart from its
presentation:

- the wallet balance hooks (`src/state/wallet/hooks.ts`): which addresses and tokens are
  requested from the multicall batch reader, and how its index-aligned call states are folded
  back into balance records keyed by address;
- the Build card of the markets page (`src/pages/Markets/BuildPosition.tsx`) and of a single
  market's page (`src/pages/Markets/Market/BuildPosition.tsx`): the three ordered guards of
  `attemptToApprove`, the Build button's enable condition, the 25/50/75/Max quick amounts and the
  input handlers.

Modules, one per concern:

| module | file | what it holds |
|---|---|---|
| `Values` | values.dfy | `Option`, and the JavaScript truthiness tests the code uses (`undefined`, `""`, `0` are falsy) |
| `Dictionary` | dictionary.dfy | `Assigned`: the dictionary a left-to-right `reduce` builds by assigning into its memo, and last-write-wins lemmas |
| `Sorting` | sorting.dfy | `Array.prototype.sort()` on strings: lexicographic order, an insertion sort, and uniqueness of the sorted permutation |
| `WalletHooks` | wallet_hooks.dfy | `useETHBalances`, `useTokenBalancesWithLoadingIndicator`, `useTokenBalances`, `useTokenBalance` |
| `Position` | position.dfy | the position form state, the dispatched actions, the reducer, the approve outcome, the uninterpreted amount arithmetic |
| `MarketsBuildPosition` | markets_build_position.dfy | the markets page's Build card |
| `MarketBuildPosition` | market_build_position.dfy | the single market page's Build card |

How the foreign parts appear:

- `isAddress` is a parameter of type `string -> Option<string>` (the normalised address, or
  `None` where it returns `false`). An `undefined` candidate is treated as rejected.
- The multicall hooks are parameters too: a function from the request list (argument tuples for
  `getEthBalance`; contract addresses and the owner for `balanceOf`) to a sequence of call states.
  The model admits results of any length; a missing index reads as absent, as `results?.[i]` does.
- `CurrencyAmount.multiply`, `divide` and `toExact` are the uninterpreted fields of `AmountMath`.
  `CurrencyAmount.fromRawAmount` is the constructor `CurrencyAmount(currency, raw)`.
- The two `reduce` callbacks become while loops (`ReduceEthBalances`, `ReduceTokenBalances`) that
  assign into a map one index at a time. They are proved equal to `Dictionary.Assigned`, and the
  key and value properties are lemmas about that function.
- `attemptToApprove` returns `Rejected(message)` where the source throws, and `ApproveCalled`
  where it goes on to `approveCallback()`.
- `PositionSide` is a string enum (`'LONG'`/`'SHORT'`, compared at
  src/pages/Markets/BuildPosition.tsx:138,146), so both sides are truthy and `!positionSide`
  holds exactly when the side is undefined (`positionSide.None?`).
- Every present decoded value is truthy, since a BigNumber or JSBI value is an object: a zero
  balance gets an entry; neither `if (value && chainId)` nor `if (amount)` drops it.

Neither path deduplicates and the token path does not sort: a repeated address is requested
twice and its key rewritten (`NormalisedAddressesAppend`, `ValidatedAddressesKeepDuplicates`,
`FilterTokensAppend`, `FilterTokensKeepsDuplicates`).

Also visible in the code: on a single market's page the Build button has no click handler
(`src/pages/Markets/Market/BuildPosition.tsx:307-309`). That page's `attemptToApprove` is modelled,
but nothing on the page calls it, and that page has no enable condition to model. On the markets
page the button is active with a zero leverage, and the third guard then rejects the attempt
(`ZeroLeverageActiveButRejected`).

## Model

| member | source | states |
|---|---|---|
| `WalletHooks.NormalisedAddresses` | src/state/wallet/hooks.ts:25-28 | an address is kept exactly when some input normalises to it; no more addresses than inputs |
| `WalletHooks.NormalisedAddressesAppend` | src/state/wallet/hooks.ts:26-28 | map-and-filter distributes over concatenation, so every copy of an address is kept, in input order, before the sort |
| `WalletHooks.ValidatedAddresses` | src/state/wallet/hooks.ts:23-32 | undefined input gives `[]`; otherwise the list is sorted, a permutation of the normalised addresses, and holds exactly the addresses some input normalises to |
| `WalletHooks.ValidatedAddressesStable` | src/state/wallet/hooks.ts:25-29 | inputs normalising to the same addresses in any order yield the same request list |
| `WalletHooks.ValidatedAddressesKeepDuplicates` | src/state/wallet/hooks.ts:25-29 | an address given twice is requested twice: no deduplication |
| `WalletHooks.EthBalanceCalls` | src/state/wallet/hooks.ts:34-38 | one `getEthBalance` call per validated address, whose argument tuple is that address, in the same order |
| `WalletHooks.ReduceEthBalances` | src/state/wallet/hooks.ts:40-49 | the loop that assigns into the memo builds exactly the last-write-wins record `EthBalances` |
| `WalletHooks.EthBalancesKeys` | src/state/wallet/hooks.ts:42-47 | a key is present iff the chain id is known and some request for that address has a result value |
| `WalletHooks.EthBalancesWithoutChain` | src/state/wallet/hooks.ts:44 | with an unknown (or zero) chain id the record is empty |
| `WalletHooks.EthBalanceFromOwnIndex` | src/state/wallet/hooks.ts:42-47 | a present entry is the native amount built from the result at its own index, the last index for that address with a value |
| `WalletHooks.EthBalanceAtUniqueIndex` | src/state/wallet/hooks.ts:43-45 | an address requested once, with a value and a known chain, maps to the native amount of that very call |
| `WalletHooks.UseETHBalances` | src/state/wallet/hooks.ts:17-50 | the hook's record is the fold of the reads for the validated list; every key is a validated address; empty without a chain id |
| `WalletHooks.FilterTokens` | src/state/wallet/hooks.ts:60 | a token is kept exactly when it is defined and its address validates; no more tokens than inputs |
| `WalletHooks.FilterTokensAppend` | src/state/wallet/hooks.ts:60 | the filter keeps input order: filtering a concatenation concatenates the filtered parts |
| `WalletHooks.FilterTokensKeepsDuplicates` | src/state/wallet/hooks.ts:59-62 | no sort and no deduplication: tokens stay in input order and repeats are kept |
| `WalletHooks.ValidatedTokens` | src/state/wallet/hooks.ts:59-62 | undefined `tokens` gives `[]`; otherwise exactly the defined tokens with a valid address |
| `WalletHooks.TokenAddresses` | src/state/wallet/hooks.ts:64 | one contract read per validated token, at the same index, for its raw `address` |
| `WalletHooks.AnyLoading` | src/state/wallet/hooks.ts:75 | the loading flag is true iff some call state is loading |
| `WalletHooks.ReduceTokenBalances` | src/state/wallet/hooks.ts:78-93 | the guard and the loop that assigns into the memo build exactly the record `TokenBalances` |
| `WalletHooks.TokenBalancesKeys` | src/state/wallet/hooks.ts:80-91 | a key is present iff the owner is given (non-empty) and some validated token with that raw address has a result value; so no owner or no tokens gives `{}` |
| `WalletHooks.TokenBalanceFromOwnIndex` | src/state/wallet/hooks.ts:81-90 | a present entry is that token's amount built from the result at its own index, the last token with that address and a value |
| `WalletHooks.UseTokenBalancesWithLoadingIndicator` | src/state/wallet/hooks.ts:55-96 | the record folds the reads for the validated tokens, every key is a validated token's address with an owner given, and the flag is true iff some read is loading |
| `WalletHooks.UseTokenBalances` | src/state/wallet/hooks.ts:98-103 | the record half of the pair above |
| `WalletHooks.UseTokenBalance` | src/state/wallet/hooks.ts:106-110 | undefined without a token; otherwise present iff the account is given, the address validates and the single read has a value, and then it is that token's amount |
| `WalletHooks.CheckAddress` | src/state/wallet/hooks.ts:27 | `isAddress` on a candidate that may be undefined: an undefined candidate is rejected, a string gets the validator's answer |
| `WalletHooks.FirstValue` | src/state/wallet/hooks.ts:43 | `results?.[i]?.result?.[0]`: absent when index i has no call state, the call has no result, or the result is empty; else its first output |
| `WalletHooks.EthBalanceWrites` | src/state/wallet/hooks.ts:43-45 | the native callback writes at index i only when that call has a value and the chain id is truthy, and then the Ether amount of that value on that chain |
| `WalletHooks.EthBalances` | src/state/wallet/hooks.ts:42-47 | the native memo: the last-write-wins fold of those writes over the request list, characterised by `EthBalancesKeys` and `EthBalanceFromOwnIndex` |
| `WalletHooks.TokenAddress` | src/state/wallet/hooks.ts:60 | `t?.address`: undefined for an undefined token, else its raw address |
| `WalletHooks.TokenBalanceWrites` | src/state/wallet/hooks.ts:84-87 | the token callback writes at index i exactly when that call has a value, and then the token's amount of that value |
| `WalletHooks.TokenBalances` | src/state/wallet/hooks.ts:80-91 | `{}` without a truthy owner or without tokens, else the last-write-wins fold keyed by raw `token.address`, characterised by `TokenBalancesKeys` and `TokenBalanceFromOwnIndex` |
| `Position.Percentage` | src/pages/Markets/BuildPosition.tsx:57-59 | `multiply(p).divide(100).toExact()` on an amount, with the SDK operations uninterpreted |
| `Dictionary.AssignedIsLastWrite` | src/state/wallet/hooks.ts:42-47 | a reduce that assigns into its memo holds a key iff some index writes it, with the value of the last such write |
| `Dictionary.AssignedKeys` | src/state/wallet/hooks.ts:81-90 | a key is in the memo iff some index carries that key and a present write |
| `Dictionary.AssignedKeysFromKeys` | src/state/wallet/hooks.ts:83-87 | every key of the memo is one of the keys walked over |
| `Dictionary.AssignedAtIndex` | src/state/wallet/hooks.ts:43-45 | a present write not overwritten later is what the memo holds for its key |
| `Dictionary.AssignedNoWrites` | src/state/wallet/hooks.ts:41-47 | with no present write the memo stays empty |
| `Sorting.Sort` | src/state/wallet/hooks.ts:29 | the result is sorted in string order and is a permutation of the input |
| `Sorting.SortedUnique` | src/state/wallet/hooks.ts:29 | two sorted sequences with the same elements are equal, so the sorted request list is determined |
| `MarketsBuildPosition.AttemptToApprove` | src/pages/Markets/BuildPosition.tsx:112-118 | empty or undefined input fails with 'missing position input size' whatever else holds; then a missing side fails with 'please choose a long/short position'; then a falsy leverage with 'please select a leverage value'; the approve callback is reached iff all three pass |
| `MarketsBuildPosition.BuildActive` | src/pages/Markets/BuildPosition.tsx:217-225 | active implies the first two guards pass; approving implies active; active with a non-zero leverage approves |
| `MarketsBuildPosition.ZeroLeverageActiveButRejected` | src/pages/Markets/BuildPosition.tsx:217-218 | a zero leverage with side and input set shows the active button, and the attempt is rejected by the leverage guard |
| `MarketsBuildPosition.InputAmounts` | src/pages/Markets/BuildPosition.tsx:57-59 | the 75/50/25 amounts are undefined without a spendable balance, else `toExact` of the balance times p divided by 100 |
| `MarketsBuildPosition.HandleMaxInput` | src/pages/Markets/BuildPosition.tsx:82-87 | Max dispatches an undefined amount iff there is no spendable balance, else `toExact` of it |
| `MarketsBuildPosition.QuickInputSetsPercentage` | src/pages/Markets/BuildPosition.tsx:89-108 | each quick input changes only the amount, and sets it to p percent of the balance for p = 75, 50, 25 |
| `MarketsBuildPosition.QuickInputWithoutBalance` | src/pages/Markets/BuildPosition.tsx:82-108 | without a balance every quick input clears the amount, deactivates Build and makes the first guard fail |
| `MarketsBuildPosition.TypedInputStoredVerbatim` | src/pages/Markets/BuildPosition.tsx:74-79 | the typed text becomes the amount unchanged; the first guard then fails iff the text is empty |
| `MarketsBuildPosition.SideHandlersChooseSide` | src/pages/Markets/BuildPosition.tsx:71-72 | Long sets exactly LONG and Short exactly SHORT, after which the side guard cannot fail |
| `MarketsBuildPosition.LeverageHandlerSetsLeverage` | src/pages/Markets/BuildPosition.tsx:70 | the slider's value becomes the leverage; a non-zero value passes the leverage guard |
| `MarketsBuildPosition.HandleLeverageInput` | src/pages/Markets/BuildPosition.tsx:70 | dispatches the slider's value as the leverage |
| `MarketsBuildPosition.HandlePositionSideLong` | src/pages/Markets/BuildPosition.tsx:71 | dispatches the LONG side |
| `MarketsBuildPosition.HandlePositionSideShort` | src/pages/Markets/BuildPosition.tsx:72 | dispatches the SHORT side |
| `MarketsBuildPosition.HandleTypeInput` | src/pages/Markets/BuildPosition.tsx:74-79 | dispatches the typed text as the amount, unchanged |
| `MarketsBuildPosition.Handle75Input` | src/pages/Markets/BuildPosition.tsx:89-94 | dispatches the render-time 75% amount |
| `MarketsBuildPosition.Handle50Input` | src/pages/Markets/BuildPosition.tsx:96-101 | dispatches the render-time 50% amount |
| `MarketsBuildPosition.Handle25Input` | src/pages/Markets/BuildPosition.tsx:103-108 | dispatches the render-time 25% amount |
| `MarketBuildPosition.AttemptToApprove` | src/pages/Markets/Market/BuildPosition.tsx:245-251 | the same three guards, in the same order, with the same messages; the approve callback only after all pass |
| `MarketBuildPosition.SameGuardsAsMarketsPage` | src/pages/Markets/Market/BuildPosition.tsx:245-250 | the two pages give the same outcome on every state |
| `MarketBuildPosition.HandleMaxInput` | src/pages/Markets/Market/BuildPosition.tsx:215-220 | Max dispatches `maxInputAmount?.toExact()`: undefined iff there is no spendable balance |
| `MarketBuildPosition.HandlePercentInput` | src/pages/Markets/Market/BuildPosition.tsx:222-241 | the 75/50/25 handlers dispatch undefined without a balance, else `toExact` of the balance times p divided by 100, computed at click time |
| `MarketBuildPosition.QuickInputsAgreeWithMarketsPage` | src/pages/Markets/Market/BuildPosition.tsx:214-241 | click-time amounts and Max equal the markets page's render-time ones for the same balance |
| `MarketBuildPosition.QuickInputWithoutBalance` | src/pages/Markets/Market/BuildPosition.tsx:215-241 | without a balance every quick input sets the amount to undefined and approving fails on the first guard |
| `MarketBuildPosition.HandlersWriteTheirField` | src/pages/Markets/Market/BuildPosition.tsx:201-212 | typed text is stored verbatim; Long, Short and the slider set exactly their own field |
| `MarketBuildPosition.HandleLeverageInput` | src/pages/Markets/Market/BuildPosition.tsx:201 | dispatches the slider's value as the leverage |
| `MarketBuildPosition.HandlePositionSideLong` | src/pages/Markets/Market/BuildPosition.tsx:203 | dispatches the LONG side |
| `MarketBuildPosition.HandlePositionSideShort` | src/pages/Markets/Market/BuildPosition.tsx:205 | dispatches the SHORT side |
| `MarketBuildPosition.HandleTypeInput` | src/pages/Markets/Market/BuildPosition.tsx:207-212 | dispatches the typed text as the amount, unchanged |
| `MarketBuildPosition.Handle75Input` | src/pages/Markets/Market/BuildPosition.tsx:222-227 | dispatches 75% of the balance, computed at click time |
| `MarketBuildPosition.Handle50Input` | src/pages/Markets/Market/BuildPosition.tsx:229-234 | dispatches 50% of the balance, computed at click time |
| `MarketBuildPosition.Handle25Input` | src/pages/Markets/Market/BuildPosition.tsx:236-241 | dispatches 25% of the balance, computed at click time |

## Left out

- `src/state/state.tsx`: store wiring and persistence through `redux-localstorage-simple`, a
  library whose code is not part of this model; its one fact is that only `user` and
  `transactions` persist (src/state/state.tsx:10).
- `src/components/Card/Card.tsx`, `src/pages/Markets/Market/Market.tsx`, every styled component,
  the JSX layout, `AdditionalDetails` and the slider's min/max/step props: presentation.
- The multicall hooks' own behaviour (batching, polling, deduplication of in-flight reads, and
  the `undefined` options and the `100_000` argument (src/state/wallet/hooks.ts:71-72), whose
  meaning lies in the multicall hooks): foreign code, modelled only as a function from requests
  to call states.
- `isAddress`, `maxAmountSpend`, `useApproveCallback`, `useDerivedUserInputs`, the OVL token
  registry and the SDK's `CurrencyAmount`/`JSBI`/`Ether` arithmetic and `toExact` formatting:
  code that is not part of this model; they are parameters or uninterpreted operations. So the
  page-level derivation of `maxInputAmount` from the account and chain
  (src/pages/Markets/BuildPosition.tsx:50-56) is not modelled: the quick inputs take
  `maxInputAmount` as given.
- The position reducer (`src/state/position/reducer` is not part of this model): `Position.Apply`
  assumes every action overwrites its own field and leaves the others alone.
- React memoisation and hook lifecycle, the `async` approve and what `approveCallback` does, and
  late or stale network results: framework, asynchrony and I/O.
- Leverage is a real number: a `NaN` leverage (falsy in JavaScript) and a slider value delivered
  as a string (`e.target.value`) are not modelled.
- `Sorting.LexLe` compares Dafny characters (Unicode scalar values) where JavaScript compares
  UTF-16 code units; the two orders differ only for characters outside the Basic Multilingual
  Plane, which normalised addresses do not contain.
- Raw balances are natural numbers: the decoded `uint256` values are not bounded to 256 bits.
