/**
 * The wallet balance hooks: which addresses and tokens are asked for, which batched reads are
 * issued, and how the index-aligned multicall results are folded back into balance records.
 * The address validator and the multicall reads are parameters; React memoisation is not modelled.
 */
module WalletHooks {
  import opened Values
  import opened Dictionary
  import opened Sorting

  /** An ERC-20 token identity as the token registry describes it. */
  datatype Token = Token(chainId: int, address: string, decimals: nat, symbol: string)

  /** The currency of an amount: the chain's native currency, or a token. */
  datatype Currency = Ether(chainId: int) | Erc20(token: Token)

  /** `CurrencyAmount.fromRawAmount(currency, raw)`: a currency paired with base units. */
  datatype CurrencyAmount = CurrencyAmount(currency: Currency, raw: nat)

  /** One multicall call state: the decoded outputs when the call has a result, and a pending flag. */
  datatype CallState = CallState(result: Option<seq<nat>>, loading: bool)

  /** `isAddress` applied to a string: the normalised address, or None where it returns `false`. */
  type AddressValidator = string -> Option<string>

  /** `isAddress` on a candidate that may be `undefined`; an undefined candidate is rejected. */
  function CheckAddress(isAddress: AddressValidator, candidate: Option<string>): (normalised: Option<string>)
  {
    match candidate
    case None => None
    case Some(s) => isAddress(s)
  }

  /**
   * `results?.[i]?.result?.[0]`: the first decoded output of call `i`; absent when there is no
   * such call, the call has no result (pending or failed), or it decoded nothing.
   */
  function FirstValue(results: seq<CallState>, i: nat): (v: Option<nat>)
  {
    if i < |results| && results[i].result.Some? && |results[i].result.value| > 0
    then Some(results[i].result.value[0])
    else None
  }

  // ---------------------------------------------------------------------------------------
  // Native balances (useETHBalances)
  // ---------------------------------------------------------------------------------------

  /** `uncheckedAddresses.map(isAddress).filter(a => a !== false)`, in input order. */
  function NormalisedAddresses(isAddress: AddressValidator, unchecked: seq<Option<string>>): (r: seq<string>)
    ensures |r| <= |unchecked|
    ensures forall a :: a in r <==>
              exists j :: 0 <= j < |unchecked| && CheckAddress(isAddress, unchecked[j]) == Some(a)
    decreases |unchecked|
  {
    if unchecked == [] then []
    else
      var rest := NormalisedAddresses(isAddress, unchecked[1..]);
      assert forall j :: 1 <= j < |unchecked| ==> unchecked[j] == unchecked[1..][j - 1];
      match CheckAddress(isAddress, unchecked[0])
      case Some(a) => [a] + rest
      case None => rest
  }

  /** The map-and-filter keeps every copy in input order: it distributes over concatenation. */
  lemma {:induction false} NormalisedAddressesAppend(isAddress: AddressValidator, x: seq<Option<string>>,
                                                     y: seq<Option<string>>)
    ensures NormalisedAddresses(isAddress, x + y) ==
              NormalisedAddresses(isAddress, x) + NormalisedAddresses(isAddress, y)
    decreases |x|
  {
    if x == [] {
      assert x + y == y;
    } else {
      assert (x + y)[0] == x[0] && (x + y)[1..] == x[1..] + y;
      NormalisedAddressesAppend(isAddress, x[1..], y);
    }
  }

  /** The request list of useETHBalances: the normalised addresses, sorted; `[]` when none are given. */
  function ValidatedAddresses(isAddress: AddressValidator, unchecked: Option<seq<Option<string>>>): (r: seq<string>)
    ensures unchecked.None? ==> r == []
    ensures unchecked.Some? ==>
              Sorted(r) && multiset(r) == multiset(NormalisedAddresses(isAddress, unchecked.value))
    ensures forall a :: a in r <==>
              unchecked.Some? &&
              exists j :: 0 <= j < |unchecked.value| && CheckAddress(isAddress, unchecked.value[j]) == Some(a)
  {
    match unchecked
    case None => []
    case Some(list) =>
      var normalised := NormalisedAddresses(isAddress, list);
      var r := Sort(normalised);
      SameMembers(r, normalised);
      r
  }

  /** Sequences with the same multiset of elements have the same members. */
  lemma SameMembers(r: seq<string>, s: seq<string>)
    requires multiset(r) == multiset(s)
    ensures forall a :: a in r <==> a in s
  {
    forall a ensures a in r <==> a in s {
      assert a in r <==> a in multiset(r);
      assert a in s <==> a in multiset(s);
    }
  }

  /** Inputs that normalise to the same addresses, in any order, give the same request list. */
  lemma ValidatedAddressesStable(isAddress: AddressValidator, x: seq<Option<string>>, y: seq<Option<string>>)
    requires multiset(NormalisedAddresses(isAddress, x)) == multiset(NormalisedAddresses(isAddress, y))
    ensures ValidatedAddresses(isAddress, Some(x)) == ValidatedAddresses(isAddress, Some(y))
  {
    SortDeterminedByElements(NormalisedAddresses(isAddress, x), NormalisedAddresses(isAddress, y));
  }

  /** No deduplication: an address given twice is requested twice. */
  lemma ValidatedAddressesKeepDuplicates(isAddress: AddressValidator, s: string)
    requires isAddress(s).Some?
    ensures ValidatedAddresses(isAddress, Some([Some(s), Some(s)])) == [isAddress(s).value, isAddress(s).value]
  {
    var a := isAddress(s).value;
    assert NormalisedAddresses(isAddress, [Some(s), Some(s)]) == [a, a] by {
      assert [Some(s), Some(s)][1..] == [Some(s)];
    }
    LexLeReflexive(a);
    SortedUnique(Sort([a, a]), [a, a]);
  }

  /** `addresses.map(address => [address])`: one `getEthBalance` call per address, in order. */
  function EthBalanceCalls(addresses: seq<string>): (calls: seq<seq<string>>)
    ensures |calls| == |addresses|
    ensures forall i :: 0 <= i < |calls| ==> calls[i] == [addresses[i]]
  {
    seq(|addresses|, i requires 0 <= i < |addresses| => [addresses[i]])
  }

  /** What the native reduce callback assigns at index `i`: present only with a value and a chain id. */
  function EthBalanceWrites(addresses: seq<string>, results: seq<CallState>, chainId: Option<int>)
    : (w: seq<Option<CurrencyAmount>>)
    ensures |w| == |addresses|
  {
    seq(|addresses|, i requires 0 <= i < |addresses| =>
      if FirstValue(results, i).Some? && TruthyInt(chainId)
      then Some(CurrencyAmount(Ether(chainId.value), FirstValue(results, i).value))
      else None)
  }

  /** The native balance record that the reduce over the request list builds. */
  function EthBalances(addresses: seq<string>, results: seq<CallState>, chainId: Option<int>)
    : (balances: map<string, CurrencyAmount>)
  {
    Assigned(addresses, EthBalanceWrites(addresses, results, chainId))
  }

  /** The native reduce callback, assigning into the memo one address at a time. */
  method ReduceEthBalances(addresses: seq<string>, results: seq<CallState>, chainId: Option<int>)
    returns (memo: map<string, CurrencyAmount>)
    ensures memo == EthBalances(addresses, results, chainId)
  {
    ghost var writes := EthBalanceWrites(addresses, results, chainId);
    memo := map[];
    var i := 0;
    while i < |addresses|
      invariant 0 <= i <= |addresses|
      invariant memo == Assigned(addresses[..i], writes[..i])
    {
      var value := FirstValue(results, i);
      if value.Some? && TruthyInt(chainId) {
        memo := memo[addresses[i] := CurrencyAmount(Ether(chainId.value), value.value)];
      }
      assert addresses[..i + 1][..i] == addresses[..i] && writes[..i + 1][..i] == writes[..i];
      i := i + 1;
    }
    assert addresses[..i] == addresses && writes[..i] == writes;
  }

  /** A key is present exactly when the chain id is known and some request for it has a value. */
  lemma EthBalancesKeys(addresses: seq<string>, results: seq<CallState>, chainId: Option<int>, k: string)
    ensures k in EthBalances(addresses, results, chainId) <==>
              TruthyInt(chainId) &&
              exists i :: 0 <= i < |addresses| && addresses[i] == k && FirstValue(results, i).Some?
  {
    var w := EthBalanceWrites(addresses, results, chainId);
    AssignedKeys(addresses, w, k);
    if k in EthBalances(addresses, results, chainId) {
      var i :| 0 <= i < |addresses| && addresses[i] == k && w[i].Some?;
      assert FirstValue(results, i).Some?;
    }
    if TruthyInt(chainId) && exists i :: 0 <= i < |addresses| && addresses[i] == k && FirstValue(results, i).Some? {
      var i :| 0 <= i < |addresses| && addresses[i] == k && FirstValue(results, i).Some?;
      assert w[i].Some?;
    }
  }

  /** Without a chain id the record is empty, whatever the results. */
  lemma EthBalancesWithoutChain(addresses: seq<string>, results: seq<CallState>, chainId: Option<int>)
    requires !TruthyInt(chainId)
    ensures EthBalances(addresses, results, chainId) == map[]
  {
    AssignedNoWrites(addresses, EthBalanceWrites(addresses, results, chainId));
  }

  /**
   * Index alignment: a present entry carries the value of the call at its own index, the last
   * index requesting that address whose call has a value.
   */
  lemma EthBalanceFromOwnIndex(addresses: seq<string>, results: seq<CallState>, chainId: Option<int>, k: string)
    requires k in EthBalances(addresses, results, chainId)
    ensures TruthyInt(chainId)
    ensures var i := LastWrite(addresses, EthBalanceWrites(addresses, results, chainId), k);
            0 <= i < |addresses| && addresses[i] == k && FirstValue(results, i).Some? &&
            EthBalances(addresses, results, chainId)[k] ==
              CurrencyAmount(Ether(chainId.value), FirstValue(results, i).value) &&
            forall j :: i < j < |addresses| && addresses[j] == k ==> FirstValue(results, j).None?
  {
    var w := EthBalanceWrites(addresses, results, chainId);
    AssignedIsLastWrite(addresses, w, k);
    var i := LastWrite(addresses, w, k);
    forall j | i < j < |addresses| && addresses[j] == k ensures FirstValue(results, j).None? {
      assert !w[j].Some?;
    }
  }

  /** An address requested once with a value, on a known chain, maps to the amount of that very call. */
  lemma EthBalanceAtUniqueIndex(addresses: seq<string>, results: seq<CallState>, chainId: Option<int>, i: nat)
    requires i < |addresses| && TruthyInt(chainId) && FirstValue(results, i).Some?
    requires forall j :: 0 <= j < |addresses| && j != i ==> addresses[j] != addresses[i]
    ensures addresses[i] in EthBalances(addresses, results, chainId)
    ensures EthBalances(addresses, results, chainId)[addresses[i]] ==
              CurrencyAmount(Ether(chainId.value), FirstValue(results, i).value)
  {
    AssignedAtIndex(addresses, EthBalanceWrites(addresses, results, chainId), i);
  }

  /** useETHBalances: validate, normalise and sort, issue one read per address, fold the results. */
  method UseETHBalances(isAddress: AddressValidator, uncheckedAddresses: Option<seq<Option<string>>>,
                        chainId: Option<int>, readEthBalances: seq<seq<string>> -> seq<CallState>)
    returns (balances: map<string, CurrencyAmount>)
    ensures var addresses := ValidatedAddresses(isAddress, uncheckedAddresses);
            balances == EthBalances(addresses, readEthBalances(EthBalanceCalls(addresses)), chainId)
    ensures forall a :: a in balances ==> a in ValidatedAddresses(isAddress, uncheckedAddresses)
    ensures !TruthyInt(chainId) ==> balances == map[]
  {
    var addresses := ValidatedAddresses(isAddress, uncheckedAddresses);
    var results := readEthBalances(EthBalanceCalls(addresses));
    balances := ReduceEthBalances(addresses, results, chainId);
    AssignedKeysFromKeys(addresses, EthBalanceWrites(addresses, results, chainId));
    if !TruthyInt(chainId) {
      EthBalancesWithoutChain(addresses, results, chainId);
    }
  }

  // ---------------------------------------------------------------------------------------
  // Token balances (useTokenBalancesWithLoadingIndicator, useTokenBalances, useTokenBalance)
  // ---------------------------------------------------------------------------------------

  /** `t?.address` */
  function TokenAddress(t: Option<Token>): (address: Option<string>)
  {
    match t
    case None => None
    case Some(token) => Some(token.address)
  }

  /** `tokens.filter(t => isAddress(t?.address) !== false)`: defined tokens with a valid address, in order. */
  function FilterTokens(isAddress: AddressValidator, tokens: seq<Option<Token>>): (r: seq<Token>)
    ensures |r| <= |tokens|
    ensures forall t :: t in r <==> Some(t) in tokens && isAddress(t.address).Some?
    decreases |tokens|
  {
    if tokens == [] then []
    else
      var rest := FilterTokens(isAddress, tokens[1..]);
      assert tokens == [tokens[0]] + tokens[1..];
      if CheckAddress(isAddress, TokenAddress(tokens[0])).Some? then [tokens[0].value] + rest else rest
  }

  /** The filter keeps input order: filtering a concatenation concatenates the filtered parts. */
  lemma {:induction false} FilterTokensAppend(isAddress: AddressValidator, a: seq<Option<Token>>, b: seq<Option<Token>>)
    ensures FilterTokens(isAddress, a + b) == FilterTokens(isAddress, a) + FilterTokens(isAddress, b)
    decreases |a|
  {
    if a == [] {
      assert a + b == b;
    } else {
      assert (a + b)[0] == a[0] && (a + b)[1..] == a[1..] + b;
      FilterTokensAppend(isAddress, a[1..], b);
    }
  }

  /** No deduplication and no sorting: a token given twice is kept twice, after the tokens before it. */
  lemma FilterTokensKeepsDuplicates(isAddress: AddressValidator, t: Token, u: Token)
    requires isAddress(t.address).Some? && isAddress(u.address).Some?
    ensures FilterTokens(isAddress, [Some(u), Some(t), Some(t)]) == [u, t, t]
  {
    assert [Some(u), Some(t), Some(t)][1..] == [Some(t), Some(t)];
    assert [Some(t), Some(t)][1..] == [Some(t)];
  }

  /** `tokens?.filter(...) ?? []` */
  function ValidatedTokens(isAddress: AddressValidator, tokens: Option<seq<Option<Token>>>): (r: seq<Token>)
    ensures tokens.None? ==> r == []
    ensures forall t :: t in r <==> tokens.Some? && Some(t) in tokens.value && isAddress(t.address).Some?
  {
    match tokens
    case None => []
    case Some(list) => FilterTokens(isAddress, list)
  }

  /** `validatedTokens.map(vt => vt.address)`: the contracts read, one per validated token, in order. */
  function TokenAddresses(tokens: seq<Token>): (r: seq<string>)
    ensures |r| == |tokens|
    ensures forall i :: 0 <= i < |r| ==> r[i] == tokens[i].address
  {
    seq(|tokens|, i requires 0 <= i < |tokens| => tokens[i].address)
  }

  /** `balances.some(callState => callState.loading)` */
  function AnyLoading(states: seq<CallState>): (r: bool)
    ensures r <==> exists i :: 0 <= i < |states| && states[i].loading
    decreases |states|
  {
    if states == [] then false
    else
      assert forall i :: 1 <= i < |states| ==> states[i] == states[1..][i - 1];
      states[0].loading || AnyLoading(states[1..])
  }

  /** What the token reduce callback assigns at index `i`: present exactly when the call has a value. */
  function TokenBalanceWrites(tokens: seq<Token>, balances: seq<CallState>): (w: seq<Option<CurrencyAmount>>)
    ensures |w| == |tokens|
  {
    seq(|tokens|, i requires 0 <= i < |tokens| =>
      if FirstValue(balances, i).Some?
      then Some(CurrencyAmount(Erc20(tokens[i]), FirstValue(balances, i).value))
      else None)
  }

  /** The token balance record: `{}` without an owner or without tokens, else the reduce keyed by `token.address`. */
  function TokenBalances(owner: Option<string>, tokens: seq<Token>, balances: seq<CallState>)
    : (record: map<string, CurrencyAmount>)
  {
    if TruthyString(owner) && |tokens| > 0
    then Assigned(TokenAddresses(tokens), TokenBalanceWrites(tokens, balances))
    else map[]
  }

  /** The token memo: the guard, then the reduce callback assigning one token at a time. */
  method ReduceTokenBalances(owner: Option<string>, tokens: seq<Token>, balances: seq<CallState>)
    returns (memo: map<string, CurrencyAmount>)
    ensures memo == TokenBalances(owner, tokens, balances)
  {
    memo := map[];
    if TruthyString(owner) && |tokens| > 0 {
      ghost var keys := TokenAddresses(tokens);
      ghost var writes := TokenBalanceWrites(tokens, balances);
      var i := 0;
      while i < |tokens|
        invariant 0 <= i <= |tokens|
        invariant memo == Assigned(keys[..i], writes[..i])
      {
        var value := FirstValue(balances, i);
        var amount := if value.Some? then Some(value.value) else None;
        if amount.Some? {
          memo := memo[tokens[i].address := CurrencyAmount(Erc20(tokens[i]), amount.value)];
        }
        assert keys[..i + 1][..i] == keys[..i] && writes[..i + 1][..i] == writes[..i];
        i := i + 1;
      }
      assert keys[..i] == keys && writes[..i] == writes;
    }
  }

  /** A key is present exactly when there is an owner and some token with that address has a value. */
  lemma TokenBalancesKeys(owner: Option<string>, tokens: seq<Token>, balances: seq<CallState>, k: string)
    ensures k in TokenBalances(owner, tokens, balances) <==>
              TruthyString(owner) &&
              exists i :: 0 <= i < |tokens| && tokens[i].address == k && FirstValue(balances, i).Some?
  {
    var keys := TokenAddresses(tokens);
    var w := TokenBalanceWrites(tokens, balances);
    AssignedKeys(keys, w, k);
    if k in TokenBalances(owner, tokens, balances) {
      var i :| 0 <= i < |keys| && keys[i] == k && w[i].Some?;
      assert tokens[i].address == k && FirstValue(balances, i).Some?;
    }
    if TruthyString(owner) && exists i :: 0 <= i < |tokens| && tokens[i].address == k && FirstValue(balances, i).Some? {
      var i :| 0 <= i < |tokens| && tokens[i].address == k && FirstValue(balances, i).Some?;
      assert keys[i] == k && w[i].Some?;
    }
  }

  /**
   * Index alignment: a present entry is the amount of the call at its own token's index, the last
   * token with that address whose call has a value, in that token's currency.
   */
  lemma TokenBalanceFromOwnIndex(owner: Option<string>, tokens: seq<Token>, balances: seq<CallState>, k: string)
    requires k in TokenBalances(owner, tokens, balances)
    ensures TruthyString(owner)
    ensures var i := LastWrite(TokenAddresses(tokens), TokenBalanceWrites(tokens, balances), k);
            0 <= i < |tokens| && tokens[i].address == k && FirstValue(balances, i).Some? &&
            TokenBalances(owner, tokens, balances)[k] ==
              CurrencyAmount(Erc20(tokens[i]), FirstValue(balances, i).value) &&
            forall j :: i < j < |tokens| && tokens[j].address == k ==> FirstValue(balances, j).None?
  {
    var keys := TokenAddresses(tokens);
    var w := TokenBalanceWrites(tokens, balances);
    AssignedIsLastWrite(keys, w, k);
    var i := LastWrite(keys, w, k);
    forall j | i < j < |tokens| && tokens[j].address == k ensures FirstValue(balances, j).None? {
      assert keys[j] == k && !w[j].Some?;
    }
  }

  /** useTokenBalancesWithLoadingIndicator: filter, read `balanceOf(owner)` per token, fold, flag loading. */
  method UseTokenBalancesWithLoadingIndicator(isAddress: AddressValidator, owner: Option<string>,
                                              tokens: Option<seq<Option<Token>>>,
                                              readBalances: (seq<string>, Option<string>) -> seq<CallState>)
    returns (balances: map<string, CurrencyAmount>, anyLoading: bool)
    ensures var validated := ValidatedTokens(isAddress, tokens);
            var states := readBalances(TokenAddresses(validated), owner);
            balances == TokenBalances(owner, validated, states) &&
            (anyLoading <==> exists i :: 0 <= i < |states| && states[i].loading)
    ensures forall k :: k in balances ==>
              TruthyString(owner) &&
              exists t :: t in ValidatedTokens(isAddress, tokens) && t.address == k
  {
    var validated := ValidatedTokens(isAddress, tokens);
    var states := readBalances(TokenAddresses(validated), owner);
    anyLoading := AnyLoading(states);
    balances := ReduceTokenBalances(owner, validated, states);
    forall k | k in balances
      ensures TruthyString(owner) && exists t :: t in validated && t.address == k
    {
      TokenBalancesKeys(owner, validated, states, k);
      var i :| 0 <= i < |validated| && validated[i].address == k && FirstValue(states, i).Some?;
      assert validated[i] in validated;
    }
  }

  /** useTokenBalances: the record half of the pair. */
  method UseTokenBalances(isAddress: AddressValidator, owner: Option<string>, tokens: Option<seq<Option<Token>>>,
                          readBalances: (seq<string>, Option<string>) -> seq<CallState>)
    returns (balances: map<string, CurrencyAmount>)
    ensures var validated := ValidatedTokens(isAddress, tokens);
            balances == TokenBalances(owner, validated, readBalances(TokenAddresses(validated), owner))
  {
    var anyLoading;
    balances, anyLoading := UseTokenBalancesWithLoadingIndicator(isAddress, owner, tokens, readBalances);
  }

  /**
   * useTokenBalance: undefined without a token; otherwise the entry at `token.address`, which is
   * present exactly when there is an account, the address validates and the single read has a value.
   */
  method UseTokenBalance(isAddress: AddressValidator, account: Option<string>, token: Option<Token>,
                         readBalances: (seq<string>, Option<string>) -> seq<CallState>)
    returns (balance: Option<CurrencyAmount>)
    ensures token.None? ==> balance.None?
    ensures token.Some? ==>
              (balance.Some? <==>
                 TruthyString(account) && isAddress(token.value.address).Some? &&
                 FirstValue(readBalances([token.value.address], account), 0).Some?)
    ensures balance.Some? ==>
              token.Some? &&
              balance.value ==
                CurrencyAmount(Erc20(token.value), FirstValue(readBalances([token.value.address], account), 0).value)
  {
    var tokenBalances := UseTokenBalances(isAddress, account, Some([token]), readBalances);
    if token.None? {
      return None;
    }
    var t := token.value;
    var validated := ValidatedTokens(isAddress, Some([token]));
    if isAddress(t.address).Some? {
      assert validated == [t] by { assert [token][1..] == []; }
      assert TokenAddresses(validated) == [t.address];
      var states := readBalances([t.address], account);
      TokenBalancesKeys(account, validated, states, t.address);
      if t.address in tokenBalances {
        TokenBalanceFromOwnIndex(account, validated, states, t.address);
      }
    } else {
      assert validated == [] by { assert [token][1..] == []; }
    }
    balance := if t.address in tokenBalances then Some(tokenBalances[t.address]) else None;
  }
}
