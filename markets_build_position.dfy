/** The Build card of the markets page: quick amounts, input handlers, the Build button and its guards. */
module MarketsBuildPosition {
  import opened Values
  import opened WalletHooks
  import opened Position

  const MissingInputSize := "missing position input size"
  const MissingSide := "please choose a long/short position"
  const MissingLeverage := "please select a leverage value"

  /**
   * `attemptToApprove`: three guards in order (input size, side, leverage), each with its own
   * message; the approve callback is reached only when all of them pass.
   */
  function AttemptToApprove(s: PositionState): (r: ApproveOutcome)
    ensures r == Rejected(MissingInputSize) <==> !TruthyString(s.inputValue)
    ensures r == Rejected(MissingSide) <==> TruthyString(s.inputValue) && s.positionSide.None?
    ensures r == Rejected(MissingLeverage) <==>
              TruthyString(s.inputValue) && s.positionSide.Some? && !TruthyNumber(s.leverageValue)
    ensures r == ApproveCalled <==>
              TruthyString(s.inputValue) && s.positionSide.Some? && TruthyNumber(s.leverageValue)
  {
    if !TruthyString(s.inputValue) then Rejected(MissingInputSize)
    else if s.positionSide.None? then Rejected(MissingSide)
    else if !TruthyNumber(s.leverageValue) then Rejected(MissingLeverage)
    else ApproveCalled
  }

  /**
   * Whether the active Build button (the one wired to `attemptToApprove`) is shown. Shown, the
   * first two guards pass; approving is only possible through it; a zero leverage still fails.
   */
  function BuildActive(s: PositionState): (active: bool)
    ensures active ==>
              AttemptToApprove(s) != Rejected(MissingInputSize) && AttemptToApprove(s) != Rejected(MissingSide)
    ensures active ==> AttemptToApprove(s) in {ApproveCalled, Rejected(MissingLeverage)}
    ensures AttemptToApprove(s) == ApproveCalled ==> active
    ensures active && TruthyNumber(s.leverageValue) ==> AttemptToApprove(s) == ApproveCalled
  {
    s.leverageValue.Some? && s.positionSide.Some? && TruthyString(s.inputValue)
  }

  /** The button is active with a zero leverage, and the third guard then rejects the attempt. */
  lemma ZeroLeverageActiveButRejected(s: PositionState)
    requires s.leverageValue == Some(0.0) && s.positionSide.Some? && TruthyString(s.inputValue)
    ensures BuildActive(s) && AttemptToApprove(s) == Rejected(MissingLeverage)
  {
  }

  /** The quick amounts, computed once per render from the spendable balance. */
  datatype QuickAmounts = QuickAmounts(amount75: Option<string>, amount50: Option<string>, amount25: Option<string>)

  /** `maxInputAmount?.multiply(p).divide(100).toExact().toString()` for p = 75, 50 and 25. */
  function InputAmounts(math: AmountMath, maxInputAmount: Option<CurrencyAmount>): (q: QuickAmounts)
    ensures maxInputAmount.None? ==> q == QuickAmounts(None, None, None)
    ensures maxInputAmount.Some? ==>
              q == QuickAmounts(Some(Percentage(math, maxInputAmount.value, 75)),
                                Some(Percentage(math, maxInputAmount.value, 50)),
                                Some(Percentage(math, maxInputAmount.value, 25)))
  {
    match maxInputAmount
    case None => QuickAmounts(None, None, None)
    case Some(m) => QuickAmounts(Some(Percentage(math, m, 75)), Some(Percentage(math, m, 50)), Some(Percentage(math, m, 25)))
  }

  function HandleLeverageInput(value: real): (a: PositionAction)
  {
    LeverageInput(value)
  }

  function HandlePositionSideLong(): (a: PositionAction)
  {
    PositionSideInput(Long)
  }

  function HandlePositionSideShort(): (a: PositionAction)
  {
    PositionSideInput(Short)
  }

  function HandleTypeInput(value: string): (a: PositionAction)
  {
    AmountInput(Some(value))
  }

  /** Max dispatches `maxInputAmount?.toExact()`: undefined without a spendable balance. */
  function HandleMaxInput(math: AmountMath, maxInputAmount: Option<CurrencyAmount>): (a: PositionAction)
    ensures a.AmountInput?
    ensures a.amount.None? <==> maxInputAmount.None?
    ensures maxInputAmount.Some? ==> a.amount == Some(math.toExact(maxInputAmount.value))
  {
    match maxInputAmount
    case None => AmountInput(None)
    case Some(m) => AmountInput(Some(math.toExact(m)))
  }

  function Handle75Input(q: QuickAmounts): (a: PositionAction)
  {
    AmountInput(q.amount75)
  }

  function Handle50Input(q: QuickAmounts): (a: PositionAction)
  {
    AmountInput(q.amount50)
  }

  function Handle25Input(q: QuickAmounts): (a: PositionAction)
  {
    AmountInput(q.amount25)
  }

  /** A quick input stores p percent of the spendable balance, rendered exactly, and nothing else. */
  lemma QuickInputSetsPercentage(math: AmountMath, maxInputAmount: Option<CurrencyAmount>, s: PositionState)
    ensures var q := InputAmounts(math, maxInputAmount);
            var p75, p50, p25 := Apply(s, Handle75Input(q)), Apply(s, Handle50Input(q)), Apply(s, Handle25Input(q));
            && p75 == s.(inputValue := p75.inputValue)
            && p50 == s.(inputValue := p50.inputValue)
            && p25 == s.(inputValue := p25.inputValue)
            && (maxInputAmount.Some? ==>
                  && p75.inputValue == Some(Percentage(math, maxInputAmount.value, 75))
                  && p50.inputValue == Some(Percentage(math, maxInputAmount.value, 50))
                  && p25.inputValue == Some(Percentage(math, maxInputAmount.value, 25)))
  {
  }

  /** Without a spendable balance, every quick input clears the amount, so Build is then refused. */
  lemma QuickInputWithoutBalance(math: AmountMath, s: PositionState)
    ensures var q := InputAmounts(math, None);
            forall a :: a in {HandleMaxInput(math, None), Handle75Input(q), Handle50Input(q), Handle25Input(q)} ==>
              Apply(s, a).inputValue.None? && !BuildActive(Apply(s, a)) &&
              AttemptToApprove(Apply(s, a)) == Rejected(MissingInputSize)
  {
  }

  /** The typed text is stored verbatim; an empty text makes the first guard fail. */
  lemma TypedInputStoredVerbatim(s: PositionState, value: string)
    ensures Apply(s, HandleTypeInput(value)) == s.(inputValue := Some(value))
    ensures (AttemptToApprove(Apply(s, HandleTypeInput(value))) == Rejected(MissingInputSize)) <==> value == ""
  {
  }

  /** Long and Short set the side they name, after which the side guard cannot fail. */
  lemma SideHandlersChooseSide(s: PositionState)
    ensures Apply(s, HandlePositionSideLong()) == s.(positionSide := Some(Long))
    ensures Apply(s, HandlePositionSideShort()) == s.(positionSide := Some(Short))
    ensures AttemptToApprove(Apply(s, HandlePositionSideLong())) != Rejected(MissingSide)
    ensures AttemptToApprove(Apply(s, HandlePositionSideShort())) != Rejected(MissingSide)
  {
  }

  /** The slider's value becomes the leverage; a non-zero one passes the leverage guard. */
  lemma LeverageHandlerSetsLeverage(s: PositionState, value: real)
    ensures Apply(s, HandleLeverageInput(value)) == s.(leverageValue := Some(value))
    ensures value != 0.0 ==> AttemptToApprove(Apply(s, HandleLeverageInput(value))) != Rejected(MissingLeverage)
  {
  }
}
