/**
 * The Build card of a single market's page. It repeats the guards of the markets page and
 * computes its quick amounts when a button is clicked. Its Build button has no click handler.
 */
module MarketBuildPosition {
  import opened Values
  import opened WalletHooks
  import opened Position
  import MarketsBuildPosition

  const MissingInputSize := "missing position input size"
  const MissingSide := "please choose a long/short position"
  const MissingLeverage := "please select a leverage value"

  /** `attemptToApprove`: input size, then side, then leverage; the approve callback only after all three. */
  function AttemptToApprove(s: PositionState): (r: ApproveOutcome)
    ensures r == Rejected(MissingInputSize) <==> !TruthyString(s.inputValue)
    ensures r == Rejected(MissingSide) <==> TruthyString(s.inputValue) && s.positionSide.None?
    ensures r == Rejected(MissingLeverage) <==>
              TruthyString(s.inputValue) && s.positionSide.Some? && !TruthyNumber(s.leverageValue)
    ensures r == ApproveCalled <==>
              TruthyString(s.inputValue) && s.positionSide.Some? && TruthyNumber(s.leverageValue)
  {
    if !TruthyString(s.inputValue) then Rejected(MissingInputSize)
    else if s.positionSide.None? then Rejected(MissingSide)
    else if !TruthyNumber(s.leverageValue) then Rejected(MissingLeverage)
    else ApproveCalled
  }

  /** Both pages reject and accept the same states with the same messages. */
  lemma SameGuardsAsMarketsPage(s: PositionState)
    ensures AttemptToApprove(s) == MarketsBuildPosition.AttemptToApprove(s)
  {
  }

  function HandleLeverageInput(value: real): (a: PositionAction)
  {
    LeverageInput(value)
  }

  function HandlePositionSideLong(): (a: PositionAction)
  {
    PositionSideInput(Long)
  }

  function HandlePositionSideShort(): (a: PositionAction)
  {
    PositionSideInput(Short)
  }

  function HandleTypeInput(value: string): (a: PositionAction)
  {
    AmountInput(Some(value))
  }

  /** Max dispatches `maxInputAmount?.toExact()`: undefined without a spendable balance. */
  function HandleMaxInput(math: AmountMath, maxInputAmount: Option<CurrencyAmount>): (a: PositionAction)
    ensures a.AmountInput?
    ensures a.amount.None? <==> maxInputAmount.None?
    ensures maxInputAmount.Some? ==> a.amount == Some(math.toExact(maxInputAmount.value))
  {
    match maxInputAmount
    case None => AmountInput(None)
    case Some(m) => AmountInput(Some(math.toExact(m)))
  }

  /** `maxInputAmount?.multiply(percent).divide(100).toExact().toString()`, computed at click time. */
  function HandlePercentInput(math: AmountMath, maxInputAmount: Option<CurrencyAmount>, percent: int): (a: PositionAction)
    ensures a.AmountInput?
    ensures a.amount.None? <==> maxInputAmount.None?
    ensures maxInputAmount.Some? ==> a.amount == Some(Percentage(math, maxInputAmount.value, percent))
  {
    match maxInputAmount
    case None => AmountInput(None)
    case Some(m) => AmountInput(Some(Percentage(math, m, percent)))
  }

  function Handle75Input(math: AmountMath, maxInputAmount: Option<CurrencyAmount>): (a: PositionAction)
  {
    HandlePercentInput(math, maxInputAmount, 75)
  }

  function Handle50Input(math: AmountMath, maxInputAmount: Option<CurrencyAmount>): (a: PositionAction)
  {
    HandlePercentInput(math, maxInputAmount, 50)
  }

  function Handle25Input(math: AmountMath, maxInputAmount: Option<CurrencyAmount>): (a: PositionAction)
  {
    HandlePercentInput(math, maxInputAmount, 25)
  }

  /**
   * Computing the quick amounts at click time dispatches the same actions as the markets page,
   * which computes them at render time from the same spendable balance.
   */
  lemma QuickInputsAgreeWithMarketsPage(math: AmountMath, maxInputAmount: Option<CurrencyAmount>)
    ensures var q := MarketsBuildPosition.InputAmounts(math, maxInputAmount);
            && Handle75Input(math, maxInputAmount) == MarketsBuildPosition.Handle75Input(q)
            && Handle50Input(math, maxInputAmount) == MarketsBuildPosition.Handle50Input(q)
            && Handle25Input(math, maxInputAmount) == MarketsBuildPosition.Handle25Input(q)
            && HandleMaxInput(math, maxInputAmount) == MarketsBuildPosition.HandleMaxInput(math, maxInputAmount)
  {
  }

  /** Without a spendable balance, every quick input leaves the amount undefined and approving fails. */
  lemma QuickInputWithoutBalance(math: AmountMath, s: PositionState)
    ensures forall a :: a in {HandleMaxInput(math, None), Handle75Input(math, None),
                                Handle50Input(math, None), Handle25Input(math, None)} ==>
              Apply(s, a) == s.(inputValue := None) &&
              AttemptToApprove(Apply(s, a)) == Rejected(MissingInputSize)
  {
  }

  /** The typed text is stored verbatim; Long, Short and the slider set exactly their own field. */
  lemma HandlersWriteTheirField(s: PositionState, value: string, leverage: real)
    ensures Apply(s, HandleTypeInput(value)) == s.(inputValue := Some(value))
    ensures Apply(s, HandlePositionSideLong()) == s.(positionSide := Some(Long))
    ensures Apply(s, HandlePositionSideShort()) == s.(positionSide := Some(Short))
    ensures Apply(s, HandleLeverageInput(leverage)) == s.(leverageValue := Some(leverage))
  {
  }
}
