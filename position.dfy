/**
 * The position form's state, the actions its handlers dispatch, and the outcome of a
 * submission attempt. The reducer is assumed to write each action's own field.
 */
module Position {
  import opened Values
  import opened WalletHooks

  datatype PositionSide = Long | Short

  /** The fields of the position slice that the Build form reads. */
  datatype PositionState = PositionState(
    leverageValue: Option<real>,
    positionSide: Option<PositionSide>,
    inputValue: Option<string>)

  /** `onAmountInput`, `onLeverageInput` and `onPositionSideInput`, as dispatched values. */
  datatype PositionAction =
    | AmountInput(amount: Option<string>)
    | LeverageInput(leverage: real)
    | PositionSideInput(side: PositionSide)

  /** The position reducer: every action overwrites its own field and leaves the others alone. */
  function Apply(s: PositionState, a: PositionAction): (next: PositionState)
  {
    match a
    case AmountInput(amount) => s.(inputValue := amount)
    case LeverageInput(leverage) => s.(leverageValue := Some(leverage))
    case PositionSideInput(side) => s.(positionSide := Some(side))
  }

  /** `attemptToApprove`: it throws with a message, or it goes on to call `approveCallback`. */
  datatype ApproveOutcome = Rejected(message: string) | ApproveCalled

  /** The SDK's `CurrencyAmount` operations the form uses; their definitions are not modelled. */
  datatype AmountMath = AmountMath(
    multiply: (CurrencyAmount, int) -> CurrencyAmount,
    divide: (CurrencyAmount, int) -> CurrencyAmount,
    toExact: CurrencyAmount -> string)

  /** `amount.multiply(percent).divide(100).toExact()` */
  function Percentage(math: AmountMath, amount: CurrencyAmount, percent: int): (exact: string)
  {
    math.toExact(math.divide(math.multiply(amount, percent), 100))
  }
}
