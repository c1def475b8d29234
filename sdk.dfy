/**
 * The few SDK types the name service exchanges with its host: account
 * addresses (`sdk.AccAddress`), the errors it returns (`sdk.Error`) and the
 * result of handling a message (`sdk.Result`).
 */
module Sdk {
  import opened ByteStrings

  /** `sdk.AccAddress` is a byte slice. */
  type Address = Bytes

  /** `AccAddress.Empty()`: no bytes at all. */
  predicate IsEmpty(a: Address)
  {
    |a| == 0
  }

  /**
   * The three error constructors the core uses. `InvalidAddress` keeps the
   * offending address; its Bech32 rendering is not modelled.
   */
  datatype SdkError =
    | InvalidAddress(address: Address)
    | UnknownRequest(log: string)
    | InsufficientCoins(log: string)

  /**
   * What a handler returns: `OK` is the empty `sdk.Result{}`, `Failed` is
   * `err.Result()`, and `Panicked` stands for a panic raised inside the
   * handler, which the host turns into a failed transaction.
   */
  datatype TxResult = OK | Failed(err: SdkError) | Panicked
}
