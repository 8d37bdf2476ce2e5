/** Failure-carrying datatypes shared by the grouper, the classifier and the wallet.

    `read_data` and `Wallet.update` signal every failure with an uncaught exception that
    ends the run; here each one becomes an `Err` value the caller receives instead of a result.
 */
module Errors {

  /** An optional value; `None` stands for a text that does not parse as a number. */
  datatype Option<+T> = None | Some(value: T)

  /** The three ways a reconciliation run can fail. */
  datatype Error =
      /** `float(text)` raised: the `field` ("amount" or "fee") of the group `refid` is not a number. */
    | ParseError(refid: string, field: string, text: string)
      /** A trade or spend entry with fewer than two legs: indexing leg 1 raised. */
    | MissingLeg(refid: string, legs: nat)
      /** The entry's type is none of the six the wallet knows ("Invalid type!"). */
    | InvalidType(refid: string, kind: string)

  /** Either a value or the first error met while computing it. */
  datatype Result<+T> = Ok(value: T) | Err(error: Error)
}
