/** Small types shared by the models. */
module Common {

  type byte = n: int | 0 <= n < 256
  type Bytes = seq<byte>

  datatype Option<+T> = None | Some(value: T)

  datatype Result<+T> = Ok(value: T) | Err(error: string)

  /** Always true. A predicate of the form forall here :: Unfolded(here) ==> .. is unfolded
      only where a proof mentions Unfolded; the methods that just carry it along stay small. */
  predicate Unfolded(here: bool) { true }

  datatype Chain = Bitcoin | Litecoin | Solana | Ethereum | Base
}
