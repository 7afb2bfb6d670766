/** Vocabulary shared by every layer of the proxy. */
module Base {

  /** uint8_t, as the value it holds. */
  type byte = x: int | 0 <= x < 256

  const MAX_CONCURRENT_CONNECTIONS := 500

  datatype Option<+T> = None | Some(value: T)

  /** The two ends of a proxied connection. */
  datatype Side = Client | Origin

  function Other(side: Side): Side {
    if side == Client then Origin else Client
  }
}
