/** Types shared by every component of the gateway model. */
module Common {

  /** An absent `double` is NaN in the gateway; here it is `None`. */
  datatype Option<+T> = None | Some(value: T)

  /** The action of a table message. `Undefined` stands for the decoder's two "internal" values. */
  datatype Action = Undefined | Partial | Insert | Update | Delete

  datatype Side = Buy | Sell | UnknownSide

  /** The status a stream reports; `Fetching` is DOWNLOADING with its reason. */
  datatype Status = Unknown | Offline | LoginSent | Fetching(reason: string) | Ready

  /** Which symbols the configuration discards. */
  type Discard = string -> bool

  function Max(a: int, b: int): int {
    if a < b then b else a
  }

  function Last<T>(s: seq<T>): T
    requires s != []
  {
    s[|s| - 1]
  }

  function DropLast<T>(s: seq<T>): seq<T>
    requires s != []
  {
    s[..|s| - 1]
  }
}
