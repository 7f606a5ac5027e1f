/** The values a key-value store hands out through `value(forKey:)` (a Foundation
    property-list object seen as `Any?`), and the Option type that Swift's `as?`
    casts produce. */
module RawValues {

  /** Swift's `Optional`: the result of an `as?` cast or of `init?(rawValue:)`. */
  datatype Option<+T> = None | Some(value: T) {

    /** `self ?? fallback` */
    function GetOr(fallback: T): T {
      match this
      case Some(v) => v
      case None => fallback
    }

    /** `self.flatMap(f)` */
    function FlatMap<U>(f: T -> Option<U>): Option<U> {
      match this
      case Some(v) => f(v)
      case None => None
    }
  }

  /** A Swift `Double`. Only compared for equality; no arithmetic is done on it. */
  type Float64(==, !new)

  /** A Foundation `URL`. How it is parsed from and printed to a string is not
      modelled; see Codecs.UrlApi. */
  type Url(==, !new)

  type Byte = bv8

  /** A raw value as a store or a change notification hands it out. `RUrl` is
      the archived representation that `UserDefaults.set(_: URL, forKey:)`
      writes; `RNull` is `NSNull`, which key-value observation reports as the
      new value of a removed key; `Absent` is Swift's `nil`, a key with no value. */
  datatype Raw =
    | RBool(b: bool)
    | RInt(i: int)
    | RDouble(d: Float64)
    | RString(s: string)
    | RData(bytes: seq<Byte>)
    | RUrl(url: Url)
    | RNull
    | Absent
}
