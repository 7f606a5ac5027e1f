/** The per-type marshaling of the typed initialisers of `Storage`: the `as?`
    casts used as notification decoders (`transform`), the values handed to
    `set(_:forKey:)` (the commit handlers), and the construction-time reads. */
module Codecs {
  import opened RawValues

  /** A notification decoder together with the encoding a commit stores. */
  datatype Codec<!V> = Codec(transform: Raw -> Option<V>, encode: V -> Raw)

  /** The Foundation operations on URLs that the URL cells rely on, left
      uninterpreted: `URL.init(string:)`, `absoluteString` and
      `UserDefaults.url(forKey:)` applied to a stored raw value. */
  datatype UrlApi = UrlApi(
    parse: string -> Option<Url>,
    absoluteString: Url -> string,
    urlForKey: Raw -> Option<Url>)

  /** A `RawRepresentable` enumeration with backing type R: `rawValue`,
      `init(rawValue:)`, and the plain cast `$0 as? Value` of a stored value to
      the enumeration type, which is not a raw-value lookup and is left
      uninterpreted. */
  datatype RawRepresentable<!E, !R> = RawRepresentable(
    rawValue: E -> R,
    initRawValue: R -> Option<E>,
    cast: Raw -> Option<E>)

  // ---------------------------------------------------------------------------
  // Casts `$0 as? T`: they succeed exactly on a raw value of T's shape.

  function AsBool(r: Raw): (o: Option<bool>)
    ensures o.Some? <==> r.RBool?
    ensures o.Some? ==> r == RBool(o.value)
  {
    match r
    case RBool(b) => Some(b)
    case _ => None
  }

  function AsInt(r: Raw): (o: Option<int>)
    ensures o.Some? <==> r.RInt?
    ensures o.Some? ==> r == RInt(o.value)
  {
    match r
    case RInt(i) => Some(i)
    case _ => None
  }

  function AsDouble(r: Raw): (o: Option<Float64>)
    ensures o.Some? <==> r.RDouble?
    ensures o.Some? ==> r == RDouble(o.value)
  {
    match r
    case RDouble(d) => Some(d)
    case _ => None
  }

  function AsString(r: Raw): (o: Option<string>)
    ensures o.Some? <==> r.RString?
    ensures o.Some? ==> r == RString(o.value)
  {
    match r
    case RString(s) => Some(s)
    case _ => None
  }

  /** `$0 as? Data`; also `UserDefaults.data(forKey:)`, which answers only for
      a stored data value. */
  function AsData(r: Raw): (o: Option<seq<Byte>>)
    ensures o.Some? <==> r.RData?
    ensures o.Some? ==> r == RData(o.value)
  {
    match r
    case RData(bytes) => Some(bytes)
    case _ => None
  }

  /** `$0 as? T?`: a missing value and `NSNull` cast to a successful `nil`;
      anything else succeeds exactly when the cast to T does. */
  function AsOptional<T>(cast: Raw -> Option<T>, r: Raw): (o: Option<Option<T>>)
    ensures r.Absent? || r.RNull? ==> o == Some(None)
    ensures !r.Absent? && !r.RNull? ==> (o.Some? <==> cast(r).Some?)
    ensures !r.Absent? && !r.RNull? && o.Some? ==> o.value == cast(r)
  {
    if r.Absent? || r.RNull? then Some(None)
    else match cast(r)
      case Some(x) => Some(Some(x))
      case None => None
  }

  /** `($0 as? String).flatMap(URL.init)` */
  function AsUrl(api: UrlApi, r: Raw): (o: Option<Url>)
    ensures o.Some? ==> r.RString? && api.parse(r.s) == o
    ensures r.RString? ==> o == api.parse(r.s)
  {
    AsString(r).FlatMap(api.parse)
  }

  // ---------------------------------------------------------------------------
  // What the commit handlers hand to the store.

  /** `store.set(x, forKey:)` where x: T? — `nil` removes the key. */
  function EncodeOptional<T>(encode: T -> Raw, o: Option<T>): (r: Raw)
    ensures o.None? ==> r.Absent?
    ensures o.Some? ==> r == encode(o.value)
  {
    match o
    case None => Absent
    case Some(x) => encode(x)
  }

  /** `store.set($0?.absoluteString, forKey:)` */
  function EncodeOptionalUrl(api: UrlApi, o: Option<Url>): (r: Raw)
    ensures r.Absent? <==> o.None?
    ensures o.Some? ==> r == RString(api.absoluteString(o.value))
  {
    match o
    case None => Absent
    case Some(u) => RString(api.absoluteString(u))
  }

  /** A codec whose decoder gives back every value it encodes, from a raw value
      that is really stored. */
  ghost predicate RoundTrips<T(!new)>(c: Codec<T>) {
    forall x :: !c.encode(x).Absent? && !c.encode(x).RNull? && c.transform(c.encode(x)) == Some(x)
  }

  // ---------------------------------------------------------------------------
  // The codec of each typed initialiser. The plain ones round-trip, and neither
  // a missing value nor `NSNull` decodes.

  function BoolCodec(): (c: Codec<bool>)
    ensures forall b :: c.encode(b) == RBool(b)
    ensures forall r :: c.transform(r) == AsBool(r)
    ensures RoundTrips(c)
    ensures c.transform(Absent).None? && c.transform(RNull).None?
  {
    Codec(AsBool, (b: bool) => RBool(b))
  }

  function IntCodec(): (c: Codec<int>)
    ensures forall i :: c.encode(i) == RInt(i)
    ensures forall r :: c.transform(r) == AsInt(r)
    ensures RoundTrips(c)
    ensures c.transform(Absent).None? && c.transform(RNull).None?
  {
    Codec(AsInt, (i: int) => RInt(i))
  }

  function DoubleCodec(): (c: Codec<Float64>)
    ensures forall d :: c.encode(d) == RDouble(d)
    ensures forall r :: c.transform(r) == AsDouble(r)
    ensures RoundTrips(c)
    ensures c.transform(Absent).None? && c.transform(RNull).None?
  {
    Codec(AsDouble, (d: Float64) => RDouble(d))
  }

  function StringCodec(): (c: Codec<string>)
    ensures forall s :: c.encode(s) == RString(s)
    ensures forall r :: c.transform(r) == AsString(r)
    ensures RoundTrips(c)
    ensures c.transform(Absent).None? && c.transform(RNull).None?
  {
    Codec(AsString, (s: string) => RString(s))
  }

  function DataCodec(): (c: Codec<seq<Byte>>)
    ensures forall bytes :: c.encode(bytes) == RData(bytes)
    ensures forall r :: c.transform(r) == AsData(r)
    ensures RoundTrips(c)
    ensures c.transform(Absent).None? && c.transform(RNull).None?
  {
    Codec(AsData, (bytes: seq<Byte>) => RData(bytes))
  }

  /** A non-optional URL cell decodes a notification by parsing a string but
      commits with `set(_: URL, forKey:)`, which stores the archived URL: no
      commit of it decodes. */
  function UrlCodec(api: UrlApi): (c: Codec<Url>)
    ensures forall u :: c.encode(u) == RUrl(u)
    ensures forall r :: c.transform(r) == AsUrl(api, r)
    ensures forall u :: c.transform(c.encode(u)).None?
    ensures forall s :: c.transform(RString(s)) == api.parse(s)
    ensures c.transform(Absent).None? && c.transform(RNull).None?
  {
    Codec((r: Raw) => AsUrl(api, r), (u: Url) => RUrl(u))
  }

  /** The optional form of a plain codec (`$0 as? T?`, `store.set($0, forKey:)`):
      `nil` removes the key, `Some(x)` stores what the plain cell would, and a
      missing value or `NSNull` decodes to `nil`. */
  function OptionalCodec<T(!new)>(base: Codec<T>): (c: Codec<Option<T>>)
    ensures c.encode(None).Absent?
    ensures forall x :: c.encode(Some(x)) == base.encode(x)
    ensures forall r :: c.transform(r) == AsOptional(base.transform, r)
    ensures c.transform(Absent) == c.transform(RNull) == Some(None)
  {
    Codec((r: Raw) => AsOptional(base.transform, r), (o: Option<T>) => EncodeOptional(base.encode, o))
  }

  /** For `Value == URL?` the decoder's `URL?` result is promoted to `Value?`,
      so this decoder never fails: a payload that is no parsable string gives `nil`. */
  function OptionalUrlCodec(api: UrlApi): (c: Codec<Option<Url>>)
    ensures forall r :: c.transform(r).Some?
    ensures forall s :: c.transform(RString(s)) == Some(api.parse(s))
    ensures forall r :: c.transform(r).value.Some? <==> r.RString? && api.parse(r.s).Some?
    ensures c.encode(None).Absent?
    ensures forall u :: c.encode(Some(u)) == RString(api.absoluteString(u))
  {
    Codec((r: Raw) => Some(AsUrl(api, r)), (o: Option<Url>) => EncodeOptionalUrl(api, o))
  }

  /** `store.setValue($0.rawValue, forKey:)` for a String-backed enumeration;
      notifications go through the plain cast. */
  function StringEnumCodec<E(!new)>(rr: RawRepresentable<E, string>): (c: Codec<E>)
    ensures forall e :: c.encode(e) == RString(rr.rawValue(e))
    ensures forall r :: c.transform(r) == rr.cast(r)
  {
    Codec(rr.cast, (e: E) => RString(rr.rawValue(e)))
  }

  /** `store.setValue($0.rawValue, forKey:)` for an Int-backed enumeration;
      notifications go through the plain cast. */
  function IntEnumCodec<E(!new)>(rr: RawRepresentable<E, int>): (c: Codec<E>)
    ensures forall e :: c.encode(e) == RInt(rr.rawValue(e))
    ensures forall r :: c.transform(r) == rr.cast(r)
  {
    Codec(rr.cast, (e: E) => RInt(rr.rawValue(e)))
  }

  // ---------------------------------------------------------------------------
  // Construction-time reads.

  /** `store.value(forKey: key) as? Value ?? fallback`: the stored value when it
      has the cell's shape, the fallback otherwise. */
  function Loaded<V>(cast: Raw -> Option<V>, stored: Raw, fallback: V): (v: V)
    ensures cast(stored).None? ==> v == fallback
    ensures cast(stored).Some? ==> v == cast(stored).value
  {
    cast(stored).GetOr(fallback)
  }

  /** `(store.value(forKey: key) as? R).flatMap(Value.init) ?? fallback` for an
      enumeration backed by R, whose values are read with `asRaw`. */
  function LoadedEnum<E, R>(rr: RawRepresentable<E, R>, asRaw: Raw -> Option<R>, stored: Raw, fallback: E): (e: E)
    ensures asRaw(stored).Some? && rr.initRawValue(asRaw(stored).value).Some? ==>
              e == rr.initRawValue(asRaw(stored).value).value
    ensures asRaw(stored).None? || rr.initRawValue(asRaw(stored).value).None? ==> e == fallback
  {
    asRaw(stored).FlatMap(rr.initRawValue).GetOr(fallback)
  }

  // ---------------------------------------------------------------------------
  // Round trips: a plain cast accepts exactly the encodings of its type.

  lemma BoolRoundTrip(b: bool, r: Raw)
    ensures BoolCodec().transform(r) == Some(b) <==> r == BoolCodec().encode(b)
  {
  }

  lemma IntRoundTrip(i: int, r: Raw)
    ensures IntCodec().transform(r) == Some(i) <==> r == IntCodec().encode(i)
  {
  }

  lemma DoubleRoundTrip(d: Float64, r: Raw)
    ensures DoubleCodec().transform(r) == Some(d) <==> r == DoubleCodec().encode(d)
  {
  }

  lemma StringRoundTrip(s: string, r: Raw)
    ensures StringCodec().transform(r) == Some(s) <==> r == StringCodec().encode(s)
  {
  }

  lemma DataRoundTrip(bytes: seq<Byte>, r: Raw)
    ensures DataCodec().transform(r) == Some(bytes) <==> r == DataCodec().encode(bytes)
  {
  }

  /** The optional form of a codec round-trips, `nil` included, when the base
      codec does. */
  lemma OptionalRoundTrip<T(!new)>(base: Codec<T>, o: Option<T>)
    requires RoundTrips(base)
    ensures OptionalCodec(base).transform(OptionalCodec(base).encode(o)) == Some(o)
  {
  }

  /** A cell created over a value stored by an optional cell loads that value
      back, `nil` included. */
  lemma OptionalReload<T(!new)>(base: Codec<T>, o: Option<T>)
    requires RoundTrips(base)
    ensures Loaded(OptionalCodec(base).transform, OptionalCodec(base).encode(o), None) == o
  {
  }

  /** The optional URL cell round-trips when `URL(string: u.absoluteString) == u`. */
  lemma OptionalUrlRoundTrip(api: UrlApi, o: Option<Url>)
    requires o.Some? ==> api.parse(api.absoluteString(o.value)) == Some(o.value)
    ensures o.Some? ==> OptionalUrlCodec(api).transform(OptionalUrlCodec(api).encode(o)) == Some(o)
    ensures o.None? ==> OptionalUrlCodec(api).encode(o) == Absent
  {
  }

  /** An enumeration cell created over a store written by an enumeration cell
      loads the written case back whenever `init(rawValue: e.rawValue) == e`. */
  lemma StringEnumReload<E(!new)>(rr: RawRepresentable<E, string>, e: E, fallback: E)
    requires rr.initRawValue(rr.rawValue(e)) == Some(e)
    ensures LoadedEnum(rr, AsString, StringEnumCodec(rr).encode(e), fallback) == e
  {
  }

  lemma IntEnumReload<E(!new)>(rr: RawRepresentable<E, int>, e: E, fallback: E)
    requires rr.initRawValue(rr.rawValue(e)) == Some(e)
    ensures LoadedEnum(rr, AsInt, IntEnumCodec(rr).encode(e), fallback) == e
  {
  }
}
