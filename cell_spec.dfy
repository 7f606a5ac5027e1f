/** The cell as a state machine over values: the store's entries together with
    the `RefStorage` fields `value` and `defaultValue`, changed by local writes
    (`wrappedValue = v`) and by writes to the store that reach the cell as
    change notifications (`observeValue`). The classes in Observation and
    PropertyWrapper are proved to follow `Step`. */
module CellSpec {
  import opened RawValues
  import opened KeyValueStores
  import opened Codecs

  /** What `observeValue` assigns for the change payload `change`:
      `change?[.newKey].flatMap(transform) ?? defaultValue`. A missing payload
      (`Absent`) never reaches `transform`; the store's notifications always
      carry one (`ChangeValue`). The previous value plays no part. */
  function Observed<V>(transform: Raw -> Option<V>, defaultValue: V, change: Raw): (v: V)
    ensures change.Absent? ==> v == defaultValue
    ensures !change.Absent? && transform(change).Some? ==> v == transform(change).value
    ensures transform(change).None? ==> v == defaultValue
  {
    if change.Absent? then defaultValue else transform(change).GetOr(defaultValue)
  }

  /** The fields of `RefStorage` that change or are read back. */
  datatype Cell<V> = Cell(value: V, defaultValue: V)

  /** The store's entries and one cell observing `key` in it. */
  datatype World<V> = World(entries: map<string, Raw>, cell: Cell<V>)

  datatype Event<V> =
      /** `wrappedValue = newValue`; `delivered` says whether the store's change
          notification reached the cell while the commit was under way. */
    | LocalWrite(newValue: V, delivered: bool)
      /** Some other writer sets `raw` under `writtenKey`. */
    | ExternalWrite(writtenKey: string, raw: Raw)

  /** The cell right after construction: `value` and `defaultValue` both hold
      what was loaded from the store. */
  function Initial<V>(entries: map<string, Raw>, loaded: V): (w: World<V>)
    ensures w.entries == entries
    ensures w.cell.value == w.cell.defaultValue == loaded
  {
    World(entries, Cell(loaded, loaded))
  }

  /** One event seen by the cell observing `key`. A local write commits the
      encoding to the store; then, when `delivered`, the notification of that
      commit reaches the cell; last, the cell is assigned the value written. An
      external write changes the store and notifies the cell only when it is to
      the cell's key. `defaultValue` never changes. The notified cell only
      passes on its `defaultValue`, so the result is the same whether or not
      the notification arrived; the order of commit and assignment in the
      imperative setter is proved by `Storage.SetWrappedValue`. */
  function Step<V>(c: Codec<V>, key: string, w: World<V>, e: Event<V>): (r: World<V>)
    ensures r.cell.defaultValue == w.cell.defaultValue
    ensures e.LocalWrite? ==> r.cell.value == e.newValue && r.entries == Put(w.entries, key, c.encode(e.newValue))
    ensures e.ExternalWrite? ==> r.entries == Put(w.entries, e.writtenKey, e.raw)
    ensures e.ExternalWrite? && e.writtenKey != key ==> r.cell == w.cell
    ensures e.ExternalWrite? && e.writtenKey == key ==>
              r.cell.value == Observed(c.transform, w.cell.defaultValue, ChangeValue(e.raw))
  {
    match e
    case LocalWrite(v, delivered) =>
      var committed := Put(w.entries, key, c.encode(v));
      var notified := if delivered then Cell(Observed(c.transform, w.cell.defaultValue, ChangeValue(c.encode(v))), w.cell.defaultValue)
                      else w.cell;
      World(committed, Cell(v, notified.defaultValue))
    case ExternalWrite(k, raw) =>
      var cell := if k == key then Cell(Observed(c.transform, w.cell.defaultValue, ChangeValue(raw)), w.cell.defaultValue)
                  else w.cell;
      World(Put(w.entries, k, raw), cell)
  }

  /** A history of events, oldest first. `defaultValue` is fixed at
      construction: no sequence of writes changes it. */
  function Run<V>(c: Codec<V>, key: string, w: World<V>, events: seq<Event<V>>): (r: World<V>)
    ensures r.cell.defaultValue == w.cell.defaultValue
    decreases |events|
  {
    if events == [] then w else Run(c, key, Step(c, key, w, events[0]), events[1..])
  }

  lemma {:induction false} RunAppend<V>(c: Codec<V>, key: string, w: World<V>, events: seq<Event<V>>, e: Event<V>)
    ensures Run(c, key, w, events + [e]) == Step(c, key, Run(c, key, w, events), e)
    decreases |events|
  {
    if events == [] {
      assert events + [e] == [e];
    } else {
      assert (events + [e])[1..] == events[1..] + [e];
      RunAppend(c, key, Step(c, key, w, events[0]), events[1..], e);
    }
  }

  /** Write-then-read: after any history ending in `wrappedValue = v`, the cell
      reads v and the store holds v's encoding under the cell's key, whether or
      not a notification arrived during the commit. */
  lemma LastLocalWriteWins<V>(c: Codec<V>, key: string, w: World<V>, events: seq<Event<V>>, v: V, delivered: bool)
    ensures Run(c, key, w, events + [LocalWrite(v, delivered)]).cell.value == v
    ensures Lookup(Run(c, key, w, events + [LocalWrite(v, delivered)]).entries, key) == c.encode(v)
  {
    RunAppend(c, key, w, events, LocalWrite(v, delivered));
  }

  /** External change: after any history ending in a write of `raw` under the
      cell's key, the cell holds the decoding of what the notification carries,
      or the construction-time default when that does not decode; never an
      earlier value. */
  lemma ExternalWriteDecides<V>(c: Codec<V>, key: string, w: World<V>, events: seq<Event<V>>, raw: Raw)
    ensures Run(c, key, w, events + [ExternalWrite(key, raw)]).cell.value
            == Observed(c.transform, w.cell.defaultValue, ChangeValue(raw))
  {
    RunAppend(c, key, w, events, ExternalWrite(key, raw));
  }

  /** A write under another key leaves the cell as it was. */
  lemma OtherKeysDoNotNotify<V>(c: Codec<V>, key: string, w: World<V>, k: string, raw: Raw)
    requires k != key
    ensures Step(c, key, w, ExternalWrite(k, raw)).cell == w.cell
    ensures Lookup(Step(c, key, w, ExternalWrite(k, raw)).entries, key) == Lookup(w.entries, key)
  {
  }

  /** The cell shows what a notification of the currently stored value would give. */
  ghost predicate Coherent<V>(c: Codec<V>, key: string, w: World<V>) {
    && Wellformed(w.entries)
    && w.cell.value == Observed(c.transform, w.cell.defaultValue, ChangeValue(Lookup(w.entries, key)))
  }

  /** A notification that repeats the stored value changes nothing exactly when
      the cell is coherent with the store. */
  lemma RedundantNotificationIsNoOp<V>(c: Codec<V>, key: string, w: World<V>)
    requires Wellformed(w.entries)
    ensures Step(c, key, w, ExternalWrite(key, Lookup(w.entries, key))) == w <==> Coherent(c, key, w)
  {
  }

  /** Every value the cell can hold survives a notification of its own encoding. */
  ghost predicate Faithful<V(!new)>(c: Codec<V>, defaultValue: V) {
    forall v :: Observed(c.transform, defaultValue, ChangeValue(c.encode(v))) == v
  }

  lemma RoundTripIsFaithful<V(!new)>(c: Codec<V>, defaultValue: V)
    requires RoundTrips(c)
    ensures Faithful(c, defaultValue)
  {
  }

  /** For a faithful codec every history keeps the cell coherent with the store. */
  lemma {:induction false} RunPreservesCoherence<V(!new)>(c: Codec<V>, key: string, w: World<V>, events: seq<Event<V>>)
    requires Faithful(c, w.cell.defaultValue)
    requires Coherent(c, key, w)
    ensures Coherent(c, key, Run(c, key, w, events))
    decreases |events|
  {
    if events != [] {
      var w' := Step(c, key, w, events[0]);
      match events[0] {
        case LocalWrite(v, _) =>
          assert Observed(c.transform, w.cell.defaultValue, ChangeValue(c.encode(v))) == v;
        case ExternalWrite(_, _) =>
      }
      assert Coherent(c, key, w');
      RunPreservesCoherence(c, key, w', events[1..]);
    }
  }

  /** A cell whose construction-time read is its own notification decoder
      starts coherent with the store, whatever the fallback, when a missing
      value and `NSNull` decode alike (true of every plain and optional cast). */
  lemma ConstructionIsCoherent<V>(c: Codec<V>, key: string, entries: map<string, Raw>, fallback: V)
    requires Wellformed(entries)
    requires c.transform(RNull) == c.transform(Absent)
    ensures Coherent(c, key, Initial(entries, Loaded(c.transform, Lookup(entries, key), fallback)))
  {
  }

  /** The optional form of a round-tripping codec is faithful whatever its
      default: a removal is reported as `NSNull`, which decodes to `nil`. */
  lemma OptionalCodecIsFaithful<T(!new)>(base: Codec<T>, defaultValue: Option<T>)
    requires RoundTrips(base)
    ensures Faithful(OptionalCodec(base), defaultValue)
  {
    var c := OptionalCodec(base);
    forall o ensures Observed(c.transform, defaultValue, ChangeValue(c.encode(o))) == o {
      OptionalRoundTrip(base, o);
    }
  }

  /** The same for the optional URL cell, given `URL(string: u.absoluteString) == u`. */
  lemma OptionalUrlCodecIsFaithful(api: UrlApi, defaultValue: Option<Url>)
    requires forall u :: api.parse(api.absoluteString(u)) == Some(u)
    ensures Faithful(OptionalUrlCodec(api), defaultValue)
  {
    var c := OptionalUrlCodec(api);
    forall o ensures Observed(c.transform, defaultValue, ChangeValue(c.encode(o))) == o {
      OptionalUrlRoundTrip(api, o);
    }
  }

  /** A non-optional URL cell commits the archived URL but decodes notifications
      as strings: a notification carrying what it wrote resets it to its default. */
  lemma UrlArchiveNotificationResets(api: UrlApi, defaultValue: Url, u: Url)
    ensures Observed(UrlCodec(api).transform, defaultValue, ChangeValue(UrlCodec(api).encode(u))) == defaultValue
    ensures u != defaultValue ==> !Faithful(UrlCodec(api), defaultValue)
  {
  }

  /** The optional URL cell's decoder never fails, so a write of anything but a
      parsable string, a removal included, clears the cell to `nil` instead of
      restoring the default. */
  lemma OptionalUrlMismatchClears(api: UrlApi, defaultValue: Option<Url>, raw: Raw)
    requires !raw.RString? || api.parse(raw.s).None?
    ensures Observed(OptionalUrlCodec(api).transform, defaultValue, ChangeValue(raw)) == None
  {
  }

  /** A String-backed enumeration cell whose plain cast does not recognise the
      raw value it commits returns to its default on a notification of its own
      write, so it is not faithful. */
  lemma StringEnumNotificationResets<E(!new)>(rr: RawRepresentable<E, string>, defaultValue: E, e: E)
    requires rr.cast(RString(rr.rawValue(e))).None?
    ensures Observed(StringEnumCodec(rr).transform, defaultValue, ChangeValue(StringEnumCodec(rr).encode(e))) == defaultValue
    ensures e != defaultValue ==> !Faithful(StringEnumCodec(rr), defaultValue)
  {
  }

  /** The same for an Int-backed enumeration cell. */
  lemma IntEnumNotificationResets<E(!new)>(rr: RawRepresentable<E, int>, defaultValue: E, e: E)
    requires rr.cast(RInt(rr.rawValue(e))).None?
    ensures Observed(IntEnumCodec(rr).transform, defaultValue, ChangeValue(IntEnumCodec(rr).encode(e))) == defaultValue
    ensures e != defaultValue ==> !Faithful(IntEnumCodec(rr), defaultValue)
  {
  }

  /** The optional URL cell need not start coherent: over the archived URL that a
      non-optional URL cell commits, `url(forKey:)` loads the URL, but a
      notification of that same value gives `nil`. */
  lemma OptionalUrlCanStartIncoherent(api: UrlApi, key: string, u: Url)
    requires api.urlForKey(RUrl(u)) == Some(u)
    ensures var entries := map[key := RUrl(u)];
            !Coherent(OptionalUrlCodec(api), key, Initial(entries, api.urlForKey(Lookup(entries, key))))
  {
  }

  /** Integer cell under "count" with default 0 over an empty store: it reads 0;
      after `wrappedValue = 5` it reads 5 and the store holds 5; after another
      writer stores the string "not-a-number", or removes the key, it reads 0
      again, not 5. */
  lemma CountScenario()
    ensures var w0 := Initial(map[], Loaded(IntCodec().transform, Lookup(map[], "count"), 0));
            && w0.cell.value == 0
            && Run(IntCodec(), "count", w0, [LocalWrite(5, true)]).cell.value == 5
            && Lookup(Run(IntCodec(), "count", w0, [LocalWrite(5, true)]).entries, "count") == RInt(5)
            && Run(IntCodec(), "count", w0, [LocalWrite(5, true), ExternalWrite("count", RString("not-a-number"))]).cell.value == 0
            && Run(IntCodec(), "count", w0, [LocalWrite(5, true), ExternalWrite("count", Absent)]).cell.value == 0
  {
  }

  /** An optional integer cell created while the store held 3 has the fallback 3.
      A removal of the key clears it to `nil`, since the `NSNull` that reports
      the removal casts to `nil`; a payload of another type restores 3, not `nil`. */
  lemma OptionalIntNotifications()
    ensures var c := OptionalCodec(IntCodec());
            var entries := map["n" := RInt(3)];
            var w0 := Initial(entries, Loaded(c.transform, Lookup(entries, "n"), None));
            && w0.cell.value == Some(3)
            && Run(c, "n", w0, [ExternalWrite("n", Absent)]).cell.value == None
            && Run(c, "n", w0, [ExternalWrite("n", RString("three"))]).cell.value == Some(3)
  {
  }
}
