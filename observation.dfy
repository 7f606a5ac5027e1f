/** `RefStorage`: the reference cell that holds the current value of one key
    and is registered with the store as a change observer. */
module Observation {
  import opened RawValues
  import opened KeyValueStores
  import opened CellSpec

  class RefStorage<V> {
    var value: V
    const defaultValue: V
    const store: MemoryStore
    const key: string
    const transform: Raw -> Option<V>
    /** Registered with `store` as an observer of `key` (`addObserver` in
        `init`, `removeObserver` in `deinit`). */
    var observing: bool

    /** The value-level view of the cell, as used by CellSpec. */
    ghost function State(): (c: Cell<V>)
      reads this
      ensures c.value == value && c.defaultValue == defaultValue
    {
      Cell(value, defaultValue)
    }

    /** `init(value:store:key:transform:)`: the value handed in becomes both the
        current value and the fixed fallback, and the cell starts observing. */
    constructor (value: V, store: MemoryStore, key: string, transform: Raw -> Option<V>)
      ensures this.value == value && defaultValue == value
      ensures this.store == store && this.key == key && this.transform == transform
      ensures observing
    {
      this.value := value;
      this.defaultValue := value;
      this.store := store;
      this.key := key;
      this.transform := transform;
      observing := true;
    }

    /** `observeValue(forKeyPath:of:change:context:)` with new value `change`:
        the current value is replaced by the decoded payload, or by the
        fallback when the payload is missing or does not decode. */
    method ObserveValue(change: Raw)
      requires observing
      modifies this
      ensures observing
      ensures value == Observed(transform, defaultValue, change)
    {
      var decoded := if change.Absent? then None else transform(change);
      value := decoded.GetOr(defaultValue);
    }

    /** `deinit`: `removeObserver`, after which no notification reaches the cell. */
    method Deinit()
      requires observing
      modifies this
      ensures !observing && value == old(value)
    {
      observing := false;
    }
  }
}
