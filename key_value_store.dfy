/** The store a cell works over. `Storage` and `RefStorage` take a
    `UserDefaults` instance; `MemoryStore` stands for one, as an in-memory map.
    Its `ValueForKey` and `Set` are the two methods of the `KeyValueStore`
    protocol, which `UserDefaults` conforms to. */
module KeyValueStores {
  import opened RawValues

  /** `value(forKey:)` on a map of entries: a missing key reads as `Absent`. */
  function Lookup(entries: map<string, Raw>, key: string): (r: Raw)
    ensures key !in entries ==> r.Absent?
    ensures key in entries ==> r == entries[key]
  {
    if key in entries then entries[key] else Absent
  }

  /** `set(_:forKey:)` on a map of entries: storing `nil` (`Absent`) removes the key. */
  function Put(entries: map<string, Raw>, key: string, raw: Raw): (r: map<string, Raw>)
    ensures Lookup(r, key) == raw
    ensures forall k :: k != key ==> Lookup(r, k) == Lookup(entries, k)
    ensures r.Keys == if raw.Absent? then entries.Keys - {key} else entries.Keys + {key}
    ensures Wellformed(entries) ==> Wellformed(r)
  {
    if raw.Absent? then entries - {key} else entries[key := raw]
  }

  /** The `.newKey` entry of the change notification that key-value observation
      (registered with `options: .new`) sends after `set(raw, forKey:)`: the
      value stored, or `NSNull` when the key was removed. */
  function ChangeValue(raw: Raw): (p: Raw)
    ensures !p.Absent?
    ensures p.RNull? <==> raw.Absent? || raw.RNull?
    ensures !raw.Absent? ==> p == raw
  {
    if raw.Absent? then RNull else raw
  }

  /** No key is bound to `Absent`: a store holds only real values. */
  ghost predicate Wellformed(entries: map<string, Raw>) {
    forall k :: k in entries ==> !entries[k].Absent?
  }

  /** Writing back what a key already holds leaves the entries as they were. */
  lemma PutLookupIsIdentity(entries: map<string, Raw>, key: string)
    requires Wellformed(entries)
    ensures Put(entries, key, Lookup(entries, key)) == entries
  {
  }

  /** An in-memory key-value store. */
  class MemoryStore {
    var entries: map<string, Raw>

    ghost predicate Valid()
      reads this
    {
      Wellformed(entries)
    }

    constructor (initial: map<string, Raw>)
      requires Wellformed(initial)
      ensures Valid() && entries == initial
    {
      entries := initial;
    }

    /** `value(forKey:)`: what `Lookup` answers on the current entries. */
    function ValueForKey(key: string): (r: Raw)
      reads this
      ensures r == Lookup(entries, key)
    {
      Lookup(entries, key)
    }

    /** `set(_:forKey:)` */
    method Set(raw: Raw, key: string)
      requires Valid()
      modifies this
      ensures Valid() && entries == Put(old(entries), key, raw)
    {
      entries := Put(entries, key, raw);
    }
  }
}
