/// Definitions shared by every module: optional values, instants and durations.

module Common {

  datatype Option<+T> = None | Some(value: T)

  /// Instants and durations are whole nanoseconds; an instant counts from the Unix epoch.
  type Time = int

  /// The instant of Go's zero `time.Time`, which the source uses for "never".
  const ZERO_TIME: Time := -62_135_596_800_000_000_000

  const SECOND := 1_000_000_000
  const MINUTE := 60 * SECOND

  /// What Go's map read yields: the stored value, or the zero value of the element type.
  function Read<K, V>(m: map<K, V>, k: K, zero: V): V {
    if k in m then m[k] else zero
  }

  predicate NoDuplicates<T(==)>(s: seq<T>) {
    forall i, j :: 0 <= i < j < |s| ==> s[i] != s[j]
  }
}
