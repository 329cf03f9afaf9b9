/** An optional value: `None` stands for a Python `None`, a missing key or a
    raised exception, depending on where it is used. */
module Optional {

  datatype Option<+T> = None | Some(value: T) {

    /** The value, or `default` when there is none, as `d.get(key, default)`
        and `os.getenv(name, default)` give. */
    function GetOr(default: T): T {
      match this
      case Some(v) => v
      case None => default
    }
  }

  /** `d.get(key)` on a dictionary of strings. */
  function Get<K, V>(m: map<K, V>, key: K): Option<V> {
    if key in m then Some(m[key]) else None
  }

  /** `d.get(key, default)`. */
  function GetOrDefault<K, V>(m: map<K, V>, key: K, default: V): V {
    if key in m then m[key] else default
  }
}
