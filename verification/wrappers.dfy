/** Small general-purpose helpers: the optional-value datatype used where a
    conversion may fail, and Python's `dict.get` with a default. */
module Wrappers {

  datatype Option<+T> = None | Some(value: T)

  /** `dict.get(key, default)`: the value stored under `key`, or `default` when
      there is none. */
  function Get<K, V>(m: map<K, V>, key: K, default: V): V {
    if key in m then m[key] else default
  }

}
