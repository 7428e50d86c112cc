/** `Option`, for values that may be absent, and `Lookup`, which is
    Python's `dict.get` with a default. */
module Wrappers {

  /** A value that may be absent (Python's `None`). */
  datatype Option<+T> = None | Some(value: T)

  /** `d.get(key, default)` on a Python dict. */
  function Lookup<K, V>(m: map<K, V>, key: K, default: V): V
  {
    if key in m then m[key] else default
  }
}
