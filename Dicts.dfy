/** Python dictionaries with string keys whose values may be `None`. */
module Dicts {
  import opened Wrappers

  /** A key maps to `Some(v)` for a value or to `None` for Python's `None`. */
  type Dict<V> = map<string, Option<V>>

  /** `d.get(k)`: `None` when the key is missing, and also when it is present
      with the value `None`; Python cannot tell these two apart afterwards. */
  function Get<V>(d: Dict<V>, k: string): (r: Option<V>)
    ensures r.Some? <==> k in d && d[k].Some?
    ensures r.Some? ==> d[k] == r
  {
    if k in d then d[k] else None
  }
}
