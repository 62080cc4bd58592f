/** The process environment, as the generator reads it. */
module Environment {
  import opened Wrappers

  /** Variable names and their string values. */
  type Env = map<string, string>

  /** `e[name]`: the value, or `undefined` when the variable is not set. */
  function Lookup(e: Env, name: string): (v: Option<string>)
    ensures v.Some? <==> name in e
    ensures v.Some? ==> v.value == e[name]
  {
    if name in e then Some(e[name]) else None
  }

  /** A JavaScript condition on the looked-up value: set and non-empty. */
  predicate IsSet(e: Env, name: string)
  {
    Lookup(e, name).Some? && Lookup(e, name).value != ""
  }
}
