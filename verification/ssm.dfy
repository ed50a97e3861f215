/** The slice of the SSM Parameter Store both scripts use: named parameters
    with a value, a type and a last-modified time (integer seconds). */
module Ssm {
  import opened Wrappers

  datatype ParamType = String | StringList | SecureString

  datatype Parameter = Parameter(value: string, kind: ParamType, lastModified: int)

  type ParamStore = map<string, Parameter>

  /** `get_parameter(Name=name)`: the stored parameter, or `None` where the
      service raises `ParameterNotFound`. */
  function GetParameter(store: ParamStore, name: string): (r: Option<Parameter>)
    ensures r.Some? <==> name in store
    ensures r.Some? ==> store[name] == r.value
  {
    if name in store then Some(store[name]) else None
  }

  /** `put_parameter(Name=name, Value=value, Type=kind, Overwrite=True)` at
      time `now`: the named parameter is created or replaced. */
  function PutParameter(store: ParamStore, name: string, value: string, kind: ParamType, now: int): (r: ParamStore)
    ensures name in r && r[name] == Parameter(value, kind, now)
    ensures forall k :: k != name ==> (k in r <==> k in store)
    ensures forall k :: k in store && k != name ==> r[k] == store[k]
  {
    store[name := Parameter(value, kind, now)]
  }
}
