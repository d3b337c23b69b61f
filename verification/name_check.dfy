/** Argument checks applied to node names and required configuration values
    (`checkNameFormat`, `checkRequired`). Go panics on a failed check; here
    the failure is a returned error. */
module NameCheck {
  import opened Wrappers

  datatype CheckError = InvalidName(name: string) | Missing(message: string)

  /** `checkNameFormat`: a name must be non-empty and free of '/'; it is
      returned unchanged when it is. */
  function CheckNameFormat(name: string): (r: Result<string, CheckError>)
    ensures r.Ok? <==> name != "" && '/' !in name
    ensures r.Ok? ==> r.value == name
    ensures r.Err? ==> r.error == InvalidName(name)
  {
    if name == "" || '/' in name then Err(InvalidName(name)) else Ok(name)
  }

  /** The check `checkNameFormat` evidently intends: besides '/', a node name
      must not contain the MQTT wildcard characters '+' and '#', since it is
      spliced into subscription filters as a whole level. */
  function CheckNameFormatStrict(name: string): (r: Result<string, CheckError>)
    ensures r.Ok? <==> name != "" && '/' !in name && '+' !in name && '#' !in name
    ensures r.Ok? ==> r.value == name
    ensures r.Ok? ==> CheckNameFormat(name) == r
  {
    if name == "" || '/' in name || '+' in name || '#' in name then Err(InvalidName(name)) else Ok(name)
  }

  /** The dynamic type of the `interface{}` argument of `checkRequired`. */
  datatype Value = Str(s: string) | StrList(items: seq<string>) | Nil | OtherValue

  /** `checkRequired`: fails on the empty string, on an empty string list,
      and on nil; every other value passes. */
  function CheckRequired(value: Value, message: string): (r: Outcome<CheckError>)
    ensures r.Fail? <==> value == Str("") || value == StrList([]) || value == Nil
    ensures r.Fail? ==> r.error == Missing(message)
  {
    match value
    case Str(s) => if s == "" then Fail(Missing(message)) else Pass
    case StrList(items) => if |items| == 0 then Fail(Missing(message)) else Pass
    case Nil => Fail(Missing(message))
    case OtherValue => Pass
  }
}
