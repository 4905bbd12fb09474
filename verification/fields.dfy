/** Values read out of a request's JSON body, as the handlers see them. */
module Fields {

  /** Python's `None` or a present value. */
  datatype Option<+T> = None | Some(value: T)

  /** One key of a JSON object: missing, explicitly `null`, or given a value. */
  datatype Field<+T> = Absent | Null | Given(v: T)

  /** `data.get(key, default)`: the default when the key is missing, `None`
      for an explicit `null`, the value otherwise. */
  function Lookup<T>(f: Field<T>, default: Option<T>): Option<T> {
    match f
    case Absent => default
    case Null => None
    case Given(v) => Some(v)
  }
}
