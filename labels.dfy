/** Shared value types: an optional value (Python's `None` or a value) and a
    label mapping whose values may be `None`. */
module LabelTypes {

  datatype Option<+T> = None | Some(value: T) {
    /** The value, or `default` when there is none (Python's `d.get(k, default)`). */
    function GetOr(default: T): T {
      match this
      case Some(v) => v
      case None => default
    }
  }

  /** A label mapping as the labeller handles it: keys are strings, values are
      strings or `None` (derived network/subnet/status labels may be `None`). */
  type LabelMap = map<string, Option<string>>
}
