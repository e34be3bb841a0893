/** Results of calls into the proxy host. Every host call of the filter can fail;
    the filter never inspects the failure beyond noticing it. */
module Wrappers {

  /** The outcome of one host call: a value, or a failure status. */
  datatype HostResult<+T> = Ok(value: T) | Failed {

    /** The value on success; on failure the Go zero value `zero`, which is what
        the filter goes on with after ignoring the error. */
    function GetOr(zero: T): T {
      match this
      case Ok(v) => v
      case Failed => zero
    }
  }
}
