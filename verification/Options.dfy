// A value that may be absent: a nil slice or pointer, a map miss, a failed parse.
module Options {
  datatype Option<+T> = None | Some(value: T) {
    function GetOr(default: T): T { if Some? then value else default }
  }
}
