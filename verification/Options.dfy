/** An optional value. */
module Options {
  datatype Option<+T> = None | Some(value: T)
  {
    function GetOr(d: T): T { if Some? then value else d }
  }
}
