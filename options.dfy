/** The optional value used wherever the source reports "no result" (a missed ray,
    an object that is not hit) through a bool return next to out-parameters. */
module Options {

  datatype Option<+T> = None | Some(value: T)
}
