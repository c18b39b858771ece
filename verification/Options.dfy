/** The option type shared by the modules of this project. */
module Options {
  datatype Option<+T> = None | Some(value: T) {
    /** The value, or `default` when there is none (the `??` operator of the source). */
    function OrElse(default: T): T {
      if Some? then value else default
    }
  }
}
