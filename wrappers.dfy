/** The usual optional value: `None` stands for a step of the pipeline that
    raises and ends the run. */
module Wrappers {
  datatype Option<+T> = None | Some(value: T)
}
