/** The optional-value datatype shared by the model: `None` stands for a
    JavaScript `null`/`undefined` or for a number that did not parse (NaN). */
module Wrappers {

  datatype Option<+T> = None | Some(value: T)
}
