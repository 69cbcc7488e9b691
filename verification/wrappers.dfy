/** The optional-value datatype used for absent ECS components and absent resources. */
module Wrappers {

  datatype Option<+T> = None | Some(value: T)
}
