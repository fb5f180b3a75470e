/** A minimal optional-value datatype used where the exporter may or may not
    have something to hand over (the host's UserData string, a decoded row). */
module Wrappers {

  datatype Option<+T> = None | Some(value: T)
}
