/** Option type used for the optional values of the UIKit side (nil-able views, data source). */
module Wrappers {

  datatype Option<+T> = None | Some(value: T)
}
