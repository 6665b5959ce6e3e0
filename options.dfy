/** The optional value returned by the storefront's searches (`Array.prototype.find`). */
module Options {

  datatype Option<T> = None | Some(value: T)
}
