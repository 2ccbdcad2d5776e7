/** Option and the uniform result shape every server action returns:
    `{ success: true, data }` or `{ success: false, error }`. */
module Wrappers {

  datatype Option<+T> = None | Some(value: T)

  datatype Result<+T> = Success(data: T) | Failure(error: string)
}
