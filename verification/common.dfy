/** Values shared by every part of the lost-and-found model. */
module Common {

  /** A JavaScript value that may be `null` or `undefined`. */
  datatype Option<+T> = None | Some(value: T)

  /** The outcome of a step that may throw or reject. */
  datatype Result<+T, +E> = Success(value: T) | Failure(error: E)

  /** A `File` taken from an `<input type="file">`: its `name` and its MIME `type`. */
  datatype FileRef = FileRef(name: string, mimeType: string)

  /** The name shown for a picked file: `f ? f.name : ""`. */
  function FileNameOf(f: Option<FileRef>): string
  {
    match f
    case Some(file) => file.name
    case None => ""
  }

  /** JavaScript truthiness of a string that may be missing: `null`, `undefined` and `""` are falsy. */
  predicate Truthy(s: Option<string>)
  {
    s.Some? && s.value != ""
  }
}
