/** Values shared by the components of the page. */
module Common {

  /** JavaScript's `T | null`: `None` stands for `null`. */
  datatype Option<+T> = None | Some(value: T)

  /** A file picked in the browser: its name, its declared MIME type
      (`File.type`) and its size in bytes. */
  datatype File = File(name: string, mimeType: string, size: nat)

  /** JavaScript truthiness of an optional string: `null` and `""` are falsy. */
  predicate Truthy(s: Option<string>)
  {
    s.Some? && s.value != ""
  }
}
