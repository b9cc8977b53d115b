/** What a controller answers and what the upload middleware hands it. */
module Http {
  import opened Wrappers

  /** A JSON response: a success status with its `data`, or an error status
      with the text the controller puts in its `error` or `message` key. */
  datatype Reply<T> = Ok(status: nat, data: T) | Err(status: nat, message: string)

  /** A `findById` answered as the controllers answer it: the stored document
      with 200, or 404 with the controller's own message. */
  function FoundById<T>(m: map<nat, T>, id: nat, notFound: string): (r: Reply<T>)
    ensures r.Ok? <==> id in m
    ensures r.Ok? ==> r == Ok(200, m[id])
    ensures r.Err? ==> r == Err(404, notFound)
  {
    if id in m then Ok(200, m[id]) else Err(404, notFound)
  }

  /** One file stored by the upload middleware (`req.file` or an entry of
      `req.files[field]`): the storage URL, the storage public id, the MIME
      type and the name on the client. */
  datatype UploadedFile = UploadedFile(path: string, filename: string, mimetype: string, originalname: string)

  /** The message of the TypeError thrown by calling a method on `undefined`. */
  function UndefinedMethodError(name: string): string {
    "Cannot read properties of undefined (reading '" + name + "')"
  }

  /** A request parameter that is present and not the empty string. */
  predicate Given(v: Option<string>) {
    v.Some? && v.value != []
  }

  /** A destructured body field: absent when the body does not name it. */
  function BodyField(body: map<string, string>, key: string): (r: Option<string>)
    ensures r.Some? <==> key in body
    ensures r.Some? ==> r.value == body[key]
  {
    if key in body then Some(body[key]) else None
  }
}
