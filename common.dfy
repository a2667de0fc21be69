/** Types shared by every part of the document pipeline: bytes, optional
    values, and the HTTP error that a request handler reports. */
module Common {

  /** One octet of a binary payload (an image or a rendered PDF). */
  type Byte = x: int | 0 <= x < 256

  type Bytes = seq<Byte>

  datatype Option<+T> = None | Some(value: T)

  /** The error a route reports to its client: FastAPI's
      `HTTPException(status_code, detail)`. */
  datatype HttpError = HttpError(status: int, detail: string)

  /** A handler outcome: a value, or the HTTP error it raised. */
  datatype Result<+T> = Ok(value: T) | Err(error: HttpError)

  /** The response FastAPI sends for an exception no handler code catches. */
  const InternalServerError: HttpError := HttpError(500, "Internal Server Error")

  /** `s.startswith(prefix)`. */
  predicate StartsWith(s: string, prefix: string)
  {
    |prefix| <= |s| && s[..|prefix|] == prefix
  }

  /** Putting the same text in front of a string and of its prefix keeps it a prefix. */
  lemma StartsWithPrepend(head: string, s: string, prefix: string)
    requires |prefix| <= |s| && s[..|prefix|] == prefix
    ensures StartsWith(head + s, head + prefix)
  {
    assert (head + s)[..|head + prefix|] == head + s[..|prefix|];
  }

  /** Python's truthiness for an optional string: present and non-empty. */
  predicate Truthy(s: Option<string>)
  {
    s.Some? && s.value != ""
  }
}
