/** Values shared by the fetcher and the presentation layer of the
    top-stories program: the story record, the error values of the
    network/decoding collaborators, and the outcome of an operation that
    either returns (Go's `(value, error)` pair) or aborts the process. */
module Types {

  /** Number of ranked slots the program fills and prints. */
  const NumStories: nat := 30

  datatype Option<+T> = None | Some(value: T)

  datatype Result<+T, +E> = Success(value: T) | Failure(error: E)

  /** Which collaborator failed: the HTTP GET, reading the body, or JSON decoding. */
  datatype Error = GetError | ReadError | DecodeError

  /** Why the process aborted. */
  datatype Panic =
    | ErrorPanic(err: Error)                     // `panic(err)` inside a fetch task
    | IndexOutOfRange(index: nat, length: nat)   // Go's bounds check on a slice write

  /** What a Go call ends with: a returned value together with its (possibly nil)
      error, or an abort of the whole process. */
  datatype Outcome<+T> = Returned(value: T, err: Option<Error>) | Panicked(cause: Panic)

  /** One item of the ranking API; `author` is the JSON field "by", `kids` the ids
      of its top-level comments. */
  datatype Story = Story(id: int, author: string, title: string, url: string,
                         score: int, time: int, kids: seq<int>)

  /** Go's zero value of the story struct: what an unfilled slot holds. */
  const ZeroStory: Story := Story(0, "", "", "", 0, 0, [])
}
