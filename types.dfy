/** The client-side shapes of a user and a post. */
module Types {
  import opened Base

  /** The client's user record; `id` is copied from the backend's `_id`. */
  datatype User = User(id: Option<string>, name: string, email: string, bio: string, avatarUrl: string)

  /** A post's `timestamp` (an ISO date string) as the date parser sees it:
      empty, not a date (the parser yields NaN), or an instant in milliseconds. */
  datatype Stamp = Empty | Unparseable | Millis(ms: int)

  /** The client's post record; `author` is the denormalised author, if loaded. */
  datatype Post = Post(id: string, content: string, authorId: string, timestamp: Stamp, author: Option<User>)
}
