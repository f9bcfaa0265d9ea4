/** Records shared by the services and the pages (types.ts). */
module Types {

  /** A value that may be missing: JavaScript's `undefined`/`null`, or an empty query result. */
  datatype Option<T> = None | Some(value: T)

  /** A row of the `poems` table, and the record the pages pass around. */
  datatype Poem = Poem(
    id: string,
    title: string,
    content: string,
    author: string,
    category: string,
    likes: int,
    date: string)
}
