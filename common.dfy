/** Value types shared by the chat page and the chat proxy. */
module Common {

  /** An optional value; `None` stands for JavaScript's `undefined`/`null`. */
  datatype Option<+T> = None | Some(value: T)

  /** The `role` field of a chat message. The page only ever creates `User` and
      `Assistant` messages; the proxy adds the `System` prompt. */
  datatype Role = System | User | Assistant

  /** One `{ role, content }` entry of the `messages` array sent upstream. */
  datatype ApiMessage = ApiMessage(role: Role, content: string)
}
