/** The `text` argument every `msg` hook receives. */
module Messages {
  /** A plain string, or a tuple whose first element is the text and the rest are options. */
  datatype MsgText = Plain(s: string) | Tuple(items: seq<string>)
}
