/** Results of the readers of printed text. */
module ProbeParse {

  /** What a reader makes of the front of a text, and the text after it. */
  datatype Parse<T> = Fail | Done(value: T, rest: string)

  function Prepend(c: char, p: Parse<string>): Parse<string> {
    match p
    case Fail => Fail
    case Done(s, rest) => Done([c] + s, rest)
  }
}
