/** What several parts of the model use. */
module Common {

  datatype Option<+T> = None | Some(value: T)

  function Concat<T>(pieces: seq<seq<T>>): seq<T> {
    if pieces == [] then [] else pieces[0] + Concat(pieces[1..])
  }
}
