/** The optional value and the one sequence identity used across the model. */
module Wrappers {
  datatype Option<+T> = None | Some(value: T) {
    function GetOr(default: T): T {
      if Some? then value else default
    }
  }

  lemma {:induction false} HeadMoves<T>(before: seq<T>, rest: seq<T>)
    requires rest != []
    ensures before + [rest[0]] + rest[1..] == before + rest
  {
  }
}
