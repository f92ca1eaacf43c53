/** Facts about sequences of anything. */
module Sequences {
  lemma Associates<T>(s: seq<T>, t: seq<T>, u: seq<T>)
    ensures s + (t + u) == s + t + u
  {
  }

  /** The head t of a rest moves to the front s. */
  lemma Shifts<T>(s: seq<T>, t: seq<T>, u: seq<T>, rest: seq<T>, all: seq<T>)
    requires rest == t + u && s + rest == all
    ensures s + t + u == all
  {
    Associates(s, t, u);
  }
}
