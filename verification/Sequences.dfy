/** Small facts about sequences and numbers used by several components. */
module Sequences {
  function Bit(b: bool): nat {
    if b then 1 else 0
  }

  /** The first `n` elements, or all if there are fewer. */
  function Take<T>(s: seq<T>, n: nat): seq<T> {
    if n < |s| then s[..n] else s
  }

  lemma TakeFront<T>(front: seq<T>, rest: seq<T>, n: nat)
    requires |front| <= n && (rest == [] || |front| == n)
    ensures Take(front + rest, n) == front
  {
  }

  function Flat<T>(pieces: seq<seq<T>>): seq<T> {
    if pieces == [] then [] else Flat(pieces[..|pieces| - 1]) + pieces[|pieces| - 1]
  }

  lemma FlatAppend<T>(pieces: seq<seq<T>>, piece: seq<T>)
    ensures Flat(pieces + [piece]) == Flat(pieces) + piece
  {
  }

  /** A number outside a finite set. */
  lemma FreshNumber(used: set<nat>) returns (n: nat)
    ensures n !in used
  {
    var rest := used;
    n := 0;
    while rest != {}
      invariant forall b | b in used :: b in rest || b < n
      decreases rest
    {
      var b :| b in rest;
      rest := rest - {b};
      n := if b < n then n else b + 1;
    }
  }
}
