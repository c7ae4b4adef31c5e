/** Concatenation of a sequence of sequences, the shape shared by merging
    the pages of several documents and joining several audio segments. */
module Concat {

  /** All parts, one after the other, in order. */
  function Flatten<T>(parts: seq<seq<T>>): seq<T>
  {
    if parts == [] then []
    else Flatten(parts[..|parts| - 1]) + parts[|parts| - 1]
  }

  /** The sum of the lengths of the parts. */
  function TotalLength<T>(parts: seq<seq<T>>): nat
  {
    if parts == [] then 0
    else TotalLength(parts[..|parts| - 1]) + |parts[|parts| - 1]|
  }

  /** Nothing is lost or added: the result is exactly as long as the parts together. */
  lemma {:induction false} FlattenLength<T>(parts: seq<seq<T>>)
    ensures |Flatten(parts)| == TotalLength(parts)
  {
    if parts != [] {
      FlattenLength(parts[..|parts| - 1]);
    }
  }

  /** The concatenation of a prefix of the parts is a prefix of the whole. */
  lemma {:induction false} FlattenPrefix<T>(parts: seq<seq<T>>, i: nat)
    requires i <= |parts|
    ensures Flatten(parts[..i]) <= Flatten(parts)
  {
    if i < |parts| {
      var n := |parts| - 1;
      assert parts[..n][..i] == parts[..i];
      FlattenPrefix(parts[..n], i);
    } else {
      assert parts[..i] == parts;
    }
  }

  /** Element `j` of part `i` sits right after everything the parts before
      `i` contribute: order is kept both across and within parts. */
  lemma {:induction false} FlattenAt<T>(parts: seq<seq<T>>, i: nat, j: nat)
    requires i < |parts| && j < |parts[i]|
    ensures |Flatten(parts[..i])| + j < |Flatten(parts)|
    ensures Flatten(parts)[|Flatten(parts[..i])| + j] == parts[i][j]
  {
    var n := |parts| - 1;
    if i < n {
      assert parts[..n][..i] == parts[..i];
      FlattenAt(parts[..n], i, j);
    } else {
      assert parts[..n] == parts[..i];
    }
  }
}
