/** Datatypes and sequence functions shared by all components. */
module Common {
  datatype Option<+T> = None | Some(value: T)

  predicate NoDuplicates<T(==)>(v: seq<T>) {
    forall i, j :: 0 <= i < j < |v| ==> v[i] != v[j]
  }

  function Reversed<T>(v: seq<T>): (r: seq<T>)
    ensures |r| == |v|
    ensures forall i :: 0 <= i < |v| ==> r[i] == v[|v| - 1 - i]
  {
    if v == [] then [] else Reversed(v[1..]) + [v[0]]
  }
}
