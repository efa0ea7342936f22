/** Small notions about lists and numbers that several parts share. */
module Sequences {

  predicate Distinct<T(==)>(items: seq<T>) {
    forall i, j :: 0 <= i < j < |items| ==> items[i] != items[j]
  }

  ghost predicate Rising(numbers: seq<nat>) {
    forall i, j :: 0 <= i < j < |numbers| ==> numbers[i] < numbers[j]
  }

  function Max(a: nat, b: nat): nat {
    if a > b then a else b
  }
}
