/** The conventional Some/None datatype, used for Python's `None` and for absent JSON keys. */
module Wrappers {

  datatype Option<+T> = None | Some(value: T) {

    /** The value, or `default` when there is none (Python's `d.get(key, default)`). */
    function GetOr(default: T): T {
      match this
      case Some(v) => v
      case None => default
    }
  }

  /** The smaller of two integers. */
  function Min(a: int, b: int): int {
    if a <= b then a else b
  }

  /** The values of the present entries, in order: a Python filter `if item`
      over a list whose falsy entries are None. */
  function Present<T>(list: seq<Option<T>>): seq<T>
    decreases |list|
  {
    if list == [] then []
    else (if list[0].Some? then [list[0].value] else []) + Present(list[1..])
  }

  /** Filtering keeps the order of the entries: filtering a concatenation
      filters each part in turn. */
  lemma {:induction false} PresentAppend<T>(a: seq<Option<T>>, b: seq<Option<T>>)
    ensures Present(a + b) == Present(a) + Present(b)
    decreases |a|
  {
    if a == [] {
      assert a + b == b;
    } else {
      assert (a + b)[0] == a[0];
      assert (a + b)[1..] == a[1..] + b;
      PresentAppend(a[1..], b);
    }
  }

  /** Filtering one more entry adds its value, if any, at the end. */
  lemma PresentStep<T>(list: seq<Option<T>>, i: nat)
    requires i < |list|
    ensures Present(list[..i + 1]) == Present(list[..i]) + (if list[i].Some? then [list[i].value] else [])
  {
    assert list[..i + 1] == list[..i] + [list[i]];
    PresentAppend(list[..i], [list[i]]);
  }

  /** The items are exactly the values of the present entries, and there are
      no more of them than entries. */
  lemma {:induction false} PresentSpec<T>(list: seq<Option<T>>)
    ensures |Present(list)| <= |list|
    ensures forall x :: x in Present(list) <==> Some(x) in list
    decreases |list|
  {
    if list != [] {
      PresentSpec(list[1..]);
      assert list == [list[0]] + list[1..];
    }
  }
}
