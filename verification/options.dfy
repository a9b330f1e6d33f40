/** Rust's `Option` and `Result`, and sequences gathered item by item. */
module Options {
  datatype Option<+T> = None | Some(value: T)

  datatype Result<+T, +E> = Ok(value: T) | Err(error: E) {
    predicate IsFailure() { Err? }

    function PropagateFailure<U>(): Result<U, E>
      requires Err?
    {
      Err(error)
    }

    function Extract(): T
      requires Ok?
    {
      value
    }
  }
}

module ByteStrings {
  newtype byte = x: int | 0 <= x < 256

  type Bytes = seq<byte>
}

/** Lists grown by a loop that appends zero or more results for each item. */
module Gathering {
  function Gather<T, R>(items: seq<T>, part: T -> seq<R>): (all: seq<R>)
  {
    if items == [] then []
    else Gather(items[..|items| - 1], part) + part(items[|items| - 1])
  }

  lemma GatherLast<T, R>(items: seq<T>, item: T, part: T -> seq<R>)
    ensures Gather(items + [item], part) == Gather(items, part) + part(item)
  {
    assert (items + [item])[..|items|] == items;
  }

  lemma GatherStep<T, R>(items: seq<T>, i: nat, part: T -> seq<R>)
    requires i < |items|
    ensures Gather(items[..i + 1], part) == Gather(items[..i], part) + part(items[i])
  {
    assert items[..i + 1][..i] == items[..i];
  }

  lemma GatherNone<T, R>(items: seq<T>, part: T -> seq<R>)
    ensures Gather(items[..0], part) == []
  {
  }

  lemma {:induction false} GatherConcat<T, R>(left: seq<T>, right: seq<T>, part: T -> seq<R>)
    ensures Gather(left + right, part) == Gather(left, part) + Gather(right, part)
  {
    if right == [] {
      assert left + right == left;
    } else {
      var n := |right| - 1;
      assert (left + right)[..|left| + n] == left + right[..n];
      GatherConcat(left, right[..n], part);
    }
  }

  lemma GatherFirst<T, R>(items: seq<T>, part: T -> seq<R>)
    requires items != []
    ensures Gather(items, part) == part(items[0]) + Gather(items[1..], part)
  {
    GatherConcat([items[0]], items[1..], part);
    assert [items[0]] + items[1..] == items;
    assert [items[0]][..0] == [];
    assert Gather([items[0]], part) == Gather([items[0]][..0], part) + part(items[0]);
  }

  // Gathering what was gathered is gathering once.
  lemma {:induction false} GatherNested<T, M, R>(items: seq<T>, inner: T -> seq<M>, outer: M -> seq<R>,
                                                 both: T -> seq<R>)
    requires forall item <- items :: both(item) == Gather(inner(item), outer)
    ensures Gather(Gather(items, inner), outer) == Gather(items, both)
  {
    if items != [] {
      var n := |items| - 1;
      GatherNested(items[..n], inner, outer, both);
      GatherConcat(Gather(items[..n], inner), inner(items[n]), outer);
    }
  }

  lemma {:induction false} GatherEmpty<T, R>(items: seq<T>, part: T -> seq<R>)
    ensures Gather(items, part) == [] <==> forall item <- items :: part(item) == []
  {
    if items != [] {
      var n := |items| - 1;
      GatherEmpty(items[..n], part);
      assert items == items[..n] + [items[n]];
    }
  }

  lemma {:induction false} GatherMember<T, R>(items: seq<T>, part: T -> seq<R>, r: R)
    ensures r in Gather(items, part) <==> exists item <- items :: r in part(item)
  {
    if items != [] {
      var n := |items| - 1;
      GatherMember(items[..n], part, r);
      assert items == items[..n] + [items[n]];
    }
  }

  lemma {:induction false} GatherAll<T, R>(items: seq<T>, part: T -> seq<R>, p: R -> bool)
    requires forall item <- items, r <- part(item) :: p(r)
    ensures forall r <- Gather(items, part) :: p(r)
  {
    forall r | r in Gather(items, part)
      ensures p(r)
    {
      GatherMember(items, part, r);
    }
  }
}
