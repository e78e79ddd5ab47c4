/** Optional values, results with an error, and the facts about sequences that every module needs. */
module Wrappers {

  datatype Option<+T> = None | Some(value: T) {
    predicate IsFailure() {
      None?
    }

    function PropagateFailure<U>(): Option<U>
      requires None?
    {
      None
    }

    function Extract(): T
      requires Some?
    {
      value
    }
  }

  datatype Result<+T, +E> = Ok(value: T) | Err(error: E) {
    predicate IsFailure() {
      Err?
    }

    function PropagateFailure<U>(): Result<U, E>
      requires Err?
    {
      Err(error)
    }

    function Extract(): T
      requires Ok?
    {
      value
    }
  }

  /** A byte of a Go string, buffer or key. */
  type Byte = b: int | 0 <= b < 256
  type Bytes = seq<Byte>

  lemma AppendAssoc<T>(a: seq<T>, b: seq<T>, c: seq<T>)
    ensures a + b + c == a + (b + c)
  {
  }

  /** The results of `f` in order, or its first error. */
  function Collect<A, B, E>(f: A -> Result<B, E>, xs: seq<A>): Result<seq<B>, E> {
    if xs == [] then Ok([]) else
    var before :- Collect(f, xs[..|xs| - 1]);
    var last :- f(xs[|xs| - 1]);
    Ok(before + [last])
  }

  lemma CollectNext<A, B, E>(f: A -> Result<B, E>, xs: seq<A>, i: nat)
    requires i < |xs| && Collect(f, xs[..i]).Ok?
    ensures Collect(f, xs[..i + 1]) == if f(xs[i]).Err? then Err(f(xs[i]).error) else
      Ok(Collect(f, xs[..i]).value + [f(xs[i]).value])
  {
    assert xs[..i + 1][..i] == xs[..i];
  }

  lemma {:induction false} CollectFails<A, B, E>(f: A -> Result<B, E>, xs: seq<A>, n: nat)
    requires n <= |xs| && Collect(f, xs[..n]).Err?
    ensures Collect(f, xs) == Collect(f, xs[..n])
  {
    if n == |xs| {
      assert xs[..n] == xs;
    } else {
      assert xs[..|xs| - 1][..n] == xs[..n];
      CollectFails(f, xs[..|xs| - 1], n);
    }
  }

  /** Everything is collected exactly when nothing fails, one result per element. */
  lemma {:induction false} CollectExactly<A, B, E>(f: A -> Result<B, E>, xs: seq<A>, ys: seq<B>)
    ensures Collect(f, xs) == Ok(ys) <==>
      |ys| == |xs| && forall i :: 0 <= i < |xs| ==> f(xs[i]) == Ok(ys[i])
  {
    if xs != [] {
      var n := |xs| - 1;
      if |ys| == |xs| {
        CollectExactly(f, xs[..n], ys[..n]);
        assert ys == ys[..n] + [ys[n]];
      }
      if Collect(f, xs) == Ok(ys) {
        var before := Collect(f, xs[..n]).value;
        CollectExactly(f, xs[..n], before);
        assert ys[..n] == before;
      }
    }
  }
}
