/** Failure-carrying result types shared by every module of the model.

    Rust's `Option` and `Result` map onto these directly.  A Rust panic that
    depends on the text a program reads (an `unwrap` of a failed parse, a
    `panic!` on an unknown token) is modelled as the `None` / `Err` branch of
    the member that would panic, so that the error path is part of the model.
 */
module Wrappers {

  datatype Option<+T> = None | Some(value: T) {
    predicate IsFailure() { None? }

    function PropagateFailure<U>(): Option<U>
      requires None?
    {
      None
    }

    function Extract(): T
      requires Some?
    {
      value
    }
  }

  datatype Result<+T, +E> = Ok(value: T) | Err(error: E) {
    predicate IsFailure() { Err? }

    function PropagateFailure<U>(): Result<U, E>
      requires Err?
    {
      Err(error)
    }

    function Extract(): T
      requires Ok?
    {
      value
    }
  }

  /** The values of `rs` in order when every one is `Ok`, otherwise the
      error of the first `Err`: what `collect::<Result<Vec<_>, _>>()` and a
      loop that returns at its first error compute. */
  function Collect<T, E>(rs: seq<Result<T, E>>): (r: Result<seq<T>, E>)
    ensures r.Ok? <==> forall i :: 0 <= i < |rs| ==> rs[i].Ok?
    ensures r.Ok? ==> |r.value| == |rs| && forall i :: 0 <= i < |rs| ==> rs[i] == Ok(r.value[i])
  {
    if rs == [] then Ok([])
    else if rs[0].Err? then Err(rs[0].error)
    else
      var rest := Collect(rs[1..]);
      if rest.Err? then Err(rest.error) else Ok([rs[0].value] + rest.value)
  }

  /** Results that are all `Ok` collect to their values. */
  lemma CollectAllOk<T, E>(rs: seq<Result<T, E>>, xs: seq<T>)
    requires |rs| == |xs| && forall i :: 0 <= i < |rs| ==> rs[i] == Ok(xs[i])
    ensures Collect(rs) == Ok(xs)
  {
    var r := Collect(rs);
    assert r.Ok?;
    assert r.value == xs;
  }

  /** Four `Ok` results collect to their four values. */
  lemma CollectFour<T, E>(rs: seq<Result<T, E>>, xs: seq<T>)
    requires |rs| == 4 && |xs| == 4
    requires rs[0] == Ok(xs[0]) && rs[1] == Ok(xs[1]) && rs[2] == Ok(xs[2]) && rs[3] == Ok(xs[3])
    ensures Collect(rs) == Ok(xs)
  {
    forall i | 0 <= i < 4
      ensures rs[i] == Ok(xs[i])
    {
    }
    CollectAllOk(rs, xs);
  }

  /** One more `Ok` at the end adds its value. */
  lemma CollectSnoc<T, E>(rs: seq<Result<T, E>>, x: T)
    requires Collect(rs).Ok?
    ensures Collect(rs + [Ok(x)]) == Ok(Collect(rs).value + [x])
  {
    var all := rs + [Ok(x)];
    assert forall i :: 0 <= i < |all| ==> all[i].Ok?;
    var r := Collect(all);
    var expected := Collect(rs).value + [x];
    forall i | 0 <= i < |all| ensures r.value[i] == expected[i] {
      assert all[i] == Ok(r.value[i]);
      if i < |rs| {
        assert rs[i] == Ok(Collect(rs).value[i]);
      }
    }
    assert r.value == expected;
  }

  /** The first `Err`, after `Ok`s only, is the error of the whole. */
  lemma {:induction false} CollectFirstErr<T, E>(rs: seq<Result<T, E>>, k: nat)
    requires k < |rs| && rs[k].Err? && forall i :: 0 <= i < k ==> rs[i].Ok?
    ensures Collect(rs) == Err(rs[k].error)
    decreases k
  {
    if k > 0 {
      CollectFirstErr(rs[1..], k - 1);
    }
  }

  /** The loop form of `Collect`, when the result at `k` is an `Err`:
      the results before `k` all `Ok`, so that error is the result. */
  lemma CollectNextErr<T, E>(rs: seq<Result<T, E>>, k: nat)
    requires k < |rs| && Collect(rs[..k]).Ok? && rs[k].Err?
    ensures Collect(rs) == Err(rs[k].error)
  {
    CollectPrefixOk(rs, k);
    CollectFirstErr(rs, k);
  }

  /** The loop form of `Collect`, when the result at `k` is `Ok`: its
      value is added. */
  lemma CollectNextOk<T, E>(rs: seq<Result<T, E>>, k: nat)
    requires k < |rs| && Collect(rs[..k]).Ok? && rs[k].Ok?
    ensures Collect(rs[..k + 1]) == Ok(Collect(rs[..k]).value + [rs[k].value])
  {
    assert rs[..k + 1] == rs[..k] + [Ok(rs[k].value)];
    CollectSnoc(rs[..k], rs[k].value);
  }

  lemma CollectPrefixOk<T, E>(rs: seq<Result<T, E>>, k: nat)
    requires k <= |rs| && Collect(rs[..k]).Ok?
    ensures forall i :: 0 <= i < k ==> rs[i].Ok?
  {
    forall i | 0 <= i < k ensures rs[i].Ok? {
      assert rs[..k][i] == rs[i];
    }
  }

  /** Taking one more element of a sequence appends it. */
  lemma TakeSnoc<T>(s: seq<T>, k: nat)
    requires k < |s|
    ensures s[..k + 1] == s[..k] + [s[k]]
  {
  }

  lemma TakeAll<T>(s: seq<T>)
    ensures s[..|s|] == s
  {
  }
}
