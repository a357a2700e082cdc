/** Failure-compatible wrappers shared by every module of the model:
    `Option` for Python's `None`-able values and `Result` for calls that
    may raise. */
module Wrappers {

  /** A value that may be Python's `None`. */
  datatype Option<+T> = None | Some(value: T) {

    predicate IsFailure() {
      None?
    }

    function PropagateFailure<U>(): Option<U>
      requires None?
    {
      None
    }

    function Extract(): T
      requires Some?
    {
      value
    }

    /** The value, or `default` when there is none. */
    function GetOr(default: T): T {
      match this
      case Some(v) => v
      case None => default
    }
  }

  /** The outcome of a call that either returns a value or raises `error`. */
  datatype Result<+T, +E> = Ok(value: T) | Err(error: E) {

    predicate IsFailure() {
      Err?
    }

    function PropagateFailure<U>(): Result<U, E>
      requires Err?
    {
      Err(error)
    }

    function Extract(): T
      requires Ok?
    {
      value
    }
  }

  /** Apply `f` to each element in order, stopping at the first failure,
      as a Python loop that appends `f(x)` does when `f` raises. */
  function MapAll<A, B, E>(f: A -> Result<B, E>, xs: seq<A>): (r: Result<seq<B>, E>)
    ensures r.Ok? <==> forall i | 0 <= i < |xs| :: f(xs[i]).Ok?
    ensures r.Ok? ==> |r.value| == |xs| && forall i | 0 <= i < |xs| :: r.value[i] == f(xs[i]).value
    ensures r.Err? ==> exists k | 0 <= k < |xs| ::
      f(xs[k]) == Err(r.error) && forall j | 0 <= j < k :: f(xs[j]).Ok?
  {
    if |xs| == 0 then Ok([])
    else
      match f(xs[0])
      case Err(e) => Err(e)
      case Ok(first) =>
        match MapAll(f, xs[1..])
        case Err(e) =>
          assert forall j | 1 <= j < |xs| :: xs[j] == xs[1..][j - 1];
          Err(e)
        case Ok(rest) =>
          assert forall j | 1 <= j < |xs| :: xs[j] == xs[1..][j - 1];
          Ok([first] + rest)
  }

  /** `MapAll` over one element is that element's outcome. */
  lemma MapAllSingle<A, B, E>(f: A -> Result<B, E>, x: A)
    ensures f(x).Ok? ==> MapAll(f, [x]) == Ok([f(x).value])
    ensures f(x).Err? ==> MapAll(f, [x]) == Err(f(x).error)
  {
    assert [x][1..] == [];
    assert MapAll(f, []) == Ok([]);
    if f(x).Ok? {
      assert [f(x).value] + [] == [f(x).value];
    }
  }
  lemma MapAllAppendFirstFails<A, B, E>(f: A -> Result<B, E>, xs: seq<A>, ys: seq<A>)
    requires MapAll(f, xs).Err?
    ensures MapAll(f, xs + ys) == Err(MapAll(f, xs).error)
  {
    var zs := xs + ys;
    var r := MapAll(f, zs);
    var k :| 0 <= k < |xs| && f(xs[k]) == Err(MapAll(f, xs).error) && forall j | 0 <= j < k :: f(xs[j]).Ok?;
    assert forall j | 0 <= j <= k :: zs[j] == xs[j];
    var k' :| 0 <= k' < |zs| && f(zs[k']) == Err(r.error) && forall j | 0 <= j < k' :: f(zs[j]).Ok?;
    assert k' == k;
  }

  lemma MapAllAppendSecondFails<A, B, E>(f: A -> Result<B, E>, xs: seq<A>, ys: seq<A>)
    requires MapAll(f, xs).Ok? && MapAll(f, ys).Err?
    ensures MapAll(f, xs + ys) == Err(MapAll(f, ys).error)
  {
    var zs := xs + ys;
    var r := MapAll(f, zs);
    var k :| 0 <= k < |ys| && f(ys[k]) == Err(MapAll(f, ys).error) && forall j | 0 <= j < k :: f(ys[j]).Ok?;
    assert forall j | 0 <= j < |xs| :: zs[j] == xs[j];
    assert forall j | 0 <= j <= k :: zs[|xs| + j] == ys[j];
    var k' :| 0 <= k' < |zs| && f(zs[k']) == Err(r.error) && forall j | 0 <= j < k' :: f(zs[j]).Ok?;
    assert k' == |xs| + k;
  }

  lemma MapAllAppendBothRead<A, B, E>(f: A -> Result<B, E>, xs: seq<A>, ys: seq<A>)
    requires MapAll(f, xs).Ok? && MapAll(f, ys).Ok?
    ensures MapAll(f, xs + ys) == Ok(MapAll(f, xs).value + MapAll(f, ys).value)
  {
    var zs := xs + ys;
    var a, b := MapAll(f, xs).value, MapAll(f, ys).value;
    var c := a + b;
    forall i | 0 <= i < |zs|
      ensures f(zs[i]).Ok? && f(zs[i]).value == c[i]
    {
      if i < |xs| {
        assert zs[i] == xs[i] && c[i] == a[i];
      } else {
        assert zs[i] == ys[i - |xs|] && c[i] == b[i - |xs|];
      }
    }
    var r := MapAll(f, zs);
    assert |r.value| == |c|;
    assert r.value == c;
  }

  /** Mapping over a concatenation maps the first part, then the second;
      the first failure, in either part, is the outcome. */
  lemma MapAllAppend<A, B, E>(f: A -> Result<B, E>, xs: seq<A>, ys: seq<A>)
    ensures MapAll(f, xs + ys) ==
      match MapAll(f, xs)
      case Err(e) => Err(e)
      case Ok(a) =>
        match MapAll(f, ys)
        case Err(e) => Err(e)
        case Ok(b) => Ok(a + b)
  {
    if MapAll(f, xs).Err? {
      MapAllAppendFirstFails(f, xs, ys);
    } else if MapAll(f, ys).Err? {
      MapAllAppendSecondFails(f, xs, ys);
    } else {
      MapAllAppendBothRead(f, xs, ys);
    }
  }
}
