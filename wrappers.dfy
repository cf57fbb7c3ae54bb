/** Results of operations that may raise, and checks run over every element of a list. */
module Wrappers {
  datatype Option<+T> = None | Some(value: T)
  datatype Result<+T, +E> = Success(value: T) | Failure(error: E)
  datatype Outcome<+E> = Pass | Fail(error: E)

  /** Runs `check` on each element in order and stops at the first failure, as a `for` loop
      that raises does. */
  function FirstError<T, E>(xs: seq<T>, check: T -> Outcome<E>): (r: Outcome<E>)
    ensures r.Pass? <==> forall i :: 0 <= i < |xs| ==> check(xs[i]).Pass?
  {
    if xs == [] then Pass
    else if check(xs[0]).Fail? then check(xs[0])
    else FirstError(xs[1..], check)
  }

  /** The failure reported is that of the first element that fails. */
  lemma {:induction false} FirstErrorIsFirst<T, E>(xs: seq<T>, check: T -> Outcome<E>)
    requires FirstError(xs, check).Fail?
    ensures exists i :: 0 <= i < |xs| && check(xs[i]) == FirstError(xs, check)
                        && forall j :: 0 <= j < i ==> check(xs[j]).Pass?
  {
    if check(xs[0]).Fail? {
      assert check(xs[0]) == FirstError(xs, check);
    } else {
      FirstErrorIsFirst(xs[1..], check);
      var i :| 0 <= i < |xs[1..]| && check(xs[1..][i]) == FirstError(xs[1..], check)
               && forall j :: 0 <= j < i ==> check(xs[1..][j]).Pass?;
      assert check(xs[i + 1]) == FirstError(xs, check);
      assert forall j :: 0 <= j < i + 1 ==> check(xs[j]).Pass? by {
        forall j | 0 <= j < i + 1 ensures check(xs[j]).Pass? {
          if j > 0 { assert xs[j] == xs[1..][j - 1]; }
        }
      }
    }
  }

  /** Parses each element in order, as a loop that converts and raises on the first bad one. */
  function ParseEach<T, U, E>(xs: seq<T>, parse: T -> Result<U, E>): (r: Result<seq<U>, E>)
    ensures r.Success? <==> forall i :: 0 <= i < |xs| ==> parse(xs[i]).Success?
    ensures r.Success? ==> |r.value| == |xs| && forall i :: 0 <= i < |xs| ==> r.value[i] == parse(xs[i]).value
  {
    if xs == [] then Success([])
    else
      match ParseEach(xs[..|xs| - 1], parse)
      case Failure(e) => Failure(e)
      case Success(init) =>
        match parse(xs[|xs| - 1])
        case Failure(e) => Failure(e)
        case Success(last) => Success(init + [last])
  }

  /** Once a prefix fails to parse, the whole list fails with the same error. */
  lemma {:induction false} ParseEachPrefix<T, U, E>(xs: seq<T>, n: nat, parse: T -> Result<U, E>)
    requires n <= |xs| && ParseEach(xs[..n], parse).Failure?
    ensures ParseEach(xs, parse) == ParseEach(xs[..n], parse)
    decreases |xs| - n
  {
    if n < |xs| {
      ParseEachPrefix(xs, n + 1, parse);
      assert xs[..n + 1][..n] == xs[..n];
    } else {
      assert xs[..n] == xs;
    }
  }

  /** One more element: a loop that parses `xs` in order either stops at `xs[i]` with the
      whole list's error, or extends what it has parsed so far. */
  lemma ParseEachStep<T, U, E>(xs: seq<T>, i: nat, parse: T -> Result<U, E>)
    requires i < |xs| && ParseEach(xs[..i], parse).Success?
    ensures parse(xs[i]).Failure? ==> ParseEach(xs, parse) == Failure(parse(xs[i]).error)
    ensures parse(xs[i]).Success? ==>
      ParseEach(xs[..i + 1], parse) == Success(ParseEach(xs[..i], parse).value + [parse(xs[i]).value])
  {
    assert xs[..i + 1][..i] == xs[..i];
    if parse(xs[i]).Failure? {
      ParseEachPrefix(xs, i + 1, parse);
    }
  }

  /** The failure reported is that of the first element that fails. */
  lemma {:induction false} ParseEachIsFirst<T, U, E>(xs: seq<T>, parse: T -> Result<U, E>)
    requires ParseEach(xs, parse).Failure?
    ensures exists i :: 0 <= i < |xs| && parse(xs[i]) == Failure(ParseEach(xs, parse).error)
                        && forall j :: 0 <= j < i ==> parse(xs[j]).Success?
  {
    var init := xs[..|xs| - 1];
    if ParseEach(init, parse).Failure? {
      ParseEachIsFirst(init, parse);
      var i :| 0 <= i < |init| && parse(init[i]) == Failure(ParseEach(init, parse).error)
               && forall j :: 0 <= j < i ==> parse(init[j]).Success?;
      assert parse(xs[i]) == Failure(ParseEach(xs, parse).error);
      assert forall j :: 0 <= j < i ==> parse(xs[j]).Success? by {
        forall j | 0 <= j < i ensures parse(xs[j]).Success? { assert xs[j] == init[j]; }
      }
    } else {
      var i := |xs| - 1;
      assert forall j :: 0 <= j < i ==> parse(xs[j]).Success? by {
        forall j | 0 <= j < i ensures parse(xs[j]).Success? { assert xs[j] == init[j]; }
      }
    }
  }
}
