/** Failure-carrying values shared by every module of the model.

    The Python code signals failure by raising; the model returns an `Err`
    naming the exception class that would have been raised instead. */
module Common {

  datatype Option<+T> = None | Some(value: T)

  /** The Python exception classes the modelled code can raise. */
  datatype Error =
    | IndexError   // positional access past the end of a frame, a row or a string
    | TypeError    // an operation applied to a cell of the wrong kind
    | ValueError   // a text that does not convert (int(), strptime, fromisoformat, json.loads)
    | ClientError  // an HTTP request that failed or answered with a status of 400 or more
    | OverflowError // date arithmetic past 9999-12-31

  datatype Result<+T> = Ok(value: T) | Err(error: Error)

  /** The minimum of two integers. */
  function Min(a: int, b: int): (m: int)
    ensures m <= a && m <= b && (m == a || m == b)
  {
    if a <= b then a else b
  }

  /** Python's `xs[:n]` for a non-negative `n`: the longest prefix of at most `n` elements. */
  function Take<T>(xs: seq<T>, n: nat): (r: seq<T>)
    ensures |r| == Min(n, |xs|)
    ensures r == xs[..|r|]
  {
    if n <= |xs| then xs[..n] else xs
  }

  /** `Ok(acc + xs)` for `Ok(xs)`; an error passes through. */
  function Prefixed<T>(acc: seq<T>, r: Result<seq<T>>): (p: Result<seq<T>>)
    ensures p.Ok? <==> r.Ok?
    ensures p.Ok? ==> p.value == acc + r.value
  {
    match r
    case Ok(xs) => Ok(acc + xs)
    case Err(e) => Err(e)
  }

  /** Growing the accumulator by one element at its end. */
  lemma PrefixedSnoc<T>(acc: seq<T>, x: T, r: Result<seq<T>>)
    ensures Prefixed(acc + [x], r) == Prefixed(acc, Prefixed([x], r))
  {
    if r.Ok? {
      assert (acc + [x]) + r.value == acc + ([x] + r.value);
    }
  }

  lemma PrefixedNil<T>(r: Result<seq<T>>)
    ensures Prefixed([], r) == r
  {
    if r.Ok? {
      assert [] + r.value == r.value;
    }
  }
}
