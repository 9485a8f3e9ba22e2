/** Failure-compatible wrappers shared by every module of the model. */
module Base {

  datatype Option<+T> = None | Some(value: T)

  /** The value of a Rust `Result<R, E>`. */
  datatype Result<+R, +E> = Success(value: R) | Failure(error: E) {
    predicate IsFailure() {
      Failure?
    }

    function PropagateFailure<U>(): Result<U, E>
      requires Failure?
    {
      Failure(error)
    }

    function Extract(): R
      requires Success?
    {
      value
    }
  }

  /** Strings joined with a separator between consecutive elements (Rust's `join`). */
  function Join(xs: seq<string>, sep: string): string
  {
    if |xs| == 0 then ""
    else if |xs| == 1 then xs[0]
    else xs[0] + sep + Join(xs[1..], sep)
  }

  lemma {:induction false} JoinSnoc(xs: seq<string>, x: string, sep: string)
    ensures Join(xs + [x], sep) == if |xs| == 0 then x else Join(xs, sep) + sep + x
  {
    if |xs| == 0 {
      assert xs + [x] == [x];
    } else if |xs| == 1 {
      assert xs + [x] == [xs[0], x];
      assert (xs + [x])[1..] == [x];
    } else {
      assert (xs + [x])[1..] == xs[1..] + [x];
      JoinSnoc(xs[1..], x, sep);
    }
  }

  /** Joining two lists is joining each and putting one separator between them, when both are non-empty. */
  lemma {:induction false} JoinAppend(xs: seq<string>, ys: seq<string>, sep: string)
    ensures Join(xs + ys, sep) ==
      if |xs| == 0 then Join(ys, sep)
      else if |ys| == 0 then Join(xs, sep)
      else Join(xs, sep) + sep + Join(ys, sep)
    decreases |xs|
  {
    if |xs| == 0 {
      assert xs + ys == ys;
    } else if |ys| == 0 {
      assert xs + ys == xs;
    } else if |xs| == 1 {
      assert (xs + ys)[1..] == ys;
    } else {
      assert (xs + ys)[1..] == xs[1..] + ys;
      JoinAppend(xs[1..], ys, sep);
    }
  }

  /** A join of non-empty strings is empty exactly when there is nothing to join. */
  lemma JoinEmpty(xs: seq<string>, sep: string)
    requires forall i :: 0 <= i < |xs| ==> xs[i] != ""
    ensures Join(xs, sep) == "" <==> |xs| == 0
  {
    if |xs| > 1 {
      assert |Join(xs, sep)| >= |xs[0]|;
    }
  }
}

/** Splitting a string at every occurrence of a separator, the inverse of `Join`. */
module Strings {
  import opened Base

  function SplitOn(s: string, sep: string): (r: seq<string>)
    requires |sep| > 0
    ensures |r| >= 1
    decreases |s|
  {
    if |s| == 0 then [""]
    else if |sep| <= |s| && s[..|sep|] == sep then [""] + SplitOn(s[|sep|..], sep)
    else
      var rest := SplitOn(s[1..], sep);
      [[s[0]] + rest[0]] + rest[1..]
  }

  lemma {:induction false} SplitOnPlainPrefix(a: string, rest: string, sep: string)
    requires |sep| > 0 && sep[0] !in a
    ensures SplitOn(a + rest, sep) == [a + SplitOn(rest, sep)[0]] + SplitOn(rest, sep)[1..]
    decreases |a|
  {
    if |a| == 0 {
      assert a + rest == rest;
      var r := SplitOn(rest, sep);
      assert a + r[0] == r[0];
      assert [r[0]] + r[1..] == r;
    } else {
      var s := a + rest;
      assert s[0] == a[0];
      assert !(|sep| <= |s| && s[..|sep|] == sep) by {
        if |sep| <= |s| {
          assert s[..|sep|][0] == a[0];
        }
      }
      assert s[1..] == a[1..] + rest;
      SplitOnPlainPrefix(a[1..], rest, sep);
      var r := SplitOn(rest, sep);
      assert SplitOn(s, sep) == [[a[0]] + (a[1..] + r[0])] + r[1..];
      assert [a[0]] + (a[1..] + r[0]) == a + r[0];
    }
  }

  lemma SplitOnSepPrefix(rest: string, sep: string)
    requires |sep| > 0
    ensures SplitOn(sep + rest, sep) == [""] + SplitOn(rest, sep)
  {
    var s := sep + rest;
    assert s[..|sep|] == sep;
    assert s[|sep|..] == rest;
  }

  /** Splitting a joined list gives the list back when no element contains the separator's first character. */
  lemma {:induction false} SplitJoin(xs: seq<string>, sep: string)
    requires |sep| > 0 && |xs| >= 1
    requires forall i :: 0 <= i < |xs| ==> sep[0] !in xs[i]
    ensures SplitOn(Join(xs, sep), sep) == xs
    decreases |xs|
  {
    if |xs| == 1 {
      SplitOnPlainPrefix(xs[0], "", sep);
      assert xs[0] + "" == xs[0];
    } else {
      var tail := Join(xs[1..], sep);
      assert Join(xs, sep) == xs[0] + (sep + tail);
      SplitOnPlainPrefix(xs[0], sep + tail, sep);
      SplitOnSepPrefix(tail, sep);
      SplitJoin(xs[1..], sep);
      assert xs[0] + "" == xs[0];
      assert [xs[0]] + xs[1..] == xs;
    }
  }
}
