/**
 * src/util/assertUtil.ts: sorting the outcomes of `Promise.allSettled`. Only the
 * values of fulfilled outcomes go on; rejected ones are only logged (the logging
 * is not modelled).
 */
module AssertUtil {

  /** `PromiseSettledResult<T>`: a fulfilled value or a rejection reason. */
  datatype SettledResult<T, E> = Fulfilled(value: T) | Rejected(reason: E)
  {
    /** The `status` field the source tests. */
    function Status(): string
    {
      if Fulfilled? then "fulfilled" else "rejected"
    }
  }

  /** `filterFulfilled`: the outcome's status is 'fulfilled'. */
  predicate FilterFulfilled<T, E>(x: SettledResult<T, E>)
    ensures FilterFulfilled(x) <==> x.Fulfilled?
  {
    x.Status() == "fulfilled"
  }

  /** `filterRejected`: the outcome's status is 'rejected'. */
  predicate FilterRejected<T, E>(x: SettledResult<T, E>)
    ensures FilterRejected(x) <==> x.Rejected?
  {
    x.Status() == "rejected"
  }

  /** `x.filter(filterFulfilled)`. */
  function KeepFulfilled<T, E>(xs: seq<SettledResult<T, E>>): (ys: seq<SettledResult<T, E>>)
    ensures |ys| <= |xs|
    ensures forall i :: 0 <= i < |ys| ==> ys[i].Fulfilled?
  {
    if xs == [] then []
    else (if FilterFulfilled(xs[0]) then [xs[0]] else []) + KeepFulfilled(xs[1..])
  }

  /** `x.filter(filterRejected)`, whose elements the source only logs. */
  function KeepRejected<T, E>(xs: seq<SettledResult<T, E>>): (ys: seq<SettledResult<T, E>>)
    ensures |ys| <= |xs|
    ensures forall i :: 0 <= i < |ys| ==> ys[i].Rejected?
  {
    if xs == [] then []
    else (if FilterRejected(xs[0]) then [xs[0]] else []) + KeepRejected(xs[1..])
  }

  /** `.map(x => x.value)` over fulfilled outcomes. */
  function Values<T, E>(ys: seq<SettledResult<T, E>>): seq<T>
    requires forall i :: 0 <= i < |ys| ==> ys[i].Fulfilled?
  {
    seq(|ys|, i requires 0 <= i < |ys| => ys[i].value)
  }

  /** `promiseSettledResultFilter`: the values of the fulfilled outcomes, one per
      fulfilled outcome, so the input length less the number of rejections. */
  function PromiseSettledResultFilter<T, E>(xs: seq<SettledResult<T, E>>): (r: seq<T>)
    ensures |r| == |xs| - |KeepRejected(xs)|
  {
    FiltersPartition(xs);
    Values(KeepFulfilled(xs))
  }

  // ----------------------------------------------------------------------------
  // Properties
  // ----------------------------------------------------------------------------

  /** Exactly one of the two filters accepts each outcome. */
  lemma ExactlyOneFilterHolds<T, E>(x: SettledResult<T, E>)
    ensures FilterFulfilled(x) != FilterRejected(x)
  {
  }

  /** Every outcome goes to exactly one of the two filtered lists. */
  lemma {:induction false} FiltersPartition<T, E>(xs: seq<SettledResult<T, E>>)
    ensures |KeepFulfilled(xs)| + |KeepRejected(xs)| == |xs|
    ensures forall x :: x in xs ==> (x in KeepFulfilled(xs)) != (x in KeepRejected(xs))
  {
    if xs != [] {
      FiltersPartition(xs[1..]);
      forall x | x in xs
        ensures (x in KeepFulfilled(xs)) != (x in KeepRejected(xs))
      {
        assert KeepFulfilled(xs) == (if xs[0].Fulfilled? then [xs[0]] else []) + KeepFulfilled(xs[1..]);
        assert KeepRejected(xs) == (if xs[0].Rejected? then [xs[0]] else []) + KeepRejected(xs[1..]);
        if x != xs[0] {
          assert x in xs[1..];
        } else if x.Fulfilled? {
          assert x !in KeepRejected(xs[1..]);
        } else {
          assert x !in KeepFulfilled(xs[1..]);
        }
      }
    }
  }

  /** The filter works element by element, keeping the input order. */
  lemma {:induction false} SettledFilterAppend<T, E>(a: seq<SettledResult<T, E>>, b: seq<SettledResult<T, E>>)
    ensures PromiseSettledResultFilter(a + b) == PromiseSettledResultFilter(a) + PromiseSettledResultFilter(b)
  {
    KeepFulfilledAppend(a, b);
  }

  lemma {:induction false} KeepFulfilledAppend<T, E>(a: seq<SettledResult<T, E>>, b: seq<SettledResult<T, E>>)
    ensures KeepFulfilled(a + b) == KeepFulfilled(a) + KeepFulfilled(b)
  {
    if a == [] {
      assert a + b == b;
    } else {
      var head := if FilterFulfilled(a[0]) then [a[0]] else [];
      assert (a + b)[0] == a[0];
      assert (a + b)[1..] == a[1..] + b;
      calc {
        KeepFulfilled(a + b);
        head + KeepFulfilled(a[1..] + b);
        { KeepFulfilledAppend(a[1..], b); }
        head + (KeepFulfilled(a[1..]) + KeepFulfilled(b));
        (head + KeepFulfilled(a[1..])) + KeepFulfilled(b);
      }
    }
  }

  /** A fulfilled outcome contributes its value, a rejected one nothing. */
  lemma SettledFilterSingle<T, E>(x: SettledResult<T, E>)
    ensures PromiseSettledResultFilter([x]) == if x.Fulfilled? then [x.value] else []
  {
  }

  /** v is in the result exactly when some outcome fulfilled with v. */
  lemma {:induction false} SettledFilterMembership<T, E>(xs: seq<SettledResult<T, E>>, v: T)
    ensures v in PromiseSettledResultFilter(xs) <==> Fulfilled(v) in xs
  {
    KeepFulfilledMembership(xs, v);
    var ys := KeepFulfilled(xs);
    if v in Values(ys) {
      var i :| 0 <= i < |ys| && Values(ys)[i] == v;
      assert ys[i] == Fulfilled(v);
    }
    if Fulfilled(v) in ys {
      var i :| 0 <= i < |ys| && ys[i] == Fulfilled(v);
      assert Values(ys)[i] == v;
    }
  }

  lemma {:induction false} KeepFulfilledMembership<T, E>(xs: seq<SettledResult<T, E>>, v: T)
    ensures Fulfilled(v) in KeepFulfilled(xs) <==> Fulfilled(v) in xs
  {
    if xs != [] {
      KeepFulfilledMembership(xs[1..], v);
      assert xs == [xs[0]] + xs[1..];
    }
  }

  /** An all-fulfilled input maps to all its values, in order. */
  lemma {:induction false} AllFulfilled<T, E>(xs: seq<SettledResult<T, E>>)
    requires forall i :: 0 <= i < |xs| ==> xs[i].Fulfilled?
    ensures PromiseSettledResultFilter(xs) == seq(|xs|, i requires 0 <= i < |xs| => xs[i].value)
  {
    KeepsAllFulfilled(xs);
  }

  lemma {:induction false} KeepsAllFulfilled<T, E>(xs: seq<SettledResult<T, E>>)
    requires forall i :: 0 <= i < |xs| ==> xs[i].Fulfilled?
    ensures KeepFulfilled(xs) == xs
  {
    if xs != [] {
      KeepsAllFulfilled(xs[1..]);
    }
  }

  /** An all-rejected input yields nothing. */
  lemma {:induction false} AllRejected<T, E>(xs: seq<SettledResult<T, E>>)
    requires forall i :: 0 <= i < |xs| ==> xs[i].Rejected?
    ensures PromiseSettledResultFilter(xs) == []
  {
    if xs != [] {
      AllRejected(xs[1..]);
    }
  }
}
