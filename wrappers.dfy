/** Option and Result values used for the error paths of the model. */
module Wrappers {
  datatype Option<T> = None | Some(value: T)

  datatype Result<T, E> = Ok(value: T) | Err(error: E)

  /** A run of steps that stops at the first error, as a loop that returns on it does. */
  function FirstError<T, E>(os: seq<Result<T, E>>): Result<seq<T>, E>
  {
    if os == [] then Ok([])
    else match FirstError(os[..|os| - 1])
      case Err(e) => Err(e)
      case Ok(prev) =>
        match os[|os| - 1]
        case Err(e) => Err(e)
        case Ok(x) => Ok(prev + [x])
  }

  /**
   * The run succeeds exactly when every step does, with the steps' values in order;
   * otherwise its error is the one of the first step that fails.
   */
  lemma {:induction false} FirstErrorSpec<T, E>(os: seq<Result<T, E>>)
    ensures var o := FirstError(os);
      (o.Ok? <==> forall k :: 0 <= k < |os| ==> os[k].Ok?) &&
      (o.Ok? ==> |o.value| == |os| && forall k :: 0 <= k < |os| ==> o.value[k] == os[k].value) &&
      (o.Err? ==> exists k :: 0 <= k < |os| && os[k] == Err(o.error) && forall j :: 0 <= j < k ==> os[j].Ok?)
  {
    if os != [] {
      var n := |os| - 1;
      var init := os[..n];
      FirstErrorSpec(init);
      assert forall k :: 0 <= k < n ==> init[k] == os[k];
    }
  }

  /** One more step extends the run by that step. */
  lemma FirstErrorSnoc<T, E>(os: seq<Result<T, E>>, k: nat)
    requires k < |os|
    ensures FirstError(os[..k + 1]) == match FirstError(os[..k])
      case Err(e) => Err(e)
      case Ok(prev) => (match os[k] case Err(e) => Err(e) case Ok(x) => Ok(prev + [x]))
  {
    assert os[..k + 1][..k] == os[..k];
  }

  /** An error stays the error of the whole run. */
  lemma {:induction false} FirstErrorStops<T, E>(os: seq<Result<T, E>>, k: nat)
    requires k <= |os| && FirstError(os[..k]).Err?
    ensures FirstError(os) == FirstError(os[..k])
    decreases |os| - k
  {
    if k < |os| {
      FirstErrorSnoc(os, k);
      FirstErrorStops(os, k + 1);
    } else {
      assert os[..k] == os;
    }
  }

  /** Concatenation regrouped. */
  lemma AppendAssoc<T>(a: seq<T>, b: seq<T>, c: seq<T>)
    ensures a + b + c == a + (b + c)
  {
  }

  /** A non-empty sequence is its front followed by its last element. */
  lemma SplitLast<T>(s: seq<T>)
    requires s != []
    ensures s == s[..|s| - 1] + [s[|s| - 1]]
  {
  }

  /** A prefix grows by the next element. */
  lemma PrefixSnoc<T>(s: seq<T>, i: nat)
    requires i < |s|
    ensures s[..i] + [s[i]] == s[..i + 1]
  {
  }

  /** Adjacent slices from the front join into one prefix. */
  lemma PrefixJoin<T>(s: seq<T>, a: nat, b: nat)
    requires a <= b <= |s|
    ensures s[..a] + s[a..b] == s[..b]
  {
  }
}
