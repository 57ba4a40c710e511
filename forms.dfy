/** Validation of the create-poll form. */
module Forms {

  /** The submitted option texts with the empty strings dropped, in order. */
  function NonEmptyOptions(submitted: seq<string>): (kept: seq<string>)
    ensures |kept| <= |submitted|
    ensures forall i :: 0 <= i < |kept| ==> kept[i] != ""
    ensures forall t :: t in kept <==> t in submitted && t != ""
  {
    if submitted == [] then []
    else if submitted[0] == "" then NonEmptyOptions(submitted[1..])
    else [submitted[0]] + NonEmptyOptions(submitted[1..])
  }

  /** The filter distributes over concatenation, so it keeps the relative
      order of the texts it keeps. */
  lemma {:induction false} NonEmptyOptionsAppend(a: seq<string>, b: seq<string>)
    ensures NonEmptyOptions(a + b) == NonEmptyOptions(a) + NonEmptyOptions(b)
  {
    if a == [] {
      assert a + b == b;
    } else {
      assert (a + b)[0] == a[0];
      assert (a + b)[1..] == a[1..] + b;
      NonEmptyOptionsAppend(a[1..], b);
    }
  }

  /** A list without empty strings passes the filter unchanged; in particular
      the filter is idempotent. */
  lemma {:induction false} NonEmptyOptionsKeepsClean(s: seq<string>)
    requires forall i :: 0 <= i < |s| ==> s[i] != ""
    ensures NonEmptyOptions(s) == s
  {
    if s != [] {
      NonEmptyOptionsKeepsClean(s[1..]);
    }
  }

  lemma {:induction false} NonEmptyOptionsIdempotent(s: seq<string>)
    ensures NonEmptyOptions(NonEmptyOptions(s)) == NonEmptyOptions(s)
  {
    NonEmptyOptionsKeepsClean(NonEmptyOptions(s));
  }

  /** The number of empty strings in a list. */
  function EmptyCount(s: seq<string>): (n: nat)
    ensures n <= |s|
  {
    if s == [] then 0 else (if s[0] == "" then 1 else 0) + EmptyCount(s[1..])
  }

  lemma {:induction false} NonEmptyOptionsLength(s: seq<string>)
    ensures |NonEmptyOptions(s)| == |s| - EmptyCount(s)
  {
    if s != [] {
      NonEmptyOptionsLength(s[1..]);
    }
  }

  /** A poll is created exactly when the question is non-empty and at least
      two option texts survive the filter. A missing question field is
      represented by the empty string, which is rejected the same way. */
  predicate AcceptsPoll(question: string, submitted: seq<string>)
  {
    question != "" && |NonEmptyOptions(submitted)| >= 2
  }
}
