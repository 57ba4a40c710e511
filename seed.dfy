/** The example data the store is seeded with, and what seeding does to the
    poll and option tables. */
module Seed {
  import opened Schema
  import opened Counts

  datatype SeedPoll = SeedPoll(question: string, options: seq<string>)

  const Polls: seq<SeedPoll> := [
    SeedPoll("What is your favorite programming language?",
             ["Python", "JavaScript", "Rust", "Go"]),
    SeedPoll("Which frontend framework do you prefer?",
             ["React", "Vue", "Svelte", "Angular"]),
    SeedPoll("What is the best way to spend a weekend?",
             ["Coding a side project", "Hiking in the mountains", "Reading a book", "Watching movies"])
  ]

  /** The number of random votes cast after the polls are created. */
  const SeedVotes: nat := 50

  /** The poll and option tables after adding, for each seed poll in turn,
      its poll row under the next id and then one option row per text. */
  function Seeded(polls: seq<Poll>, options: seq<Option>, seeds: seq<SeedPoll>): (seq<Poll>, seq<Option>)
    decreases |seeds|
  {
    if seeds == [] then (polls, options)
    else Seeded(polls + [Poll(|polls| + 1, seeds[0].question)],
                options + NewOptions(seeds[0].options, |options| + 1, |polls| + 1),
                seeds[1..])
  }

  /** The total number of option texts in `seeds`. */
  function OptionTotal(seeds: seq<SeedPoll>): nat
  {
    if seeds == [] then 0 else |seeds[0].options| + OptionTotal(seeds[1..])
  }

  /** Seeding appends one poll row per seed poll, in order, under the next
      ids, and keeps the existing rows. */
  lemma {:induction false} SeededPolls(polls: seq<Poll>, options: seq<Option>, seeds: seq<SeedPoll>)
    ensures var after := Seeded(polls, options, seeds).0;
            |after| == |polls| + |seeds| && after[..|polls|] == polls &&
            forall k :: 0 <= k < |seeds| ==> after[|polls| + k] == Poll(|polls| + 1 + k, seeds[k].question)
    decreases |seeds|
  {
    if seeds != [] {
      var polls' := polls + [Poll(|polls| + 1, seeds[0].question)];
      var options' := options + NewOptions(seeds[0].options, |options| + 1, |polls| + 1);
      SeededPolls(polls', options', seeds[1..]);
      var after := Seeded(polls, options, seeds).0;
      assert after[..|polls|] == after[..|polls'|][..|polls|];
      forall k | 0 <= k < |seeds|
        ensures after[|polls| + k] == Poll(|polls| + 1 + k, seeds[k].question)
      {
        if k > 0 {
          assert after[|polls'| + (k - 1)] == Poll(|polls'| + 1 + (k - 1), seeds[1..][k - 1].question);
        } else {
          assert after[|polls|] == after[..|polls'|][|polls|];
        }
      }
    }
  }

  /** Seeding appends as many option rows as there are texts and keeps the
      existing rows. */
  lemma {:induction false} SeededOptions(polls: seq<Poll>, options: seq<Option>, seeds: seq<SeedPoll>)
    ensures var after := Seeded(polls, options, seeds).1;
            |after| == |options| + OptionTotal(seeds) && after[..|options|] == options
    decreases |seeds|
  {
    if seeds != [] {
      var polls' := polls + [Poll(|polls| + 1, seeds[0].question)];
      var options' := options + NewOptions(seeds[0].options, |options| + 1, |polls| + 1);
      SeededOptions(polls', options', seeds[1..]);
      var after := Seeded(polls, options, seeds).1;
      assert after[..|options|] == after[..|options'|][..|options|];
    }
  }

  /** Seeding adds no option to a poll that existed before. */
  lemma {:induction false} SeededKeepsOldPolls(polls: seq<Poll>, options: seq<Option>, seeds: seq<SeedPoll>, pollId: nat)
    requires pollId <= |polls|
    ensures OptionsOf(Seeded(polls, options, seeds).1, pollId) == OptionsOf(options, pollId)
    decreases |seeds|
  {
    if seeds != [] {
      var polls' := polls + [Poll(|polls| + 1, seeds[0].question)];
      var added := NewOptions(seeds[0].options, |options| + 1, |polls| + 1);
      SeededKeepsOldPolls(polls', options + added, seeds[1..], pollId);
      OptionsOfAppend(options, added, pollId);
      OptionsOfOtherRows(seeds[0].options, |options| + 1, |polls| + 1, pollId);
      assert OptionsOf(options, pollId) + [] == OptionsOf(options, pollId);
    }
  }

  /** When every existing option points to an existing poll, the `k`-th
      seeded poll's options after seeding are exactly the rows made from its
      own texts, numbered after the texts of the seed polls before it. */
  lemma {:induction false} SeededOptionsOf(polls: seq<Poll>, options: seq<Option>, seeds: seq<SeedPoll>, k: nat)
    requires forall i :: 0 <= i < |options| ==> options[i].pollId <= |polls|
    requires k < |seeds|
    ensures OptionsOf(Seeded(polls, options, seeds).1, |polls| + 1 + k)
         == NewOptions(seeds[k].options, |options| + 1 + OptionTotal(seeds[..k]), |polls| + 1 + k)
    decreases |seeds|
  {
    var polls' := polls + [Poll(|polls| + 1, seeds[0].question)];
    var added := NewOptions(seeds[0].options, |options| + 1, |polls| + 1);
    var options' := options + added;
    if k == 0 {
      calc {
        OptionsOf(Seeded(polls, options, seeds).1, |polls| + 1);
        OptionsOf(Seeded(polls', options', seeds[1..]).1, |polls| + 1);
        { SeededKeepsOldPolls(polls', options', seeds[1..], |polls| + 1); }
        OptionsOf(options', |polls| + 1);
        { OptionsOfAppend(options, added, |polls| + 1); }
        OptionsOf(options, |polls| + 1) + OptionsOf(added, |polls| + 1);
        { OptionsOfNone(options, |polls| + 1); OptionsOfOwnRows(seeds[0].options, |options| + 1, |polls| + 1); }
        [] + added;
        added;
        { assert seeds[..0] == []; }
        NewOptions(seeds[0].options, |options| + 1 + OptionTotal(seeds[..0]), |polls| + 1);
      }
    } else {
      assert forall i :: 0 <= i < |options'| ==> options'[i].pollId <= |polls'| by {
        forall i | 0 <= i < |options'| ensures options'[i].pollId <= |polls'| {
          if i >= |options| {
            NewOptionsAt(seeds[0].options, |options| + 1, |polls| + 1, i - |options|);
          }
        }
      }
      SeededOptionsOf(polls', options', seeds[1..], k - 1);
      assert seeds[1..][k - 1] == seeds[k];
      assert seeds[..k] == [seeds[0]] + seeds[1..][..k - 1];
      assert OptionTotal(seeds[..k]) == |seeds[0].options| + OptionTotal(seeds[1..][..k - 1]);
    }
  }

  /** The example data: 3 polls with 4 options each. */
  lemma {:induction false} SeedShape()
    ensures |Polls| == 3 && OptionTotal(Polls) == 12
    ensures forall k :: 0 <= k < |Polls| ==> |Polls[k].options| == 4
  {
  }

  /** Seeding with the example data adds three polls under the next three
      ids, each with exactly its four options, and twelve option rows in all;
      the options of the polls that were there before are untouched. */
  lemma {:induction false} SeedingAddsThreePolls(polls: seq<Poll>, options: seq<Option>)
    requires forall i :: 0 <= i < |options| ==> options[i].pollId <= |polls|
    ensures var (polls', options') := Seeded(polls, options, Polls);
            |polls'| == |polls| + 3 && |options'| == |options| + 12 &&
            (forall k :: 0 <= k < 3 ==> polls'[|polls| + k] == Poll(|polls| + 1 + k, Polls[k].question)) &&
            (forall p :: |polls| < p <= |polls| + 3 ==> |OptionsOf(options', p)| == 4) &&
            (forall p :: 0 <= p <= |polls| ==> OptionsOf(options', p) == OptionsOf(options, p))
  {
    SeedShape();
    SeededPolls(polls, options, Polls);
    SeededOptions(polls, options, Polls);
    var options' := Seeded(polls, options, Polls).1;
    forall p | |polls| < p <= |polls| + 3 ensures |OptionsOf(options', p)| == 4 {
      SeededOptionsOf(polls, options, Polls, p - |polls| - 1);
    }
    forall p | 0 <= p <= |polls| ensures OptionsOf(options', p) == OptionsOf(options, p) {
      SeededKeepsOldPolls(polls, options, Polls, p);
    }
  }
}
