/** The two aggregate queries of the store, recomputed from the tables on
    every call: an option's vote count and a poll's total through a join. */
module Counts {
  import opened Schema

  /** `Option.vote_count`: the number of votes whose foreign key is the option. */
  function VoteCount(votes: seq<Vote>, optionId: int): (n: nat)
    ensures n <= |votes|
    ensures n == 0 <==> forall v :: v in votes ==> v.optionId != optionId
  {
    if votes == [] then 0
    else (if votes[0].optionId == optionId then 1 else 0) + VoteCount(votes[1..], optionId)
  }

  /** The number of rows of `options` that join with a vote on `optionId`
      and pass the filter `option.poll_id == pollId`. */
  function MatchCount(options: seq<Option>, optionId: int, pollId: nat): (n: nat)
    ensures n <= |options|
  {
    if options == [] then 0
    else (if options[0].id == optionId && options[0].pollId == pollId then 1 else 0)
         + MatchCount(options[1..], optionId, pollId)
  }

  /** `Poll.total_votes`: the row count of `vote JOIN option` filtered on the poll. */
  function TotalVotes(votes: seq<Vote>, options: seq<Option>, pollId: nat): nat
  {
    if votes == [] then 0
    else MatchCount(options, votes[0].optionId, pollId) + TotalVotes(votes[1..], options, pollId)
  }

  /** `poll.options`, the relationship of app.py:18 over the foreign key of app.py:26: the options that point to the poll, in table order. */
  function OptionsOf(options: seq<Option>, pollId: nat): seq<Option>
  {
    if options == [] then []
    else (if options[0].pollId == pollId then [options[0]] else []) + OptionsOf(options[1..], pollId)
  }

  /** `poll.options` holds exactly the table's rows that point to the poll. */
  lemma {:induction false} OptionsOfMembers(options: seq<Option>, pollId: nat, o: Option)
    ensures o in OptionsOf(options, pollId) <==> o in options && o.pollId == pollId
  {
    if options != [] {
      OptionsOfMembers(options[1..], pollId, o);
      assert options == [options[0]] + options[1..];
    }
  }

  /** The sum of `vote_count` over a list of options. */
  function SumVoteCounts(opts: seq<Option>, votes: seq<Vote>): nat
  {
    if opts == [] then 0 else VoteCount(votes, opts[0].id) + SumVoteCounts(opts[1..], votes)
  }

  /** The option with id `optionId` exists and belongs to poll `pollId`. */
  predicate OptionInPoll(options: seq<Option>, optionId: int, pollId: nat)
  {
    exists i :: 0 <= i < |options| && options[i].id == optionId && options[i].pollId == pollId
  }

  /** The number of votes cast for some option of poll `pollId`. */
  function VotesInPoll(votes: seq<Vote>, options: seq<Option>, pollId: nat): nat
  {
    if votes == [] then 0
    else (if OptionInPoll(options, votes[0].optionId, pollId) then 1 else 0)
         + VotesInPoll(votes[1..], options, pollId)
  }

  /** Primary keys of the option table are distinct. */
  predicate UniqueIds(options: seq<Option>)
  {
    forall i, j :: 0 <= i < j < |options| ==> options[i].id != options[j].id
  }

  lemma {:induction false} TotalVotesNoOptions(votes: seq<Vote>, pollId: nat)
    ensures TotalVotes(votes, [], pollId) == 0
  {
    if votes != [] {
      TotalVotesNoOptions(votes[1..], pollId);
    }
  }

  /** Splitting the option table at its first row splits the join. */
  lemma {:induction false} TotalVotesSplit(votes: seq<Vote>, options: seq<Option>, pollId: nat)
    requires options != []
    ensures TotalVotes(votes, options, pollId)
         == (if options[0].pollId == pollId then VoteCount(votes, options[0].id) else 0)
            + TotalVotes(votes, options[1..], pollId)
  {
    if votes != [] {
      TotalVotesSplit(votes[1..], options, pollId);
    }
  }

  lemma {:induction false} SumVoteCountsAppend(a: seq<Option>, b: seq<Option>, votes: seq<Vote>)
    ensures SumVoteCounts(a + b, votes) == SumVoteCounts(a, votes) + SumVoteCounts(b, votes)
  {
    if a == [] {
      assert a + b == b;
    } else {
      assert (a + b)[0] == a[0];
      assert (a + b)[1..] == a[1..] + b;
      SumVoteCountsAppend(a[1..], b, votes);
    }
  }

  /** A poll's total is the sum of its options' vote counts. */
  lemma {:induction false} TotalVotesIsSumOfVoteCounts(votes: seq<Vote>, options: seq<Option>, pollId: nat)
    ensures TotalVotes(votes, options, pollId) == SumVoteCounts(OptionsOf(options, pollId), votes)
  {
    if options == [] {
      TotalVotesNoOptions(votes, pollId);
    } else {
      TotalVotesSplit(votes, options, pollId);
      TotalVotesIsSumOfVoteCounts(votes, options[1..], pollId);
      var head := if options[0].pollId == pollId then [options[0]] else [];
      SumVoteCountsAppend(head, OptionsOf(options[1..], pollId), votes);
    }
  }

  /** With distinct option ids, a vote joins with at most one option, so
      it adds exactly one row to the join of the poll its option belongs to. */
  lemma {:induction false} MatchCountUnique(options: seq<Option>, optionId: int, pollId: nat)
    requires UniqueIds(options)
    ensures MatchCount(options, optionId, pollId) == if OptionInPoll(options, optionId, pollId) then 1 else 0
  {
    if options != [] {
      var rest := options[1..];
      assert UniqueIds(rest) by {
        forall i, j | 0 <= i < j < |rest| ensures rest[i].id != rest[j].id {
          assert rest[i] == options[i + 1] && rest[j] == options[j + 1];
        }
      }
      MatchCountUnique(rest, optionId, pollId);
      if options[0].id == optionId {
        assert !OptionInPoll(rest, optionId, pollId) by {
          forall i | 0 <= i < |rest| ensures rest[i].id != optionId {
            assert rest[i] == options[i + 1];
          }
        }
      }
      if OptionInPoll(options, optionId, pollId) && !(options[0].id == optionId && options[0].pollId == pollId) {
        var i :| 0 <= i < |options| && options[i].id == optionId && options[i].pollId == pollId;
        assert rest[i - 1] == options[i];
      }
      if OptionInPoll(rest, optionId, pollId) {
        var i :| 0 <= i < |rest| && rest[i].id == optionId && rest[i].pollId == pollId;
        assert options[i + 1] == rest[i];
      }
    }
  }

  /** With distinct option ids, a poll's total is the number of votes whose
      option belongs to the poll. */
  lemma {:induction false} TotalVotesIsVotesInPoll(votes: seq<Vote>, options: seq<Option>, pollId: nat)
    requires UniqueIds(options)
    ensures TotalVotes(votes, options, pollId) == VotesInPoll(votes, options, pollId)
  {
    if votes != [] {
      MatchCountUnique(options, votes[0].optionId, pollId);
      TotalVotesIsVotesInPoll(votes[1..], options, pollId);
    }
  }

  /** Appending one vote raises its option's count by one and no other. */
  lemma {:induction false} VoteCountAppend(votes: seq<Vote>, v: Vote, optionId: int)
    ensures VoteCount(votes + [v], optionId)
         == VoteCount(votes, optionId) + (if v.optionId == optionId then 1 else 0)
  {
    if votes == [] {
      assert votes + [v] == [v];
    } else {
      assert (votes + [v])[1..] == votes[1..] + [v];
      VoteCountAppend(votes[1..], v, optionId);
    }
  }

  /** Appending one vote raises the total of the poll its option belongs to
      by one, and leaves every other poll's total as it was, whatever poll
      the vote was submitted through. A vote whose option does not exist
      raises no total. */
  lemma {:induction false} TotalVotesAppend(votes: seq<Vote>, v: Vote, options: seq<Option>, pollId: nat)
    requires UniqueIds(options)
    ensures TotalVotes(votes + [v], options, pollId)
         == TotalVotes(votes, options, pollId) + (if OptionInPoll(options, v.optionId, pollId) then 1 else 0)
  {
    if votes == [] {
      assert votes + [v] == [v];
      MatchCountUnique(options, v.optionId, pollId);
    } else {
      assert (votes + [v])[1..] == votes[1..] + [v];
      TotalVotesAppend(votes[1..], v, options, pollId);
    }
  }

  lemma {:induction false} OptionsOfAppend(a: seq<Option>, b: seq<Option>, pollId: nat)
    ensures OptionsOf(a + b, pollId) == OptionsOf(a, pollId) + OptionsOf(b, pollId)
  {
    if a == [] {
      assert a + b == b;
    } else {
      assert (a + b)[0] == a[0];
      assert (a + b)[1..] == a[1..] + b;
      OptionsOfAppend(a[1..], b, pollId);
    }
  }

  /** The rows created for a poll are that poll's options ... */
  lemma {:induction false} OptionsOfOwnRows(texts: seq<string>, firstId: nat, pollId: nat)
    ensures OptionsOf(NewOptions(texts, firstId, pollId), pollId) == NewOptions(texts, firstId, pollId)
  {
    if texts != [] {
      OptionsOfOwnRows(texts[1..], firstId + 1, pollId);
    }
  }

  /** ... and no other poll's. */
  lemma {:induction false} OptionsOfOtherRows(texts: seq<string>, firstId: nat, owner: nat, pollId: nat)
    requires owner != pollId
    ensures OptionsOf(NewOptions(texts, firstId, owner), pollId) == []
  {
    if texts != [] {
      OptionsOfOtherRows(texts[1..], firstId + 1, owner, pollId);
    }
  }

  /** A table whose rows all point below `pollId` holds no option of it. */
  lemma {:induction false} OptionsOfNone(options: seq<Option>, pollId: nat)
    requires forall i :: 0 <= i < |options| ==> options[i].pollId < pollId
    ensures OptionsOf(options, pollId) == []
  {
    if options != [] {
      OptionsOfNone(options[1..], pollId);
    }
  }
}
