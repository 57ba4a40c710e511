/** The poll store and the request handlers that change it. The three tables
    are sequences that the handlers extend; a row's id is its position plus
    one, as SQLite assigns integer primary keys when nothing is deleted. */
module App {
  import opened Schema
  import opened Cookies
  import opened Forms
  import opened Counts
  import Seed

  datatype VoteOutcome =
    | NotFound          // 404: no poll with that id
    | AlreadyVoted      // redirect to the results, with a warning
    | Counted           // redirect to the results, with the vote cookie set
    | NoOptionSelected  // the vote form again, with an error
    | ShowVoteForm      // the vote form (GET)

  datatype CreateOutcome =
    | RedirectToLogin   // no admin cookie
    | RedirectHome      // the poll was created
    | InvalidForm       // the create form again, with an error
    | ShowCreateForm    // the create form (GET)

  datatype LoginOutcome =
    | RedirectToCreate  // the admin cookie is set
    | InvalidCredentials
    | ShowLoginForm

  const AdminUsername: string := "admin"

  /** The login handler. `passwordMatches` stands for the salted-hash check of
      the submitted password against the admin password's hash. Returns the
      response and the cookie jar after it. */
  function Login(verb: Verb, username: string, passwordMatches: bool, cookies: set<string>)
    : (r: (LoginOutcome, set<string>))
    ensures r.0.RedirectToCreate? <==> verb.Post? && username == AdminUsername && passwordMatches
    ensures r.0.InvalidCredentials? <==> verb.Post? && !(username == AdminUsername && passwordMatches)
    ensures r.1 == if r.0 == RedirectToCreate then cookies + {AdminCookie} else cookies
  {
    if verb == Get then (ShowLoginForm, cookies)
    else if username == AdminUsername && passwordMatches then (RedirectToCreate, cookies + {AdminCookie})
    else (InvalidCredentials, cookies)
  }

  /** A successful login opens the create-poll page; a failed one changes
      nothing about who may create polls. */
  lemma {:induction false} LoginGrantsAdmin(verb: Verb, username: string, passwordMatches: bool, cookies: set<string>)
    ensures var (outcome, jar) := Login(verb, username, passwordMatches, cookies);
            (outcome == RedirectToCreate ==> AdminCookie in jar) &&
            (outcome != RedirectToCreate ==> (AdminCookie in jar <==> AdminCookie in cookies))
  {
  }

  /** The response the vote handler chooses, from whether the poll exists,
      the verb, the cookie jar the request carries and the option field. */
  function VoteResponse(found: bool, pollId: nat, verb: Verb, cookies: set<string>, selected: Maybe<int>)
    : (outcome: VoteOutcome)
    ensures outcome == Counted ==> found && verb.Post? && VotedCookie(pollId) !in cookies && selected.Some?
  {
    if !found then NotFound
    else if verb == Get then ShowVoteForm
    else if VotedCookie(pollId) in cookies then AlreadyVoted
    else if selected.None? then NoOptionSelected
    else Counted
  }

  /** The cookie jar after the vote handler answered with `outcome`. */
  function VoteCookies(outcome: VoteOutcome, pollId: nat, cookies: set<string>): (jar: set<string>)
    ensures cookies <= jar
    ensures jar - cookies <= {VotedCookie(pollId)}
  {
    if outcome == Counted then cookies + {VotedCookie(pollId)} else cookies
  }

  /** A browser that has voted in a poll and sends back the cookie jar it was
      given cannot vote in that poll again, whatever option it submits. */
  lemma {:induction false} OneVotePerPoll(pollId: nat, verb: Verb, cookies: set<string>, selected: Maybe<int>, again: Maybe<int>)
    requires VoteResponse(true, pollId, verb, cookies, selected) == Counted
    ensures var jar := VoteCookies(Counted, pollId, cookies);
            VoteResponse(true, pollId, Post, jar, again) == AlreadyVoted
  {
  }

  /** The cookie set by voting in poll `p` changes nothing about how a vote in
      any other poll is answered. */
  lemma {:induction false} VoteCookieIsPerPoll(p: nat, q: nat, found: bool, verb: Verb, cookies: set<string>, selected: Maybe<int>)
    requires p != q
    ensures VoteResponse(found, q, verb, cookies + {VotedCookie(p)}, selected)
         == VoteResponse(found, q, verb, cookies, selected)
  {
    VotedCookieInjective(p, q);
  }

  class PollStore {
    var polls: seq<Poll>
    var options: seq<Option>
    var votes: seq<Vote>

    /** Ids are positions plus one, and every option points to an existing
        poll. Votes may point anywhere: nothing checks their option. */
    ghost predicate Valid()
      reads this
    {
      && (forall i :: 0 <= i < |polls| ==> polls[i].id == i + 1)
      && (forall i :: 0 <= i < |options| ==> options[i].id == i + 1)
      && (forall i :: 0 <= i < |options| ==> 1 <= options[i].pollId <= |polls|)
      && (forall i :: 0 <= i < |votes| ==> votes[i].id == i + 1)
    }

    /** A freshly created database: three empty tables. */
    constructor ()
      ensures Valid()
      ensures polls == [] && options == [] && votes == []
    {
      polls, options, votes := [], [], [];
    }

    /** `Poll.query.get_or_404`: the poll with that id, if there is one. */
    function GetPoll(id: int): (r: Maybe<Poll>)
      reads this
      requires Valid()
      ensures r.Some? <==> exists i :: 0 <= i < |polls| && polls[i].id == id
      ensures r.Some? ==> r.value in polls && r.value.id == id
    {
      if 1 <= id <= |polls| then Some(polls[id - 1]) else None
    }

    /** `Poll.total_votes`: the join count, which is the number of votes cast
        for an option of the poll and also the sum of its options' vote counts. */
    function TotalVotes(pollId: nat): (n: nat)
      reads this
      requires Valid()
      ensures n == VotesInPoll(votes, options, pollId)
      ensures n == SumVoteCounts(OptionsOf(options, pollId), votes)
    {
      UniqueOptionIds();
      TotalVotesIsVotesInPoll(votes, options, pollId);
      TotalVotesIsSumOfVoteCounts(votes, options, pollId);
      Counts.TotalVotes(votes, options, pollId)
    }

    /** The results page: the poll and its total, or not found. */
    function Results(pollId: nat): (r: Maybe<(Poll, nat)>)
      reads this
      requires Valid()
      ensures r.None? <==> GetPoll(pollId).None?
      ensures r.Some? ==> r.value.0 in polls && r.value.0.id == pollId &&
                          r.value.1 == VotesInPoll(votes, options, pollId)
    {
      match GetPoll(pollId)
      case None => None
      case Some(poll) => Some((poll, TotalVotes(pollId)))
    }

    lemma {:induction false} UniqueOptionIds()
      requires Valid()
      ensures UniqueIds(options)
    {
    }

    /** Adds one poll row under the next id. */
    method AddPoll(question: string) returns (pollId: nat)
      requires Valid()
      modifies this`polls
      ensures Valid()
      ensures pollId == |old(polls)| + 1
      ensures polls == old(polls) + [Poll(pollId, question)]
    {
      pollId := |polls| + 1;
      polls := polls + [Poll(pollId, question)];
    }

    /** Adds one option row per text, in order, all pointing to `pollId`. */
    method AddOptions(texts: seq<string>, pollId: nat)
      requires Valid() && 1 <= pollId <= |polls|
      modifies this`options
      ensures Valid()
      ensures options == old(options) + NewOptions(texts, |old(options)| + 1, pollId)
    {
      var i := 0;
      while i < |texts|
        invariant 0 <= i <= |texts|
        invariant Valid()
        invariant options == old(options) + NewOptions(texts[..i], |old(options)| + 1, pollId)
      {
        NewOptionsSnoc(texts[..i], texts[i], |old(options)| + 1, pollId);
        assert texts[..i + 1] == texts[..i] + [texts[i]];
        options := options + [Option(|options| + 1, texts[i], pollId)];
        i := i + 1;
      }
      assert texts[..i] == texts;
    }

    /** The vote handler: `selected` is the form's option field, `None` when it
        is missing or empty. Returns the response and the cookie jar after it. */
    method HandleVote(pollId: nat, verb: Verb, cookies: set<string>, selected: Maybe<int>)
      returns (outcome: VoteOutcome, cookiesOut: set<string>)
      requires Valid()
      modifies this`votes
      ensures Valid()
      ensures polls == old(polls) && options == old(options)
      ensures outcome == NotFound <==> GetPoll(pollId).None?
      ensures outcome == ShowVoteForm <==> GetPoll(pollId).Some? && verb == Get
      ensures outcome == AlreadyVoted <==> GetPoll(pollId).Some? && verb == Post && VotedCookie(pollId) in cookies
      ensures outcome == NoOptionSelected <==>
                GetPoll(pollId).Some? && verb == Post && VotedCookie(pollId) !in cookies && selected.None?
      ensures outcome == Counted <==>
                GetPoll(pollId).Some? && verb == Post && VotedCookie(pollId) !in cookies && selected.Some?
      ensures outcome == Counted ==>
                votes == old(votes) + [Vote(|old(votes)| + 1, selected.value)] &&
                cookiesOut == cookies + {VotedCookie(pollId)}
      ensures outcome != Counted ==> votes == old(votes) && cookiesOut == cookies
      ensures outcome == VoteResponse(GetPoll(pollId).Some?, pollId, verb, cookies, selected)
      ensures cookiesOut == VoteCookies(outcome, pollId, cookies)
      ensures outcome == Counted ==>
                TotalVotes(pollId) == old(TotalVotes(pollId)) +
                  (if OptionInPoll(options, selected.value, pollId) then 1 else 0)
    {
      cookiesOut := cookies;
      if GetPoll(pollId).None? {
        return NotFound, cookiesOut;
      }
      if verb == Get {
        return ShowVoteForm, cookiesOut;
      }
      if VotedCookie(pollId) in cookies {
        return AlreadyVoted, cookiesOut;
      }
      match selected {
        case None =>
          outcome := NoOptionSelected;
        case Some(optionId) =>
          UniqueOptionIds();
          TotalVotesAppend(votes, Vote(|votes| + 1, optionId), options, pollId);
          votes := votes + [Vote(|votes| + 1, optionId)];
          cookiesOut := cookies + {VotedCookie(pollId)};
          outcome := Counted;
      }
    }

    /** The create-poll handler. A missing question field is the empty string;
        `submitted` is the list of option fields as sent. */
    method HandleCreatePoll(verb: Verb, cookies: set<string>, question: string, submitted: seq<string>)
      returns (outcome: CreateOutcome)
      requires Valid()
      modifies this`polls, this`options
      ensures Valid()
      ensures votes == old(votes)
      ensures outcome == RedirectToLogin <==> AdminCookie !in cookies
      ensures outcome == ShowCreateForm <==> AdminCookie in cookies && verb == Get
      ensures outcome == InvalidForm <==>
                AdminCookie in cookies && verb == Post && !AcceptsPoll(question, submitted)
      ensures outcome == RedirectHome <==>
                AdminCookie in cookies && verb == Post && AcceptsPoll(question, submitted)
      ensures outcome == RedirectHome ==>
                var pollId := |old(polls)| + 1;
                polls == old(polls) + [Poll(pollId, question)] &&
                options == old(options) + NewOptions(NonEmptyOptions(submitted), |old(options)| + 1, pollId)
      ensures outcome != RedirectHome ==> polls == old(polls) && options == old(options)
    {
      if AdminCookie !in cookies {
        return RedirectToLogin;
      }
      if verb == Get {
        return ShowCreateForm;
      }
      var kept := NonEmptyOptions(submitted);
      if question == "" || |kept| < 2 {
        return InvalidForm;
      }
      var pollId := AddPoll(question);
      AddOptions(kept, pollId);
      outcome := RedirectHome;
    }

    /** Seeding, run before every request. `storeFileExists` is the answer of
        the file-system check that guards it. When the file is absent, the
        three example polls and their options are added, then 50 votes, each
        for an option chosen arbitrarily among all options in the store. */
    method InitDb(storeFileExists: bool)
      requires Valid()
      modifies this
      ensures Valid()
      ensures storeFileExists ==> polls == old(polls) && options == old(options) && votes == old(votes)
      ensures !storeFileExists ==>
                && (polls, options) == Seed.Seeded(old(polls), old(options), Seed.Polls)
                && |votes| == |old(votes)| + Seed.SeedVotes
                && votes[..|old(votes)|] == old(votes)
                && (forall k :: |old(votes)| <= k < |votes| ==> 1 <= votes[k].optionId <= |options|)
    {
      if !storeFileExists {
        AddSeedPolls(Seed.Polls);
        Seed.SeedShape();
        Seed.SeededOptions(old(polls), old(options), Seed.Polls);
        AddRandomVotes(Seed.SeedVotes);
      }
    }

    /** The first phase of seeding: each example poll, then its options. */
    method AddSeedPolls(seeds: seq<Seed.SeedPoll>)
      requires Valid()
      modifies this`polls, this`options
      ensures Valid()
      ensures (polls, options) == Seed.Seeded(old(polls), old(options), seeds)
    {
      var s := 0;
      while s < |seeds|
        invariant 0 <= s <= |seeds|
        invariant Valid()
        invariant Seed.Seeded(polls, options, seeds[s..]) == Seed.Seeded(old(polls), old(options), seeds)
      {
        assert seeds[s..][0] == seeds[s] && seeds[s..][1..] == seeds[s + 1..];
        AddPollWithOptions(seeds[s].question, seeds[s].options);
        s := s + 1;
      }
    }

    /** One poll row, then one option row per text pointing to it. */
    method AddPollWithOptions(question: string, texts: seq<string>)
      requires Valid()
      modifies this`polls, this`options
      ensures Valid()
      ensures polls == old(polls) + [Poll(|old(polls)| + 1, question)]
      ensures options == old(options) + NewOptions(texts, |old(options)| + 1, |old(polls)| + 1)
    {
      var pollId := AddPoll(question);
      AddOptions(texts, pollId);
    }

    /** The second phase of seeding: `count` votes, each for an option chosen
        arbitrarily among all the options in the store. */
    method AddRandomVotes(count: nat)
      requires Valid() && |options| > 0
      modifies this`votes
      ensures Valid()
      ensures |votes| == |old(votes)| + count && votes[..|old(votes)|] == old(votes)
      ensures forall k :: |old(votes)| <= k < |votes| ==> 1 <= votes[k].optionId <= |options|
    {
      var all := options;
      var n := 0;
      while n < count
        invariant 0 <= n <= count
        invariant Valid()
        invariant |votes| == |old(votes)| + n && votes[..|old(votes)|] == old(votes)
        invariant forall k :: |old(votes)| <= k < |votes| ==> 1 <= votes[k].optionId <= |options|
      {
        var j :| 0 <= j < |all|;
        votes := votes + [Vote(|votes| + 1, all[j].id)];
        n := n + 1;
      }
    }
  }
}
