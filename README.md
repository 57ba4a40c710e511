# Poll store model

This project models a small polling web application in Dafny. Its store has
three tables:

- polls, each with a question;
- options, each with a text and the poll it belongs to;
- votes, each naming an option.

Three request handlers change the store:

- the vote handler checks a per-poll "voted" cookie, then records one vote;
- the create-poll handler checks an admin cookie, drops the empty option
  fields, then validates the form;
- the seeding routine runs before every request and fills a store that does
  not exist yet with three example polls and fifty random votes.

The model also covers:

- the results page, which looks up a poll and its vote total;
- the login handler, which sets the admin cookie;
- the two counts the pages show: vote count per option and total per poll.

Modules:

- `Schema`: the row types, `Maybe`, and `NewOptions`, the option rows added
  for a list of texts.
- `Cookies`: the cookie names. Vote cookies are `voted_` followed by the
  decimal poll id, and they are proved injective.
- `Forms`: the option-field filter and the create form's acceptance test.
- `Counts`: `vote_count` and the `total_votes` join as recursive functions,
  with the identities that relate them.
- `Seed`: the literal example data, and what seeding does to the poll and
  option tables.
- `App`: the response functions, and the class `PollStore`. Its three `seq`
  fields are the tables, and its methods are the handlers.

A row's id is its position plus one. That is how SQLite numbers integer
primary keys when nothing is ever deleted, and no route deletes anything.
`PollStore.Valid` states this, together with "every option points to an
existing poll". Votes are not required to point to an existing option. The
vote handler stores whatever option id the form sent, and SQLite does not
enforce foreign keys by default.

Parameters stand in for things outside the store:

- the file-existence test that guards seeding is a boolean parameter;
- the password-hash comparison is a boolean parameter;
- `random.choice` is an arbitrary choice (`:|`);
- a request's cookies are a set of cookie names passed in, and the handler
  returns the new set.

Seeding casts 50 votes. Each goes to an option chosen among all options in
the store, including any the store already held (app.py:57-59).

## Model

| member | source | states |
|---|---|---|
| Schema.NewOptions | app.py:122-125 | the option rows added for a list of texts: one row per text |
| Schema.NewOptionsAt | app.py:123-124 | the i-th added row has id `firstId + i`, the i-th text, and the poll id |
| Schema.NewOptionsSnoc | app.py:123-125 | adding one more text appends exactly one row, numbered after the others |
| Cookies.NatToString | app.py:91 | the decimal rendering of the poll id in the cookie name: non-empty, and all digits |
| Cookies.VotedCookie | app.py:102 | the vote cookie name begins with `voted_` and has more after it |
| Cookies.NatToStringInjective | app.py:91 | distinct numbers render as distinct decimal strings |
| Cookies.VotedCookieInjective | app.py:91-102 | two polls share a vote cookie exactly when they are the same poll |
| Cookies.VotedCookieIsNotAdmin | app.py:102-111 | no vote cookie is the admin cookie |
| Forms.NonEmptyOptions | app.py:116-117 | the filter keeps exactly the non-empty fields, and nothing empty survives |
| Forms.NonEmptyOptionsAppend | app.py:117 | filtering a concatenation is the concatenation of the filtered parts, so order is kept |
| Forms.NonEmptyOptionsKeepsClean | app.py:117 | a list with no empty field passes through unchanged |
| Forms.NonEmptyOptionsIdempotent | app.py:117 | filtering twice is the same as filtering once |
| Forms.EmptyCount | app.py:117 | helper definition for `NonEmptyOptionsLength`: the number of empty fields, with the bound that it is at most the number of fields |
| Forms.NonEmptyOptionsLength | app.py:117-119 | the filtered list is shorter by exactly the number of empty fields |
| Counts.VoteCount | app.py:29-30 | an option's vote count is at most the number of votes, and is zero exactly when no vote names it |
| Counts.VoteCountAppend | app.py:29-30 | one more vote raises the count of the option it names by one and leaves every other count alone |
| Counts.MatchCount | app.py:21 | helper definition for the join: the number of a vote's join partners in the poll, with the bound that it is at most the number of options; `MatchCountUnique` states what it is |
| Counts.OptionsOfMembers | app.py:18-26 | a row is among a poll's options exactly when it is in the table and points to that poll |
| Counts.TotalVotesNoOptions | app.py:21 | with no options the join is empty and the total is zero |
| Counts.TotalVotesSplit | app.py:21 | the join count splits over the first option row and the rest |
| Counts.SumVoteCountsAppend | app.py:29-30 | summing vote counts distributes over concatenating option lists |
| Counts.TotalVotesIsSumOfVoteCounts | app.py:20-30 | a poll's total is the sum of its options' vote counts |
| Counts.MatchCountUnique | app.py:21-24 | with unique option ids, a vote joins at most one option row of a poll |
| Counts.TotalVotesIsVotesInPoll | app.py:20-21 | with unique option ids, the total is the number of votes that name an option of the poll |
| Counts.TotalVotesAppend | app.py:97-99 | one more vote raises a poll's total by one if it names an option of that poll, and by zero otherwise |
| Counts.OptionsOfAppend | app.py:26 | a poll's options in a concatenated table are its options in each part, in order |
| Counts.OptionsOfOwnRows | app.py:122-125 | the rows added for a poll are all options of that poll |
| Counts.OptionsOfOtherRows | app.py:122-125 | the rows added for one poll are no options of any other poll |
| Counts.OptionsOfNone | app.py:26 | a poll with a larger id than every option's poll has no options |
| Seed.SeededPolls | app.py:47-49 | seeding appends one poll per seed entry, in order, under the next ids, and keeps the existing polls |
| Seed.SeededOptions | app.py:50-52 | seeding appends as many option rows as the seed entries have texts, and keeps the existing rows |
| Seed.SeededKeepsOldPolls | app.py:47-53 | seeding gives no new option to a poll that existed before |
| Seed.SeededOptionsOf | app.py:47-53 | after seeding, the k-th seeded poll's options are exactly the rows made from its own texts |
| Seed.SeedShape | app.py:41-45 | the example data has 3 polls of 4 options each, 12 texts in all |
| Seed.SeedingAddsThreePolls | app.py:41-53 | seeding adds three polls with their questions; each new poll has exactly four options; 12 option rows in all; older polls keep their options |
| App.Login | app.py:133-146 | login succeeds exactly on a POST with the admin name and a matching password; only then is the admin cookie added; a failed POST reports invalid credentials |
| App.LoginGrantsAdmin | app.py:139-144 | after a successful login the jar holds the admin cookie; after any other outcome admin status is as before |
| App.VoteResponse | app.py:89-107 | a vote is counted only for an existing poll, on a POST, without that poll's cookie, with an option selected |
| App.VoteCookies | app.py:101-103 | the vote handler only ever adds that poll's cookie to the jar |
| App.OneVotePerPoll | app.py:91-102 | after a counted vote, sending back the returned jar makes any further vote in that poll "already voted" |
| App.VoteCookieIsPerPoll | app.py:91-102 | the cookie for one poll does not change how a vote in any other poll is answered |
| App.PollStore.constructor | app.py:39 | a new store has three empty tables, and they are consistent |
| App.PollStore.GetPoll | app.py:89 | a poll is found exactly when a row with that id exists, and the row found has that id |
| App.PollStore.TotalVotes | app.py:20-21 | the total equals the number of votes for an option of the poll, and also the sum of its options' vote counts |
| App.PollStore.Results | app.py:81-85 | the results page is not found exactly when the poll is missing; otherwise it shows that poll and its vote total |
| App.PollStore.UniqueOptionIds | app.py:24 | in a consistent store, option ids are unique |
| App.PollStore.AddPoll | app.py:122-126 | a poll row is appended under the next id |
| App.PollStore.AddOptions | app.py:123-125 | one option row per text is appended, in order, under the next ids, pointing to the poll |
| App.PollStore.HandleVote | app.py:87-107 | there is one outcome per branch, with both directions stated (not found, form, already voted, no option, counted). Only a counted vote appends exactly one vote and adds that poll's cookie, and the poll's total then rises by one if the option belongs to it. Otherwise nothing changes |
| App.PollStore.HandleCreatePoll | app.py:109-131 | there is one outcome per branch, with both directions stated (login redirect, form, invalid, created). Only a valid POST appends the poll under the next id, then one option per non-empty field in order. Otherwise nothing changes, and votes never change |
| App.PollStore.InitDb | app.py:37-62 | with the store file present, nothing changes. Otherwise the polls and options become what seeding the example data gives, and 50 votes are appended, each naming an existing option |
| App.PollStore.AddSeedPolls | app.py:47-53 | the tables become the seeding function of the old tables and the seed list |
| App.PollStore.AddPollWithOptions | app.py:48-52 | one poll row, then one option row per text pointing to it |
| App.PollStore.AddRandomVotes | app.py:57-62 | `count` votes are appended after the old ones, each naming one of the store's options |

## Left out

- Rendering, `flash` messages, `redirect` targets and the cookie's
  `max_age`: only the response kind and the cookie names are modelled.
- The "no option selected" response and the plain GET of the vote page both
  render the same template. The model keeps them as two outcomes, since they
  differ only in the flash message.
- Persistence, sessions and commit atomicity: each handler updates the
  tables in one step.
- The order in which the create handler adds rows to the session
  (options before the poll) is not modelled. The poll row is flushed first
  in any case, because the options depend on it.
- Column widths (200 and 100 characters) and `nullable`: unbounded strings.
- Cascade deletes: no route deletes anything, so they never run.
- Foreign-key enforcement: not modelled. A vote may name an option id that
  does not exist, as SQLite allows by default.
- `bcrypt` hashing and comparison: a boolean parameter. A POST with the
  admin name and no password field crashes, and that crash is not modelled.
- The vote form's option field: modelled as an optional integer. SQLite's
  type affinity would accept a non-numeric string; that case is not modelled.
- `random.choice`: an arbitrary choice per vote, so uniformity is not stated.
- The seeding guard: a boolean parameter answering whether the store file
  exists. Two things about the real check are not modelled. It tests the
  relative path `data/polls.db`, while the store lives under the application
  directory. And `create_all` with a store that already has rows keeps them;
  the model simply appends to the tables it is given.
- Creating the `data` directory before each request: file-system work with
  nothing to model.
- The home page's poll listing, logout, the health endpoint, the secret key
  and starting the server: no store logic.
- App.PollStore.InitDb: states that each seeded vote names some existing
  option. It does not say which one, because the choice is random.
