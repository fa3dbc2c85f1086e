# Poll command module, modelled in Dafny

A model of the poll logic of a chat-bot module (`poll.py`). Users create a
multiple-choice poll with `<question> - <choice>, <choice>, ...`, vote with
`<poll id> <choice number>` (one vote per participant), and the poll ends
when someone in its channel closes it or its timeout fires. At the end the
module announces the winner, or the tie between the choices sharing the
largest count.

The project is made of six modules:

- `Wrappers` (`wrappers.dfy`): `Option`.
- `PyStr` (`pystr.dfy`): Python's `str.split(sep)`, `str.split(sep, 1)` and
  `sep.join(parts)` on `seq<char>`, for a non-empty separator. The contracts
  say that joining the parts back gives the input and that no part contains
  the separator.
- `PyInt` (`pyint.dfy`): `str(n)` for counts, and a simplified `int(token)`,
  with the round trip `int(str(n)) == n`.
- `Tally` (`tally.dfy`): the `Poll` class, with its tally (`responses`, a map
  from choice number to count) and `voted` list updated in place. It also
  holds `results()`: a loop that pairs each choice with its count in key
  order, then a stable sort by count, largest first. `SortDesc` is proved
  ordered by count, a permutation of its input, and stable: for every count,
  the entries with that count stay in their input order.
- `Announce` (`announce.dfy`): `plural`, the winners filter and the
  announcement text.
- `Registry` (`registry.dfy`): the `PollModule` class, with its `polls` map
  from id to `Poll`. It has the `create_`, `respond_`, `end_` and `endpoll`
  operations, the create-argument parsing and the subcommand routing of
  `poll_`. Replies come back as `Out` values: `Reply(body)` answers the
  issuing message, and `Send(target, body)` delivers a body to a channel.

Every operation follows the source except where "## Left out" says
otherwise. The model keeps these quirks of the source:

- An id already in use is overwritten without a check (`Create`). The
  timeout callback ends the poll it was created for, but pops whatever is
  filed under that id (`EndPoll`).
- The creator check in `end_` replies and does not return. Anyone in the
  poll's channel closes the poll (`End`).
- The "Poll ended with no votes" text cannot be reached, because the result
  list has one entry per choice (`NoVotesUnreachable`). A poll nobody voted
  in announces a tie between all choices "for 0 votes" (`ZeroTallyIsTie`).
- Tied winners are joined with `", and "` throughout: `A, and B, and C`.
- `Poll.__init__` takes the question but never stores it.

## Model

| member | source | states |
|---|---|---|
| `PyStr.Split` | poll.py:130 | `s.split(sep)`: at least one part, the parts joined with `sep` (`PyStr.Join`, `sep.join`) give `s` back, no part contains `sep`, there is exactly one part iff `sep` does not occur, and with more than one part the first cut is at the leftmost occurrence |
| `PyStr.SplitOnce` | poll.py:74 | `s.split(sep, 1)`: one or two parts that join back to `s`, two iff `sep` occurs, the first part contains no `sep`, and with two parts the leftmost occurrence of `sep` starts right after the first part |
| `PyStr.Find` | poll.py:74 | the leftmost occurrence of the separator at or after a position, or none at all |
| `PyInt.NatToString` | poll.py:122 | `str(n)`: a non-empty all-digit numeral whose decimal value is `n`, with no leading zero |
| `PyInt.ParseInt` | poll.py:142-146 | `int(token)`: a value exactly when the token is one or more digits with an optional leading sign; the value is the digits' decimal value, negated after a `-` |
| `PyInt.ParseNatToString` | poll.py:143 | `int(str(n)) == n`, also with a `+` or `-` sign in front |
| `PyInt.ParseIntRejects` | poll.py:142-146 | a token with a character that is neither a digit nor a leading sign makes `int()` fail |
| `Tally.ZeroTally` | poll.py:16 | the keys of `{i: 0 for i in range(1, n+1)}` are exactly 1..n, and every count is 0 |
| `Tally.ZeroTallySum` | poll.py:16-17 | an all-zero tally sums to 0, which is the length of the empty `voted` list |
| `Tally.Poll.constructor` | poll.py:13-22 | a new poll keeps its id, choices, origin and author; its tally keys are 1..n, all 0; `voted` is empty; the invariant (sum of counts = number of voters, no voter twice) holds |
| `Tally.IncrementSum` | poll.py:157-158 | adding one to the count of a choice number 1..n adds one to the total |
| `Tally.Pairs` | poll.py:25-27 | the loop's list has one `(choices[i-1], responses[i])` pair per key, in key order |
| `Tally.InsertPermutes` | poll.py:29 | one insertion step of the sort (`Tally.Insert`) adds exactly the inserted entry to the multiset of entries |
| `Tally.InsertSorted` | poll.py:29 | inserting into a list with non-increasing counts keeps the counts non-increasing |
| `Tally.InsertStable` | poll.py:29 | after an insert, the entries of each count are the inserted entry (if its count matches) followed by the old ones, in their old order |
| `Tally.SortDescCorrect` | poll.py:29 | `Tally.SortDesc` is `sorted(ret, key=count, reverse=True)`: counts never increase, the result is a permutation, and for every count the entries with that count keep their input order (stability) |
| `Tally.WithCount` | poll.py:119 | the entries picked for a count all carry that count and are no more than the input |
| `Tally.WithCountMembers` | poll.py:119 | the filter keeps every entry with that count and nothing else |
| `Tally.MaxCount` | poll.py:119 | the largest count: no entry exceeds it and some entry carries it |
| `Tally.SortedHeadIsMax` | poll.py:29-31 | the first sorted result carries the largest count of the tally |
| `Tally.Poll.Results` | poll.py:24-31 | `results()` is `Tally.ResultsOf` of the poll's state: one pair per choice, sorted by count with counts non-increasing, a permutation of the pairs, ties kept in choice order |
| `Announce.Plural` | poll.py:9-10 | the suffix is "s" iff the count is not 1, and "" iff it is 1 |
| `Announce.Winners` | poll.py:119 | the kept entries of a non-empty list start with its first entry and all carry its count |
| `Announce.WinnersArePrefix` | poll.py:119 | on sorted results the winners are a non-empty prefix, and every entry after it has a strictly smaller count |
| `Announce.ChoiceNames` | poll.py:124 | the winners' choice texts, one per winner, in order |
| `Announce.AnnouncementOfTally` | poll.py:109-125 | specifies `Announce.Announcement`, `WinnerText` and `TieText`: for a poll with a choice, the winners are exactly the choices with the largest count (every such entry is kept, no other), in choice order; the text is "Results are in: Winner is '<c>' with <w> vote<s>" if there is one winner, else "There is a tie between <c1>, and <c2>..., for <w> vote<s>" |
| `Announce.NoVotesUnreachable` | poll.py:113-117 | a poll with a choice never announces "Poll ended with no votes" |
| `Announce.ZeroTallyIsTie` | poll.py:119-125 | with every count 0, the text is a tie between all the choices "for 0 votes" |
| `Announce.ThreeWayTieText` | poll.py:124 | three winners are joined as "A, and B, and C" |
| `Announce.TieExample` | poll.py:119-125 | counts A:3, B:3, C:1 announce "There is a tie between A, and B, for 3 votes" |
| `Announce.WinnerExample` | poll.py:121-122 | counts Red:5, Blue:2 announce "Results are in: Winner is 'Red' with 5 votes" |
| `Announce.SingleVoteExample` | poll.py:9-10 | a winner with one vote is announced "with 1 vote", without the "s" |
| `Registry.Route` | poll.py:58-69 | no space in the text is the unpacking failure. Otherwise the first word picks create, end or respond. Then a live poll id routes to respond with the whole text back, and anything else is unknown |
| `Registry.ParseCreate` | poll.py:72-78 | the question is the text before the first " - " (empty without one), it holds no " - ", and question, " - " and the choices joined by ", " rebuild the input; no choice holds ", " |
| `Registry.OptionLines` | poll.py:90 | the options reply (`Registry.OptionsText`, "Options are - " and these entries joined by ", ") has the entry "i: choice" for each choice number i in order |
| `Registry.PollModule.constructor` | poll.py:48 | the module starts with no polls |
| `Registry.PollModule.VoteVerdict` | poll.py:129-155 | each verdict holds exactly when the earlier checks pass and its own fails, in the source's order: not two space-separated tokens, unknown id, not a number, outside 1..n (reporting n), already voted; a vote is accepted iff all checks pass, and then it names the typed id and the parsed number, a live poll, a choice within 1..n and an author who has not voted in it |
| `Registry.ThanksIffAccepted` | poll.py:131-159 | the reply texts of `Registry.VerdictText`: the voter is thanked iff the vote is accepted, and every rejection replies with something else |
| `Registry.PollModule.Create` | poll.py:72-90 | one choice or none: reply "Polls need more than one option", polls unchanged. Otherwise a fresh poll with those choices, a zero tally and no voters is filed under the id (overwriting any entry), and the created reply (`Registry.CreatedText`: the id and the range 1-n) and the options reply are returned |
| `Registry.PollModule.Respond` | poll.py:129-159 | the reply follows the checks in the source's order (arity, id, number, range, already voted). An accepted vote appends the author and adds one to that count only, and the same vote sent again is then refused as already voted. Any rejection leaves every poll unchanged. The invariant (sum = voters, no voter twice) is kept |
| `Registry.PollModule.Dispatch` | poll.py:58-69 | `poll_` runs the subcommand `Route` picks. An unknown subcommand replies "Unknown subcommand" and text without a space replies nothing; both change nothing. A create has `Create`'s full effect: a fresh poll with those choices, origin and author, a zero tally and no voters, filed under the id, or nothing on fewer than two choices. An end has `End`'s replies and removal. A vote has its verdict's reply and, when accepted, appends the author and adds one to the chosen count of that poll only. Every poll not acted on keeps its contents |
| `Registry.PollModule.End` | poll.py:93-106 | unknown id (`Registry.NotFoundText`) or another channel: that reply, polls unchanged. Otherwise the poll is removed and its announcement sent to its channel, preceded by the creator warning when the closer is not the creator |
| `Registry.PollModule.EndPoll` | poll.py:109-126 | the entry under the poll's id is removed and the poll's announcement is sent to its origin; without such an entry (a `KeyError`) nothing changes and nothing is sent |

## Left out

- Id generation (`get_randstring`, a uuid prefix) is random; the id is a parameter of `Create`.
- Timers: the `call_later` timeout, `callback.cancel()` and `shutdown` are event-loop plumbing and are not modelled. A timeout firing is a call of `EndPoll` with the poll the timer was created for.
- Transport: `reply`, `send_to` and `Message` are not modelled; replies are returned as `Out` values.
- Configuration (`Configurer`, the timeout option) has no bearing on the logic and is not modelled.
- The command table in `init` (`prespond`, `pvote`, `pcreate`, `pend`) is dispatch into the methods modelled here and is not modelled.
- `PyInt.ParseInt`: Python's `int()` also accepts surrounding whitespace other than spaces, `_` digit separators and non-ASCII digits; the model accepts only an optional sign and ASCII digits.
- `Poll.__init__` without an origin message (its default arguments) is not modelled: the module always passes the message, and without it the poll has no origin or author.
- `Registry.PollModule.Dispatch`, `Registry.PollModule.EndPoll`: exceptions are values: the `ValueError` when `poll_`'s text has no space is `Registry.NoArguments` (`Dispatch` then replies nothing and changes nothing; what the bot framework does with the exception is not modelled), and the `KeyError` of `endpoll` on a missing id is `None`.
- Concurrency: the source runs on one event loop without locking; operations are modelled as sequential calls.
