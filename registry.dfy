/** The poll command module: the live polls by id, the routing of the
    `poll` command to its subcommands, and the create, vote and end
    operations with the replies they produce. Replies are returned rather
    than sent: `Reply` answers the message that issued the command, `Send`
    delivers a body to a channel. */
module Registry {
  import opened Wrappers
  import opened PyStr
  import opened PyInt
  import opened Tally
  import opened Announce

  datatype Out = Reply(body: string) | Send(target: string, body: string)

  // ----- routing of `poll <sub> <rest>` -----

  const CREATE_WORDS := ["create", "new"]
  const END_WORDS := ["end", "endpoll"]
  const RESPOND_WORDS := ["respond", "resp", "vote"]

  /** The handler `poll_` passes the command to, with the argument text it
      passes. `NoArguments` is the case where unpacking the split fails
      (a `ValueError`: the text has no space). */
  datatype Command =
    | CreateCmd(args: string)
    | EndCmd(args: string)
    | RespondCmd(args: string)
    | UnknownSubcommand
    | NoArguments

  const UNKNOWN_SUBCOMMAND := "Unknown subcommand"

  /** `poll_`: the first word picks the subcommand; a first word that is a
      live poll id is a vote, and the vote handler gets the whole text back. */
  function Route(args: string, live: set<string>): (c: Command)
    ensures c.NoArguments? <==> !Contains(args, " ")
    ensures Contains(args, " ") ==>
      var sub := SplitOnce(args, " ")[0];
      var rest := SplitOnce(args, " ")[1];
      && args == sub + " " + rest
      && (c.CreateCmd? <==> sub in CREATE_WORDS)
      && (c.EndCmd? <==> sub in END_WORDS)
      && (c.RespondCmd? <==> sub in RESPOND_WORDS || (sub !in CREATE_WORDS + END_WORDS && sub in live))
      && (c.UnknownSubcommand? <==> sub !in CREATE_WORDS + END_WORDS + RESPOND_WORDS && sub !in live)
      && (c.CreateCmd? || c.EndCmd? || (c.RespondCmd? && sub in RESPOND_WORDS) ==> c.args == rest)
      && (c.RespondCmd? && sub !in RESPOND_WORDS ==> c.args == args)
  {
    var parts := SplitOnce(args, " ");
    if |parts| != 2 then NoArguments
    else
      var sub, rest := parts[0], parts[1];
      if sub in CREATE_WORDS then CreateCmd(rest)
      else if sub in END_WORDS then EndCmd(rest)
      else if sub in RESPOND_WORDS then RespondCmd(rest)
      else if sub in live then RespondCmd(sub + " " + rest)
      else UnknownSubcommand
  }

  // ----- parsing of `<question> - <choice>, <choice>, ...` -----

  datatype CreateArgs = CreateArgs(question: string, choices: seq<string>)

  /** The question is the text before the first " - " ("" without one);
      the choices are what follows, cut at every ", ". */
  function ParseCreate(args: string): (c: CreateArgs)
    ensures |c.choices| >= 1
    ensures forall i :: 0 <= i < |c.choices| ==> !Contains(c.choices[i], ", ")
    ensures !Contains(args, " - ") ==> c.question == "" && Join(", ", c.choices) == args
    ensures Contains(args, " - ") ==>
      && !Contains(c.question, " - ")
      && Find(args, " - ", 0) == Some(|c.question|)
      && args == c.question + " - " + Join(", ", c.choices)
  {
    var q := SplitOnce(args, " - ");
    if |q| == 2 then CreateArgs(q[0], Split(q[1], ", "))
    else CreateArgs("", Split(q[0], ", "))
  }

  // ----- reply texts -----

  const NEED_MORE_OPTIONS := "Polls need more than one option"
  const WRONG_CHANNEL := "Please close this poll in the channel it was opened in"
  const ONLY_CREATOR := "Only the poll creator can close this poll"

  function NotFoundText(id: string): string
  {
    "Poll '" + id + "' not found!"
  }

  function CreatedText(id: string, n: nat): string
  {
    "Poll '" + id + "' created! PM your response with !poll respond " + id
      + " <num 1-" + NatToString(n) + ">"
  }

  /** The first `k` entries "i: choice" of the options listing. */
  function OptionLines(choices: seq<string>, k: nat): (lines: seq<string>)
    requires k <= |choices|
    ensures |lines| == k
    ensures forall i :: 0 <= i < k ==> lines[i] == NatToString(i + 1) + ": " + choices[i]
  {
    if k == 0 then [] else OptionLines(choices, k - 1) + [NatToString(k) + ": " + choices[k - 1]]
  }

  function OptionsText(choices: seq<string>): string
  {
    "Options are - " + Join(", ", OptionLines(choices, |choices|))
  }

  /** How `respond_` settles a vote, checked in this order. */
  datatype Verdict =
    | WrongArity
    | UnknownPoll
    | NotANumber
    | OutOfRange(choices: nat)
    | AlreadyVoted
    | Accepted(id: string, choice: int)

  function VerdictText(v: Verdict): string
  {
    match v
    case WrongArity => "Please respond with the poll id, followed by a response number"
    case UnknownPoll => "Invalid poll id"
    case NotANumber => "Response must be a number"
    case OutOfRange(n) => "There are only " + NatToString(n) + " choices, please select 1-" + NatToString(n)
    case AlreadyVoted => "You already voted in this poll!"
    case Accepted(_, _) => THANKS
  }

  const THANKS := "Thanks for the vote :)"

  /** The voter is thanked exactly when the vote is counted; every
      rejection replies with something else. */
  lemma ThanksIffAccepted(v: Verdict)
    ensures VerdictText(v) == THANKS <==> v.Accepted?
  {
    var t := VerdictText(v);
    match v
    case WrongArity => assert |t| != |THANKS|;
    case UnknownPoll => assert t[0] == 'I';
    case NotANumber => assert t[0] == 'R';
    case OutOfRange(_) => assert t[2] == 'e';
    case AlreadyVoted => assert t[0] == 'Y';
    case Accepted(_, _) =>
  }

  /** The live polls. Poll ids are supplied by the caller; an id already in
      use is overwritten, as in the source. */
  class PollModule {
    var polls: map<string, Poll>

    /** Every live poll is filed under its own id, has at least two choices
        and keeps its tally invariant. Filing by id makes the polls distinct
        objects. */
    ghost predicate Valid()
      reads this, polls.Values
    {
      forall id :: id in polls ==>
        polls[id].pollid == id && |polls[id].choices| >= 2 && polls[id].Valid()
    }

    /** `init()`: no polls. */
    constructor ()
      ensures Valid() && polls == map[]
    {
      polls := map[];
    }

    /** The verdict `respond_` reaches on `args` from `author`. */
    function VoteVerdict(args: string, author: string): (v: Verdict)
      reads this, polls.Values
      ensures v.Accepted? ==> v.id in polls && 1 <= v.choice <= |polls[v.id].choices|
      ensures v.Accepted? ==> author !in polls[v.id].voted
      ensures var ls := Split(args, " ");
        && (v == WrongArity <==> |ls| != 2)
        && (v == UnknownPoll <==> |ls| == 2 && ls[0] !in polls)
        && (v == NotANumber <==> |ls| == 2 && ls[0] in polls && ParseInt(ls[1]).None?)
        && (v.OutOfRange? <==>
              |ls| == 2 && ls[0] in polls && ParseInt(ls[1]).Some?
              && !(1 <= ParseInt(ls[1]).value <= |polls[ls[0]].choices|))
        && (v.OutOfRange? ==> v.choices == |polls[ls[0]].choices|)
        && (v == AlreadyVoted <==>
              |ls| == 2 && ls[0] in polls && ParseInt(ls[1]).Some?
              && 1 <= ParseInt(ls[1]).value <= |polls[ls[0]].choices| && author in polls[ls[0]].voted)
        && (v.Accepted? <==>
              |ls| == 2 && ls[0] in polls && ParseInt(ls[1]).Some?
              && 1 <= ParseInt(ls[1]).value <= |polls[ls[0]].choices| && author !in polls[ls[0]].voted)
        && (v.Accepted? ==> |ls| == 2 && v.id == ls[0] && ParseInt(ls[1]) == Some(v.choice))
    {
      var ls := Split(args, " ");
      if |ls| != 2 then WrongArity
      else if ls[0] !in polls then UnknownPoll
      else
        var p := polls[ls[0]];
        match ParseInt(ls[1])
        case None => NotANumber
        case Some(r) =>
          if r <= 0 || r > |p.choices| then OutOfRange(|p.choices|)
          else if author in p.voted then AlreadyVoted
          else Accepted(ls[0], r)
    }

    /** `create_(args)` on a message from `author` in channel `origin`,
        registering the new poll under `id`. */
    method Create(args: string, id: string, origin: string, author: string) returns (out: seq<Out>)
      requires Valid()
      modifies this
      ensures Valid()
      ensures var c := ParseCreate(args);
        if |c.choices| <= 1 then
          polls == old(polls) && out == [Reply(NEED_MORE_OPTIONS)]
        else
          && id in polls && fresh(polls[id])
          && polls == old(polls)[id := polls[id]]
          && polls[id].choices == c.choices
          && polls[id].origin == origin && polls[id].author == author
          && polls[id].voted == []
          && (forall i :: i in polls[id].responses ==> polls[id].responses[i] == 0)
          && out == [Reply(CreatedText(id, |c.choices|)), Reply(OptionsText(c.choices))]
    {
      var c := ParseCreate(args);
      if |c.choices| <= 1 {
        return [Reply(NEED_MORE_OPTIONS)];
      }
      var p := new Poll(id, c.choices, c.question, origin, author);
      polls := polls[id := p];
      out := [Reply(CreatedText(id, |p.choices|)), Reply(OptionsText(p.choices))];
    }

    /** `respond_(args)` on a message from `author`: on acceptance the
        author joins `voted` and exactly one count goes up by one; every
        rejection leaves every poll as it was. */
    method Respond(args: string, author: string) returns (out: Out)
      requires Valid()
      modifies polls.Values
      ensures Valid() && polls == old(polls)
      ensures out == Reply(VerdictText(old(VoteVerdict(args, author))))
      ensures var v := old(VoteVerdict(args, author));
        v.Accepted? ==>
          && polls[v.id].voted == old(polls[v.id].voted) + [author]
          && polls[v.id].responses
             == old(polls[v.id].responses)[v.choice := old(polls[v.id].responses[v.choice]) + 1]
      ensures old(VoteVerdict(args, author)).Accepted? ==> VoteVerdict(args, author) == AlreadyVoted
      ensures var v := old(VoteVerdict(args, author));
        forall id :: id in polls && !(v.Accepted? && v.id == id) ==>
          polls[id].voted == old(polls[id].voted) && polls[id].responses == old(polls[id].responses)
    {
      var ls := Split(args, " ");
      if |ls| != 2 {
        return Reply(VerdictText(WrongArity));
      }
      var pollid, response := ls[0], ls[1];
      if pollid !in polls {
        return Reply(VerdictText(UnknownPoll));
      }
      var p := polls[pollid];
      var parsed := ParseInt(response);
      if parsed.None? {
        return Reply(VerdictText(NotANumber));
      }
      var r := parsed.value;
      if 0 >= r || r > |p.choices| {
        return Reply(VerdictText(OutOfRange(|p.choices|)));
      }
      if author in p.voted {
        return Reply(VerdictText(AlreadyVoted));
      }
      IncrementSum(p.responses, |p.choices|, r);
      p.voted := p.voted + [author];
      p.responses := p.responses[r := p.responses[r] + 1];
      out := Reply(VerdictText(Accepted(pollid, r)));
    }

    /** `end_(args)` on a message from `author` in channel `origin`. The
        creator check only replies: anyone in the poll's channel closes it. */
    method End(args: string, origin: string, author: string) returns (out: seq<Out>)
      requires Valid()
      modifies this
      ensures Valid()
      ensures args !in old(polls) ==> polls == old(polls) && out == [Reply(NotFoundText(args))]
      ensures args in old(polls) && old(polls[args].origin) != origin ==>
        polls == old(polls) && out == [Reply(WRONG_CHANNEL)]
      ensures args in old(polls) && old(polls[args].origin) == origin ==>
        && polls == old(polls) - {args}
        && out == (if old(polls[args].author) != author then [Reply(ONLY_CREATOR)] else [])
                  + [Send(origin, old(Announcement(ResultsOf(polls[args].choices, polls[args].responses))))]
    {
      if args !in polls {
        return [Reply(NotFoundText(args))];
      }
      var p := polls[args];
      if p.origin != origin {
        return [Reply(WRONG_CHANNEL)];
      }
      out := [];
      if p.author != author {
        out := [Reply(ONLY_CREATOR)];
      }
      var sent := EndPoll(p);
      out := out + [sent.value];
    }

    /** `endpoll(poll)`, from `end_` or from the poll's timeout: removes
        whatever is filed under the poll's id and announces the poll's
        results in its channel. `None` is the `KeyError` raised when
        nothing is filed under that id. */
    method EndPoll(p: Poll) returns (sent: Option<Out>)
      requires Valid() && p.Valid()
      modifies this
      ensures Valid()
      ensures p.pollid in old(polls) ==>
        && polls == old(polls) - {p.pollid}
        && sent == Some(Send(p.origin, Announcement(ResultsOf(p.choices, p.responses))))
      ensures p.pollid !in old(polls) ==> polls == old(polls) && sent == None
    {
      if p.pollid !in polls {
        return None;
      }
      polls := polls - {p.pollid};
      var results := p.Results();
      sent := Some(Send(p.origin, Announcement(results)));
    }

    /** `poll_(args)` on a message from `author` in channel `origin`: runs
        the subcommand `Route` picks. `id` is the id a created poll is filed
        under. Text without a space raises before anything happens, so
        nothing changes and nothing is replied. */
    method Dispatch(args: string, id: string, origin: string, author: string) returns (out: seq<Out>)
      requires Valid()
      modifies this, polls.Values
      ensures Valid()
      ensures var c := old(Route(args, polls.Keys));
        (c.NoArguments? || c.UnknownSubcommand?) ==>
          && polls == old(polls) && unchanged(old(polls).Values)
          && out == (if c.UnknownSubcommand? then [Reply(UNKNOWN_SUBCOMMAND)] else [])
      ensures var c := old(Route(args, polls.Keys));
        c.RespondCmd? ==>
          var v := old(VoteVerdict(c.args, author));
          && polls == old(polls)
          && out == [Reply(VerdictText(v))]
          && (v.Accepted? ==>
                && polls[v.id].voted == old(polls[v.id].voted) + [author]
                && polls[v.id].responses
                   == old(polls[v.id].responses)[v.choice := old(polls[v.id].responses[v.choice]) + 1])
          && (forall pid :: pid in polls && !(v.Accepted? && v.id == pid) ==>
                polls[pid].voted == old(polls[pid].voted) && polls[pid].responses == old(polls[pid].responses))
      ensures var c := old(Route(args, polls.Keys));
        c.CreateCmd? ==>
          var pc := ParseCreate(c.args);
          && unchanged(old(polls).Values)
          && if |pc.choices| <= 1 then
               polls == old(polls) && out == [Reply(NEED_MORE_OPTIONS)]
             else
               && id in polls && fresh(polls[id])
               && polls == old(polls)[id := polls[id]]
               && polls[id].choices == pc.choices
               && polls[id].origin == origin && polls[id].author == author
               && polls[id].voted == []
               && (forall i :: i in polls[id].responses ==> polls[id].responses[i] == 0)
               && out == [Reply(CreatedText(id, |pc.choices|)), Reply(OptionsText(pc.choices))]
      ensures var c := old(Route(args, polls.Keys));
        c.EndCmd? ==>
          && unchanged(old(polls).Values)
          && if c.args !in old(polls) then
               polls == old(polls) && out == [Reply(NotFoundText(c.args))]
             else if old(polls[c.args].origin) != origin then
               polls == old(polls) && out == [Reply(WRONG_CHANNEL)]
             else
               && polls == old(polls) - {c.args}
               && out == (if old(polls[c.args].author) != author then [Reply(ONLY_CREATOR)] else [])
                         + [Send(origin, old(Announcement(ResultsOf(polls[c.args].choices, polls[c.args].responses))))]
    {
      var c := Route(args, polls.Keys);
      match c
      case NoArguments =>
        out := [];
      case UnknownSubcommand =>
        out := [Reply(UNKNOWN_SUBCOMMAND)];
      case CreateCmd(rest) =>
        out := Create(rest, id, origin, author);
      case EndCmd(rest) =>
        out := End(rest, origin, author);
      case RespondCmd(rest) =>
        var reply := Respond(rest, author);
        out := [reply];
    }
  }
}
