/** The text a closing poll announces: keep the result entries that share
    the first (largest) count, then name the single winner or list the tie. */
module Announce {
  import opened PyStr
  import opened PyInt
  import opened Tally

  /** `plural(n)`: the suffix of "vote". */
  function Plural(n: int): (suffix: string)
    ensures suffix == "s" <==> n != 1
    ensures suffix == "" <==> n == 1
  {
    if n != 1 then "s" else ""
  }

  /** `[i for i in results if i[1] == results[0][1]]`. */
  function Winners(results: seq<Entry>): (w: seq<Entry>)
    ensures |results| > 0 ==> |w| > 0 && w[0] == results[0]
    ensures |results| > 0 ==> forall i :: 0 <= i < |w| ==> w[i].count == results[0].count
  {
    if |results| == 0 then [] else WithCount(results, results[0].count)
  }

  /** On sorted results, the winners are a non-empty prefix: every entry
      after it has a strictly smaller count. */
  lemma {:induction false} WinnersArePrefix(results: seq<Entry>)
    requires |results| > 0 && NonIncreasing(results)
    ensures 1 <= |Winners(results)| <= |results|
    ensures Winners(results) == results[..|Winners(results)|]
    ensures forall i :: |Winners(results)| <= i < |results| ==> results[i].count < results[0].count
  {
    if |results| > 1 {
      var tail := results[1..];
      if tail[0].count == results[0].count {
        WinnersArePrefix(tail);
        WithCountCons(results[0], tail, results[0].count);
        assert [results[0]] + tail == results;
      } else {
        WithCountNone(tail, results[0].count);
        WithCountCons(results[0], tail, results[0].count);
        assert [results[0]] + tail == results;
      }
    }
  }

  lemma {:induction false} WithCountNone(s: seq<Entry>, c: nat)
    requires forall i :: 0 <= i < |s| ==> s[i].count < c
    ensures WithCount(s, c) == []
  {
    if |s| > 0 {
      WithCountNone(s[1..], c);
    }
  }

  /** The choices of the winning entries: `['{}'.format(i[0]) for i in results]`. */
  function ChoiceNames(w: seq<Entry>): (names: seq<string>)
    ensures |names| == |w|
    ensures forall i :: 0 <= i < |w| ==> names[i] == w[i].choice
  {
    if |w| == 0 then [] else [w[0].choice] + ChoiceNames(w[1..])
  }

  const NO_VOTES := "Poll ended with no votes"

  function WinnerText(choice: string, votes: nat): string
  {
    "Results are in: Winner is '" + choice + "' with " + NatToString(votes) + " vote" + Plural(votes)
  }

  function TieText(names: seq<string>, votes: nat): string
  {
    "There is a tie between " + Join(", and ", names) + ", for " + NatToString(votes) + " vote" + Plural(votes)
  }

  /** The body `endpoll` sends for the result list `results`. */
  function Announcement(results: seq<Entry>): string
  {
    if |results| == 0 then NO_VOTES
    else
      var w := Winners(results);
      if |w| == 1 then WinnerText(w[0].choice, w[0].count)
      else TieText(ChoiceNames(w), w[0].count)
  }

  /** What a poll with at least one choice announces, stated on its tally
      without reference to the sort: the winners are the choices whose
      count is the largest, in choice order. */
  lemma AnnouncementOfTally(choices: seq<string>, responses: map<int, nat>)
    requires |choices| > 0 && TallyKeys(responses, |choices|)
    ensures var pairs := Pairs(choices, responses, |choices|);
            var top := MaxCount(pairs);
            var w := WithCount(pairs, top);
            && |w| >= 1
            && (forall e :: e in w <==> e in pairs && e.count == top)
            && Winners(ResultsOf(choices, responses)) == w
            && Announcement(ResultsOf(choices, responses))
               == if |w| == 1 then WinnerText(w[0].choice, top) else TieText(ChoiceNames(w), top)
  {
    var pairs := Pairs(choices, responses, |choices|);
    var r := SortDesc(pairs);
    SortDescCorrect(pairs);
    SortedHeadIsMax(pairs);
    WithCountMembers(pairs, MaxCount(pairs));
    assert Winners(r) == WithCount(pairs, MaxCount(pairs));
  }

  /** The "no votes" text is never sent for a poll with a choice: the
      result list always has one entry per choice. */
  lemma NoVotesUnreachable(choices: seq<string>, responses: map<int, nat>)
    requires |choices| > 0 && TallyKeys(responses, |choices|)
    ensures Announcement(ResultsOf(choices, responses)) != NO_VOTES
  {
    var r := ResultsOf(choices, responses);
    var w := Winners(r);
    if |w| == 1 {
      assert WinnerText(w[0].choice, w[0].count)[0] == 'R';
    } else {
      assert TieText(ChoiceNames(w), w[0].count)[0] == 'T';
    }
  }

  lemma {:induction false} ZeroPairs(choices: seq<string>, responses: map<int, nat>, k: nat)
    requires k <= |choices|
    requires forall i :: 1 <= i <= k ==> i in responses && responses[i] == 0
    ensures WithCount(Pairs(choices, responses, k), 0) == Pairs(choices, responses, k)
    ensures ChoiceNames(Pairs(choices, responses, k)) == choices[..k]
  {
    if k > 0 {
      ZeroPairs(choices, responses, k - 1);
      var front := Pairs(choices, responses, k - 1);
      var last := Entry(choices[k - 1], responses[k]);
      WithCountAppend(front, [last], 0);
      ChoiceNamesAppend(front, [last]);
      assert choices[..k] == choices[..k - 1] + [choices[k - 1]];
    }
  }

  lemma {:induction false} WithCountAppend(a: seq<Entry>, b: seq<Entry>, c: nat)
    ensures WithCount(a + b, c) == WithCount(a, c) + WithCount(b, c)
  {
    if |a| == 0 {
      assert a + b == b;
    } else {
      WithCountAppend(a[1..], b, c);
      assert a + b == [a[0]] + (a[1..] + b);
      assert a == [a[0]] + a[1..];
      WithCountCons(a[0], a[1..] + b, c);
      WithCountCons(a[0], a[1..], c);
    }
  }

  lemma ChoiceNamesAppend(a: seq<Entry>, b: seq<Entry>)
    ensures ChoiceNames(a + b) == ChoiceNames(a) + ChoiceNames(b)
  {
    assert |ChoiceNames(a + b)| == |ChoiceNames(a) + ChoiceNames(b)|;
  }

  /** With nobody having voted, every choice ties "for 0 votes". */
  lemma ZeroTallyIsTie(choices: seq<string>, responses: map<int, nat>)
    requires |choices| >= 2 && TallyKeys(responses, |choices|)
    requires forall i :: i in responses ==> responses[i] == 0
    ensures Announcement(ResultsOf(choices, responses))
         == "There is a tie between " + Join(", and ", choices) + ", for 0 votes"
  {
    var pairs := Pairs(choices, responses, |choices|);
    ZeroPairs(choices, responses, |choices|);
    assert pairs[0].count == 0;
    assert MaxCount(pairs) == 0;
    AnnouncementOfTally(choices, responses);
    assert choices[..|choices|] == choices;
    assert Announcement(ResultsOf(choices, responses)) == TieText(choices, 0);
    TieTextZero(choices);
  }

  lemma TieTextZero(names: seq<string>)
    ensures TieText(names, 0) == "There is a tie between " + Join(", and ", names) + ", for 0 votes"
  {
    assert NatToString(0) == "0" && Plural(0) == "s";
    assert ", for " + "0" + " vote" + "s" == ", for 0 votes";
  }

  /** Three winners are joined as "A, and B, and C". */
  lemma ThreeWayTieText()
    ensures Join(", and ", ["A", "B", "C"]) == "A, and B, and C"
  {
  }

  /** `AnnouncementOfTally` for a tally whose largest count and winners
      are already known. */
  lemma AnnouncementFrom(choices: seq<string>, responses: map<int, nat>, top: nat, w: seq<Entry>)
    requires |choices| > 0 && TallyKeys(responses, |choices|)
    requires MaxCount(Pairs(choices, responses, |choices|)) == top
    requires WithCount(Pairs(choices, responses, |choices|), top) == w
    ensures |w| >= 1
    ensures Announcement(ResultsOf(choices, responses))
         == if |w| == 1 then WinnerText(w[0].choice, top) else TieText(ChoiceNames(w), top)
  {
    AnnouncementOfTally(choices, responses);
  }

  /** Choices A, B, C with counts 3, 3, 1 announce a tie between A and B. */
  lemma TieExample(choices: seq<string>, responses: map<int, nat>)
    requires choices == ["A", "B", "C"] && responses == map[1 := 3, 2 := 3, 3 := 1]
    ensures Announcement(ResultsOf(choices, responses))
         == "There is a tie between A, and B, for 3 votes"
  {
    var pairs := Pairs(choices, responses, 3);
    assert pairs == [Entry("A", 3), Entry("B", 3), Entry("C", 1)];
    assert MaxCount(pairs[2..]) == 1 && MaxCount(pairs[1..]) == 3 && MaxCount(pairs) == 3;
    WithCountCons(Entry("C", 1), [], 3);
    WithCountCons(Entry("B", 3), [Entry("C", 1)], 3);
    WithCountCons(Entry("A", 3), [Entry("B", 3), Entry("C", 1)], 3);
    AnnouncementFrom(choices, responses, 3, [Entry("A", 3), Entry("B", 3)]);
    TieTextExample();
  }

  lemma TieTextExample()
    ensures TieText(ChoiceNames([Entry("A", 3), Entry("B", 3)]), 3)
         == "There is a tie between A, and B, for 3 votes"
  {
    assert ChoiceNames([Entry("A", 3), Entry("B", 3)]) == ["A", "B"];
    assert Join(", and ", ["A", "B"]) == "A, and B";
    assert NatToString(3) == "3" && Plural(3) == "s";
    assert "There is a tie between " + "A, and B" + ", for " + "3" + " vote" + "s"
        == "There is a tie between A, and B, for 3 votes";
  }

  /** Choices Red, Blue with counts 5, 2 announce Red as the winner. */
  lemma WinnerExample(choices: seq<string>, responses: map<int, nat>)
    requires choices == ["Red", "Blue"] && responses == map[1 := 5, 2 := 2]
    ensures Announcement(ResultsOf(choices, responses))
         == "Results are in: Winner is 'Red' with 5 votes"
  {
    TwoChoiceTally(choices, responses, Entry("Red", 5), Entry("Blue", 2));
    AnnouncementFrom(choices, responses, 5, [Entry("Red", 5)]);
    RedWinsText();
  }

  /** Choices Red, Blue with counts 0, 1: a single vote is announced in
      the singular. */
  lemma SingleVoteExample(choices: seq<string>, responses: map<int, nat>)
    requires choices == ["Red", "Blue"] && responses == map[1 := 0, 2 := 1]
    ensures Announcement(ResultsOf(choices, responses))
         == "Results are in: Winner is 'Blue' with 1 vote"
  {
    TwoChoiceTally(choices, responses, Entry("Blue", 1), Entry("Red", 0));
    AnnouncementFrom(choices, responses, 1, [Entry("Blue", 1)]);
    BlueWinsText();
  }

  /** A two-choice tally whose counts differ has the larger one as its
      only winner. */
  lemma TwoChoiceTally(choices: seq<string>, responses: map<int, nat>, winner: Entry, loser: Entry)
    requires |choices| == 2 && TallyKeys(responses, 2)
    requires winner.count > loser.count
    requires Pairs(choices, responses, 2) == [winner, loser] || Pairs(choices, responses, 2) == [loser, winner]
    ensures MaxCount(Pairs(choices, responses, 2)) == winner.count
    ensures WithCount(Pairs(choices, responses, 2), winner.count) == [winner]
  {
    var pairs := Pairs(choices, responses, 2);
    WithCountCons(pairs[1], [], winner.count);
    WithCountCons(pairs[0], [pairs[1]], winner.count);
    assert pairs == [pairs[0]] + [pairs[1]];
  }

  lemma RedWinsText()
    ensures WinnerText("Red", 5) == "Results are in: Winner is 'Red' with 5 votes"
  {
    assert NatToString(5) == "5" && Plural(5) == "s";
    assert "Results are in: Winner is '" + "Red" + "' with " + "5" + " vote" + "s"
        == "Results are in: Winner is 'Red' with 5 votes";
  }

  lemma BlueWinsText()
    ensures WinnerText("Blue", 1) == "Results are in: Winner is 'Blue' with 1 vote"
  {
    assert NatToString(1) == "1" && Plural(1) == "";
    assert "Results are in: Winner is '" + "Blue" + "' with " + "1" + " vote" + ""
        == "Results are in: Winner is 'Blue' with 1 vote";
  }
}
