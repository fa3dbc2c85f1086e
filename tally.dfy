/** One poll: its tally (`responses`, a map from choice number 1..n to a
    count), the list of participants who voted, and the result list: every
    choice paired with its count, in choice order, then stably sorted by
    count, largest first (Python's `sorted(..., reverse=True)` keeps equal
    keys in their original order). */
module Tally {

  /** A `(choice, count)` pair of the result list. */
  datatype Entry = Entry(choice: string, count: nat)

  /** The tally's keys are exactly the choice numbers 1..n. */
  ghost predicate TallyKeys(responses: map<int, nat>, n: nat)
  {
    forall i :: i in responses <==> 1 <= i <= n
  }

  /** The total of `responses[1] + ... + responses[k]`. */
  function SumTo(responses: map<int, nat>, k: nat): nat
    requires forall i :: 1 <= i <= k ==> i in responses
  {
    if k == 0 then 0 else SumTo(responses, k - 1) + responses[k]
  }

  predicate NoDuplicates<T(==)>(s: seq<T>)
  {
    forall i, j :: 0 <= i < j < |s| ==> s[i] != s[j]
  }

  /** `{i: 0 for i in range(1, n + 1)}`. */
  function ZeroTally(n: nat): (responses: map<int, nat>)
    ensures TallyKeys(responses, n)
    ensures forall i :: i in responses ==> responses[i] == 0
  {
    if n == 0 then map[] else ZeroTally(n - 1)[n := 0]
  }

  lemma {:induction false} ZeroTallySum(responses: map<int, nat>, k: nat)
    requires forall i :: 1 <= i <= k ==> i in responses && responses[i] == 0
    ensures SumTo(responses, k) == 0
  {
    if k > 0 {
      ZeroTallySum(responses, k - 1);
    }
  }

  /** Adding one vote for choice `r` adds one to the total. */
  lemma {:induction false} IncrementSum(responses: map<int, nat>, k: nat, r: int)
    requires forall i :: 1 <= i <= k ==> i in responses
    requires r in responses
    ensures SumTo(responses[r := responses[r] + 1], k)
         == SumTo(responses, k) + (if 1 <= r <= k then 1 else 0)
  {
    if k > 0 {
      IncrementSum(responses, k - 1, r);
    }
  }

  /** The first `k` pairs `(choices[i - 1], responses[i])`, in key order. */
  function Pairs(choices: seq<string>, responses: map<int, nat>, k: nat): (ps: seq<Entry>)
    requires k <= |choices|
    requires forall i :: 1 <= i <= k ==> i in responses
    ensures |ps| == k
    ensures forall j :: 0 <= j < k ==> ps[j] == Entry(choices[j], responses[j + 1])
  {
    if k == 0 then [] else Pairs(choices, responses, k - 1) + [Entry(choices[k - 1], responses[k])]
  }

  /** Every pair kept, counts never increasing from left to right. */
  predicate NonIncreasing(s: seq<Entry>)
  {
    forall i, j :: 0 <= i < j < |s| ==> s[i].count >= s[j].count
  }

  /** The entries of `s` whose count is `c`, in their order in `s`. */
  function WithCount(s: seq<Entry>, c: nat): (r: seq<Entry>)
    ensures |r| <= |s|
    ensures forall i :: 0 <= i < |r| ==> r[i].count == c
  {
    if |s| == 0 then []
    else (if s[0].count == c then [s[0]] else []) + WithCount(s[1..], c)
  }

  lemma WithCountCons(e: Entry, s: seq<Entry>, c: nat)
    ensures WithCount([e] + s, c) == (if e.count == c then [e] else []) + WithCount(s, c)
  {
    assert ([e] + s)[1..] == s;
  }

  /** The filter keeps every entry of `s` with count `c` and nothing else. */
  lemma {:induction false} WithCountMembers(s: seq<Entry>, c: nat)
    ensures forall e :: e in WithCount(s, c) <==> e in s && e.count == c
  {
    if |s| > 0 {
      WithCountMembers(s[1..], c);
      assert s == [s[0]] + s[1..];
    }
  }

  /** Places `e`, which came before every entry of `s`, after the entries
      with a strictly larger count and before all others. */
  function Insert(e: Entry, s: seq<Entry>): (r: seq<Entry>)
    ensures |r| == |s| + 1
  {
    if |s| == 0 then [e]
    else if s[0].count <= e.count then [e] + s
    else [s[0]] + Insert(e, s[1..])
  }

  /** The stable sort by count, largest first. */
  function SortDesc(s: seq<Entry>): (r: seq<Entry>)
    ensures |r| == |s|
  {
    if |s| == 0 then [] else Insert(s[0], SortDesc(s[1..]))
  }

  lemma {:induction false} InsertPermutes(e: Entry, s: seq<Entry>)
    ensures multiset(Insert(e, s)) == multiset(s) + multiset{e}
  {
    if |s| > 0 && s[0].count > e.count {
      InsertPermutes(e, s[1..]);
      assert s == [s[0]] + s[1..];
    }
  }

  lemma {:induction false} InsertSorted(e: Entry, s: seq<Entry>)
    requires NonIncreasing(s)
    ensures NonIncreasing(Insert(e, s))
  {
    if |s| > 0 && s[0].count > e.count {
      var tail := Insert(e, s[1..]);
      InsertSorted(e, s[1..]);
      InsertPermutes(e, s[1..]);
      forall j | 0 <= j < |tail|
        ensures tail[j].count <= s[0].count
      {
        assert tail[j] in multiset(tail);
        assert tail[j] == e || tail[j] in multiset(s[1..]);
        if tail[j] != e {
          var m :| 0 <= m < |s[1..]| && s[1..][m] == tail[j];
          assert s[m + 1] == tail[j];
        }
      }
      var r := [s[0]] + tail;
      forall i, j | 0 <= i < j < |r|
        ensures r[i].count >= r[j].count
      {
        if i == 0 {
          assert r[j] == tail[j - 1];
        } else {
          assert r[i] == tail[i - 1] && r[j] == tail[j - 1];
        }
      }
    }
  }

  /** Inserting keeps the relative order of equal counts, with `e` first. */
  lemma {:induction false} InsertStable(e: Entry, s: seq<Entry>, c: nat)
    ensures WithCount(Insert(e, s), c) == (if e.count == c then [e] else []) + WithCount(s, c)
  {
    if |s| == 0 {
      WithCountCons(e, [], c);
    } else if s[0].count <= e.count {
      WithCountCons(e, s, c);
    } else {
      InsertStable(e, s[1..], c);
      WithCountCons(s[0], Insert(e, s[1..]), c);
      WithCountCons(s[0], s[1..], c);
      assert [s[0]] + s[1..] == s;
    }
  }

  /** `SortDesc` is a stable descending sort: the result is ordered by
      count, is a permutation of the input, and lists the entries of each
      count in their input order. */
  lemma {:induction false} SortDescCorrect(s: seq<Entry>)
    ensures NonIncreasing(SortDesc(s))
    ensures multiset(SortDesc(s)) == multiset(s)
    ensures forall c :: WithCount(SortDesc(s), c) == WithCount(s, c)
  {
    if |s| > 0 {
      SortDescCorrect(s[1..]);
      InsertSorted(s[0], SortDesc(s[1..]));
      InsertPermutes(s[0], SortDesc(s[1..]));
      assert s == [s[0]] + s[1..];
      forall c
        ensures WithCount(SortDesc(s), c) == WithCount(s, c)
      {
        InsertStable(s[0], SortDesc(s[1..]), c);
        WithCountCons(s[0], s[1..], c);
      }
    }
  }

  /** What `Poll.results()` returns, as a function of the poll's state. */
  function ResultsOf(choices: seq<string>, responses: map<int, nat>): seq<Entry>
    requires TallyKeys(responses, |choices|)
  {
    SortDesc(Pairs(choices, responses, |choices|))
  }

  /** The largest count in a non-empty list. */
  function MaxCount(s: seq<Entry>): (m: nat)
    requires |s| > 0
    ensures forall i :: 0 <= i < |s| ==> s[i].count <= m
    ensures exists i :: 0 <= i < |s| && s[i].count == m
  {
    if |s| == 1 then s[0].count
    else
      var m := MaxCount(s[1..]);
      assert forall i :: 1 <= i < |s| ==> s[i] == s[1..][i - 1];
      if s[0].count >= m then s[0].count else m
  }

  /** The first entry of the sorted results carries the largest count. */
  lemma SortedHeadIsMax(s: seq<Entry>)
    requires |s| > 0
    ensures SortDesc(s)[0].count == MaxCount(s)
  {
    var r := SortDesc(s);
    SortDescCorrect(s);
    assert r[0] in multiset(s);
    var k :| 0 <= k < |s| && s[k].count == MaxCount(s);
    assert s[k] in multiset(r);
    var j :| 0 <= j < |r| && r[j] == s[k];
    assert j == 0 || r[0].count >= r[j].count;
  }

  /** A poll. `pollid`, `choices`, `origin` and `author` never change after
      creation; the registry's vote operation updates `responses` and
      `voted` in place. */
  class Poll {
    const pollid: string
    const choices: seq<string>
    const origin: string
    const author: string
    var responses: map<int, nat>
    var voted: seq<string>

    /** The tally covers exactly the choice numbers, its total is the number
        of participants who voted, and no participant voted twice. */
    ghost predicate Valid()
      reads this
    {
      && TallyKeys(responses, |choices|)
      && SumTo(responses, |choices|) == |voted|
      && NoDuplicates(voted)
    }

    /** `Poll(choices, question, originmsg)`; the question is accepted but
        not kept. The id is given rather than drawn at random. */
    constructor (pollid: string, choices: seq<string>, question: string, origin: string, author: string)
      ensures Valid()
      ensures this.pollid == pollid && this.choices == choices
      ensures this.origin == origin && this.author == author
      ensures TallyKeys(responses, |choices|)
      ensures forall i :: i in responses ==> responses[i] == 0
      ensures voted == []
    {
      this.pollid := pollid;
      this.choices := choices;
      this.origin := origin;
      this.author := author;
      responses := ZeroTally(|choices|);
      voted := [];
      new;
      ZeroTallySum(responses, |choices|);
    }

    /** `results()`: one `(choices[i - 1], responses[i])` pair per key,
        sorted by count, largest first, ties left in choice order. */
    method Results() returns (ret: seq<Entry>)
      requires Valid()
      ensures ret == ResultsOf(choices, responses)
      ensures |ret| == |choices| && NonIncreasing(ret)
      ensures multiset(ret) == multiset(Pairs(choices, responses, |choices|))
      ensures forall c :: WithCount(ret, c) == WithCount(Pairs(choices, responses, |choices|), c)
    {
      ret := [];
      var i := 1;
      while i <= |choices|
        invariant 1 <= i <= |choices| + 1
        invariant ret == Pairs(choices, responses, i - 1)
      {
        ret := ret + [Entry(choices[i - 1], responses[i])];
        i := i + 1;
      }
      SortDescCorrect(ret);
      ret := SortDesc(ret);
    }
  }
}
