/**
 * The final ranking of a standard game: the players sorted by score, highest
 * first, with equal scores kept in joining order (Python's stable
 * `sort(reverse=True, key=score)`), the tie test, and what `_end_game` does
 * with them.
 */
module Ranking {
  import opened Wrappers
  import opened Errors
  import opened Players
  import opened Announcements

  predicate SortedDesc(ps: seq<Player>) {
    forall i, j :: 0 <= i < j < |ps| ==> ps[i].score >= ps[j].score
  }

  /** Puts `x` in front of the first player who does not outscore it. */
  function Insert(x: Player, ps: seq<Player>): (r: seq<Player>)
    ensures |r| == |ps| + 1
    ensures multiset(r) == multiset(ps) + multiset{x}
  {
    if |ps| == 0 || ps[0].score <= x.score then [x] + ps
    else
      assert ps == [ps[0]] + ps[1..];
      [ps[0]] + Insert(x, ps[1..])
  }

  function Sort(ps: seq<Player>): (r: seq<Player>)
    ensures |r| == |ps|
    ensures multiset(r) == multiset(ps)
  {
    if |ps| == 0 then []
    else
      assert ps == [ps[0]] + ps[1..];
      Insert(ps[0], Sort(ps[1..]))
  }

  lemma SortedTail(ps: seq<Player>)
    requires SortedDesc(ps) && |ps| > 0
    ensures SortedDesc(ps[1..])
  {
    forall i, j | 0 <= i < j < |ps[1..]|
      ensures ps[1..][i].score >= ps[1..][j].score
    {
      assert ps[1..][i] == ps[i + 1] && ps[1..][j] == ps[j + 1];
    }
  }

  /** Inserting a player no better than a bound keeps every score within the bound. */
  lemma {:induction false} InsertBounded(x: Player, ps: seq<Player>, bound: int)
    requires x.score <= bound
    requires forall k :: 0 <= k < |ps| ==> ps[k].score <= bound
    ensures forall i :: 0 <= i < |Insert(x, ps)| ==> Insert(x, ps)[i].score <= bound
    decreases |ps|
  {
    if |ps| > 0 && ps[0].score > x.score {
      InsertBounded(x, ps[1..], bound);
      assert Insert(x, ps) == [ps[0]] + Insert(x, ps[1..]);
    } else {
      assert Insert(x, ps) == [x] + ps;
    }
  }

  lemma {:induction false} InsertSorted(x: Player, ps: seq<Player>)
    requires SortedDesc(ps)
    ensures SortedDesc(Insert(x, ps))
    decreases |ps|
  {
    if |ps| > 0 && ps[0].score > x.score {
      var tail := Insert(x, ps[1..]);
      SortedTail(ps);
      InsertSorted(x, ps[1..]);
      InsertBounded(x, ps[1..], ps[0].score);
      var r := [ps[0]] + tail;
      assert Insert(x, ps) == r;
      forall i, j | 0 <= i < j < |r|
        ensures r[i].score >= r[j].score
      {
        assert r[j] == tail[j - 1];
        if i > 0 {
          assert r[i] == tail[i - 1];
        }
      }
    }
  }

  /** The sorted roster is ordered by score, highest first, and holds exactly the same players. */
  lemma {:induction false} SortSorted(ps: seq<Player>)
    ensures SortedDesc(Sort(ps))
    ensures multiset(Sort(ps)) == multiset(ps)
    decreases |ps|
  {
    if |ps| > 0 {
      SortSorted(ps[1..]);
      InsertSorted(ps[0], Sort(ps[1..]));
    }
  }

  // ---------------------------------------------------------------------------
  // Stability
  // ---------------------------------------------------------------------------

  /** The players with score `v`, in order. */
  function WithScore(ps: seq<Player>, v: int): (r: seq<Player>)
    ensures |r| <= |ps|
  {
    if |ps| == 0 then []
    else if ps[0].score == v then [ps[0]] + WithScore(ps[1..], v)
    else WithScore(ps[1..], v)
  }

  lemma {:induction false} InsertWithScore(x: Player, ps: seq<Player>, v: int)
    requires SortedDesc(ps)
    ensures WithScore(Insert(x, ps), v) == if x.score == v then [x] + WithScore(ps, v) else WithScore(ps, v)
    decreases |ps|
  {
    if |ps| > 0 && ps[0].score > x.score {
      SortedTail(ps);
      InsertWithScore(x, ps[1..], v);
      var r := Insert(x, ps);
      assert r[1..] == Insert(x, ps[1..]);
      assert r[0] == ps[0];
    } else {
      var r := [x] + ps;
      assert r[1..] == ps;
    }
  }

  /**
   * Sorting is stable: for every score, the players holding it appear in the
   * sorted roster in the same order as in the roster itself, so among equal
   * scores the earlier joiner ranks first.
   */
  lemma {:induction false} SortStable(ps: seq<Player>, v: int)
    ensures WithScore(Sort(ps), v) == WithScore(ps, v)
    decreases |ps|
  {
    if |ps| > 0 {
      SortStable(ps[1..], v);
      SortSorted(ps[1..]);
      InsertWithScore(ps[0], Sort(ps[1..]), v);
    }
  }

  // ---------------------------------------------------------------------------
  // Winner and tie
  // ---------------------------------------------------------------------------

  /** The tie test of `_end_game`, on the sorted roster. */
  predicate Tie(ranked: seq<Player>) {
    |ranked| > 1 && ranked[1].score == ranked[0].score
  }

  lemma {:induction false} NoneWithScore(ps: seq<Player>, v: int)
    requires forall i :: 0 <= i < |ps| ==> ps[i].score != v
    ensures WithScore(ps, v) == []
    decreases |ps|
  {
    if |ps| > 0 {
      NoneWithScore(ps[1..], v);
    }
  }

  /**
   * The first-ranked player has the highest score, is the earliest joiner
   * among those who hold it, and the tie test holds exactly when at least two
   * players share that score.
   */
  lemma WinnerAndTie(ps: seq<Player>)
    requires |ps| > 0
    ensures forall i :: 0 <= i < |ps| ==> ps[i].score <= Sort(ps)[0].score
    ensures |WithScore(ps, Sort(ps)[0].score)| > 0 && WithScore(ps, Sort(ps)[0].score)[0] == Sort(ps)[0]
    ensures Tie(Sort(ps)) <==> |WithScore(ps, Sort(ps)[0].score)| >= 2
  {
    var r := Sort(ps);
    SortSorted(ps);
    var top := r[0].score;
    forall i | 0 <= i < |ps|
      ensures ps[i].score <= top
    {
      assert ps[i] in multiset(r);
      var k :| 0 <= k < |r| && r[k] == ps[i];
    }
    SortStable(ps, top);
    assert WithScore(r, top) == [r[0]] + WithScore(r[1..], top);
    if Tie(r) {
      assert WithScore(r[1..], top) == [r[1]] + WithScore(r[2..], top) by {
        assert r[1..][0] == r[1] && r[1..][1..] == r[2..];
      }
    } else if |r| > 1 {
      forall i | 0 <= i < |r[1..]|
        ensures r[1..][i].score != top
      {
        assert r[1..][i] == r[i + 1];
        assert r[1].score >= r[i + 1].score;
      }
      NoneWithScore(r[1..], top);
    }
  }

  lemma OnlyHolder(ps: seq<Player>, v: int)
    requires |WithScore(ps, v)| == 1
    ensures forall i :: 0 <= i < |ps| ==> ps[i].score != v || ps[i] == WithScore(ps, v)[0]
  {
    WithScoreIn(ps, v, 0);
    var k :| 0 <= k < |ps| && ps[k] == WithScore(ps, v)[0];
    assert ps[k].score == v by {
      WithScoreHolds(ps, v, 0);
    }
    forall i | 0 <= i < |ps| && ps[i].score == v
      ensures ps[i] == ps[k]
    {
      TwoWithScore(ps, v, i, k);
    }
  }

  lemma {:induction false} WithScoreHolds(ps: seq<Player>, v: int, k: nat)
    requires k < |WithScore(ps, v)|
    ensures WithScore(ps, v)[k].score == v
    decreases |ps|
  {
    if ps[0].score == v {
      if k > 0 {
        WithScoreHolds(ps[1..], v, k - 1);
      }
    } else {
      WithScoreHolds(ps[1..], v, k);
    }
  }

  lemma {:induction false} WithScoreIn(ps: seq<Player>, v: int, k: nat)
    requires k < |WithScore(ps, v)|
    ensures WithScore(ps, v)[k] in ps
    decreases |ps|
  {
    if ps[0].score == v {
      if k > 0 {
        WithScoreIn(ps[1..], v, k - 1);
      }
    } else {
      WithScoreIn(ps[1..], v, k);
    }
  }

  lemma {:induction false} OneWithScore(ps: seq<Player>, v: int, j: nat)
    requires j < |ps| && ps[j].score == v
    ensures |WithScore(ps, v)| >= 1
    decreases |ps|
  {
    if j > 0 && ps[0].score != v {
      OneWithScore(ps[1..], v, j - 1);
    }
  }

  lemma {:induction false} TwoOrdered(ps: seq<Player>, v: int, i: nat, j: nat)
    requires i < j < |ps| && ps[i].score == v && ps[j].score == v
    ensures |WithScore(ps, v)| >= 2
    decreases |ps|
  {
    if i == 0 {
      OneWithScore(ps[1..], v, j - 1);
    } else {
      TwoOrdered(ps[1..], v, i - 1, j - 1);
    }
  }

  /** Two different positions holding the same score both show up among the players with it. */
  lemma TwoWithScore(ps: seq<Player>, v: int, i: nat, j: nat)
    requires i < |ps| && j < |ps| && ps[i].score == v && ps[j].score == v
    ensures i == j || |WithScore(ps, v)| >= 2
  {
    if i < j {
      TwoOrdered(ps, v, i, j);
    } else if j < i {
      TwoOrdered(ps, v, j, i);
    }
  }
}

/** What `_end_game` does with the final ranking. */
module GameOver {
  import opened Wrappers
  import opened Errors
  import opened Players
  import opened Announcements
  import opened Ranking

  datatype EndReport = EndReport(said: seq<Announcement>, raised: Exception)

  /**
   * `_end_game` never completes. With an empty roster indexing the sorted
   * list raises. On a tie the winners list is built as a list of booleans, so
   * reading a winner's name raises before anything is said. Otherwise the
   * top-ranked player, who is in the roster and whom everyone else scored
   * below, is announced as winner with the victory sound, and the check for
   * a perfect game calls a method players do not have.
   */
  function EndGame(roster: seq<Player>): (r: EndReport)
    ensures |roster| == 0 ==> r == EndReport([], IndexError("list index out of range"))
    ensures |roster| > 0 && Tie(Sort(roster)) ==> r.said == [] && r.raised == AttributeError("name")
    ensures |roster| > 0 && !Tie(Sort(roster)) ==>
              && r.raised == AttributeError("is_perfect")
              && |r.said| == 1 && r.said[0].cue == Some(VictoryCue)
              && r.said[0].msg.Winner?
              && (forall i :: 0 <= i < |roster| ==> roster[i].score < r.said[0].msg.score || roster[i].id == r.said[0].msg.id)
    ensures |roster| > 0 && !Tie(Sort(roster)) ==>
              && r.said == [SayWith(Winner(Sort(roster)[0].id, Sort(roster)[0].score), VictoryCue)]
              && Sort(roster)[0] in roster
              && (forall i :: 0 <= i < |roster| ==> roster[i].score < Sort(roster)[0].score || roster[i] == Sort(roster)[0])
  {
    if |roster| == 0 then EndReport([], IndexError("list index out of range"))
    else
      var ranked := Sort(roster);
      if Tie(ranked) then EndReport([], AttributeError("name"))
      else
        var winner := ranked[0];
        assert winner in multiset(ranked);
        SoleWinner(roster);
        EndReport([SayWith(Winner(winner.id, winner.score), VictoryCue)], AttributeError("is_perfect"))
  }

  /** Without a tie, every player other than the winner scored strictly less. */
  lemma {:induction false} SoleWinner(roster: seq<Player>)
    requires |roster| > 0 && !Tie(Sort(roster))
    ensures forall i :: 0 <= i < |roster| ==> roster[i].score < Sort(roster)[0].score || roster[i] == Sort(roster)[0]
  {
    WinnerAndTie(roster);
    var v := Sort(roster)[0].score;
    assert |WithScore(roster, v)| == 1;
    OnlyHolder(roster, v);
  }
}
