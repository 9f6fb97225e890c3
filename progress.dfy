/**
 * Round progress as values: the Level's counter and the coroutines it has started
 * (Level.CountSheep and Level.DoubleCount, Assets/Level.cs), the per-sheep click
 * latch (Sheep.OnPointerClick, Assets/Sheep.cs), and a whole round played as a
 * sequence of clicks on a flock. `Pasture.Level` and `Pasture.Sheep` are proved
 * against these functions; the lemmas here say what a round does.
 */
module Progress {

  /** The two end-of-round coroutines, YouWin and YouLose. */
  datatype Transition = YouWin | YouLose

  /** The Level entry a click calls. */
  datatype Report = Counted | DoubleCounted

  /** The Level's progress state: `sheepCount` and the coroutines started so far, in order. */
  datatype Round = Round(sheepCount: int, started: seq<Transition>)

  const Fresh: Round := Round(0, [])

  /** CountSheep: one more sheep; YouWin starts on the call where the count equals the total. */
  function AfterCount(total: int, round: Round): (r: Round)
    ensures r.sheepCount == round.sheepCount + 1
    ensures |round.started| <= |r.started| <= |round.started| + 1
    ensures r.started[..|round.started|] == round.started
    ensures r.started != round.started <==> r.sheepCount == total
    ensures YouLose !in r.started[|round.started|..]
  {
    var count := round.sheepCount + 1;
    Round(count, if total == count then round.started + [YouWin] else round.started)
  }

  /** DoubleCount: YouLose starts, whatever the count. */
  function AfterDoubleCount(round: Round): (r: Round)
    ensures r.sheepCount == round.sheepCount
    ensures |r.started| == |round.started| + 1 && r.started[..|round.started|] == round.started
    ensures r.started[|round.started|] == YouLose
  {
    Round(round.sheepCount, round.started + [YouLose])
  }

  /** The click latch: the first click on a sheep counts it, every later click is a double count. */
  function ClickReport(counted: bool): Report {
    if counted then DoubleCounted else Counted
  }

  function Deliver(total: int, r: Round, report: Report): Round {
    match report
    case Counted => AfterCount(total, r)
    case DoubleCounted => AfterDoubleCount(r)
  }

  /** `k` calls of CountSheep on a fresh level. */
  function Counts(total: int, k: nat): Round {
    if k == 0 then Fresh else AfterCount(total, Counts(total, k - 1))
  }

  /**
   * From a fresh level, k counts leave the counter at k; YouWin has started exactly
   * once if 1 <= total <= k (on the total-th call), and never otherwise. Later calls
   * keep incrementing without starting it again.
   */
  lemma {:induction false} CountsWinOnce(total: int, k: nat)
    ensures Counts(total, k).sheepCount == k
    ensures Counts(total, k).started == if 1 <= total <= k then [YouWin] else []
  {
    if k > 0 {
      CountsWinOnce(total, k - 1);
    }
  }

  /** A double count starts YouLose and leaves the counter alone, whatever the state. */
  lemma DoubleCountLoses(total: int, r: Round)
    ensures Deliver(total, r, DoubleCounted).sheepCount == r.sheepCount
    ensures YouLose in Deliver(total, r, DoubleCounted).started
  {
    assert Deliver(total, r, DoubleCounted).started[|r.started|] == YouLose;
  }

  /** The scene: which sheep have been counted, and the level's progress. */
  datatype Field = Field(counted: seq<bool>, round: Round)

  /** A flock of `n` sheep none of which has been clicked, on a fresh level. */
  function NewField(n: nat): (f: Field)
    ensures |f.counted| == n && f.round == Fresh
    ensures forall i :: 0 <= i < n ==> !f.counted[i]
  {
    Field(seq(n, _ => false), Fresh)
  }

  /** A click on sheep `i`: the sheep's latch decides which Level entry is called. */
  function ClickSheep(total: int, f: Field, i: nat): (g: Field)
    requires i < |f.counted|
    ensures |g.counted| == |f.counted| && g.counted[i]
    ensures forall j :: 0 <= j < |f.counted| && j != i ==> g.counted[j] == f.counted[j]
    ensures g.round.sheepCount == f.round.sheepCount + (if f.counted[i] then 0 else 1)
    ensures |f.round.started| <= |g.round.started| && g.round.started[..|f.round.started|] == f.round.started
    ensures f.counted[i] <==> YouLose in g.round.started[|f.round.started|..]
  {
    Field(f.counted[i := true], Deliver(total, f.round, ClickReport(f.counted[i])))
  }

  predicate OnFlock(f: Field, clicks: seq<nat>) {
    forall k :: 0 <= k < |clicks| ==> clicks[k] < |f.counted|
  }

  /** A round: the clicks, in the order the player makes them. */
  function Play(total: int, f: Field, clicks: seq<nat>): (g: Field)
    requires OnFlock(f, clicks)
    ensures |g.counted| == |f.counted|
    decreases |clicks|
  {
    if clicks == [] then f
    else Play(total, ClickSheep(total, f, clicks[0]), clicks[1..])
  }

  function CountTrue(bs: seq<bool>): nat {
    if bs == [] then 0 else (if bs[0] then 1 else 0) + CountTrue(bs[1..])
  }

  lemma {:induction false} CountTrueSet(bs: seq<bool>, i: nat)
    requires i < |bs|
    ensures CountTrue(bs[i := true]) == CountTrue(bs) + (if bs[i] then 0 else 1)
  {
    if i > 0 {
      assert bs[i := true][1..] == bs[1..][i - 1 := true];
      CountTrueSet(bs[1..], i - 1);
    }
  }

  lemma {:induction false} CountTrueBound(bs: seq<bool>)
    ensures CountTrue(bs) <= |bs|
  {
    if bs != [] {
      CountTrueBound(bs[1..]);
    }
  }

  /**
   * Whatever the clicks, the counter moves in step with the sheep whose latch is set:
   * counter minus counted sheep is unchanged by a round.
   */
  lemma {:induction false} PlayTally(total: int, f: Field, clicks: seq<nat>)
    requires OnFlock(f, clicks)
    ensures Play(total, f, clicks).round.sheepCount - CountTrue(Play(total, f, clicks).counted)
         == f.round.sheepCount - CountTrue(f.counted)
    decreases |clicks|
  {
    if clicks != [] {
      var g := ClickSheep(total, f, clicks[0]);
      CountTrueSet(f.counted, clicks[0]);
      assert OnFlock(g, clicks[1..]) by {
        forall k | 0 <= k < |clicks[1..]| ensures clicks[1..][k] < |g.counted| {
          assert clicks[1..][k] == clicks[k + 1];
        }
      }
      PlayTally(total, g, clicks[1..]);
    }
  }

  /** On a fresh flock the counter never exceeds the number of sheep, whatever the clicks. */
  lemma CountNeverExceedsFlock(n: nat, clicks: seq<nat>)
    requires OnFlock(NewField(n), clicks)
    ensures 0 <= Play(n, NewField(n), clicks).round.sheepCount <= n
  {
    var f := NewField(n);
    assert CountTrue(f.counted) == 0 by {
      AllFalseCountsZero(f.counted);
    }
    PlayTally(n, f, clicks);
    CountTrueBound(Play(n, f, clicks).counted);
  }

  lemma {:induction false} AllFalseCountsZero(bs: seq<bool>)
    requires forall i :: 0 <= i < |bs| ==> !bs[i]
    ensures CountTrue(bs) == 0
  {
    if bs != [] {
      AllFalseCountsZero(bs[1..]);
    }
  }

  predicate Distinct(clicks: seq<nat>) {
    forall a, b :: 0 <= a < b < |clicks| ==> clicks[a] != clicks[b]
  }

  /**
   * Clicks on distinct, not yet counted sheep are all first clicks: each one calls
   * CountSheep, so the level sees the same thing as that many counts in a row.
   */
  lemma {:induction false} PlayDistinctCounts(total: int, f: Field, m: nat, clicks: seq<nat>)
    requires OnFlock(f, clicks) && Distinct(clicks)
    requires f.round == Counts(total, m)
    requires forall k :: 0 <= k < |clicks| ==> !f.counted[clicks[k]]
    ensures Play(total, f, clicks).round == Counts(total, m + |clicks|)
    decreases |clicks|
  {
    if clicks != [] {
      var i := clicks[0];
      var g := ClickSheep(total, f, i);
      var rest := clicks[1..];
      assert g.round == Counts(total, m + 1);
      forall k | 0 <= k < |rest| ensures rest[k] < |g.counted| && !g.counted[rest[k]] {
        assert rest[k] == clicks[k + 1];
      }
      forall a, b | 0 <= a < b < |rest| ensures rest[a] != rest[b] {
        assert rest[a] == clicks[a + 1] && rest[b] == clicks[b + 1];
      }
      PlayDistinctCounts(total, g, m + 1, rest);
    }
  }

  /**
   * A round without double clicks on a fresh flock of `total >= 1` sheep: YouWin has
   * started exactly once when every sheep has been clicked, not at all before, and
   * YouLose never starts.
   */
  lemma WinExactlyWhenAllCounted(total: nat, clicks: seq<nat>)
    requires 1 <= total
    requires OnFlock(NewField(total), clicks) && Distinct(clicks)
    ensures Play(total, NewField(total), clicks).round.started
         == if |clicks| == total then [YouWin] else []
  {
    PlayDistinctCounts(total, NewField(total), 0, clicks);
    CountsWinOnce(total, |clicks|);
    DistinctClicksFitFlock(total, clicks);
  }

  /** Distinct clicks on a flock of `n` sheep number at most `n`. */
  lemma DistinctClicksFitFlock(n: nat, clicks: seq<nat>)
    requires Distinct(clicks) && forall k :: 0 <= k < |clicks| ==> clicks[k] < n
    ensures |clicks| <= n
  {
    var s := set k | 0 <= k < |clicks| :: clicks[k];
    DistinctSetSize(clicks);
    SubsetCardinality(s, Below(n));
  }

  /** The sheep indices of a flock of `n`. */
  function Below(n: nat): (s: set<nat>)
    ensures |s| == n && forall i: nat :: i in s <==> i < n
  {
    if n == 0 then {} else Below(n - 1) + {n - 1}
  }

  lemma SubsetCardinality(a: set<nat>, b: set<nat>)
    requires a <= b
    ensures |a| <= |b|
  {
    assert b == a + (b - a);
  }

  lemma {:induction false} DistinctSetSize(clicks: seq<nat>)
    requires Distinct(clicks)
    ensures |set k | 0 <= k < |clicks| :: clicks[k]| == |clicks|
  {
    if clicks != [] {
      var last := |clicks| - 1;
      var init := clicks[..last];
      assert Distinct(init) by {
        forall a, b | 0 <= a < b < |init| ensures init[a] != init[b] {
          assert init[a] == clicks[a] && init[b] == clicks[b];
        }
      }
      DistinctSetSize(init);
      var s := set k | 0 <= k < |clicks| :: clicks[k];
      var t := set k | 0 <= k < |init| :: init[k];
      assert s == t + {clicks[last]} by {
        forall x | x in s ensures x in t + {clicks[last]} {
          var k :| 0 <= k < |clicks| && clicks[k] == x;
          if k < last { assert init[k] == x; }
        }
        forall x | x in t ensures x in s {
          var k :| 0 <= k < |init| && init[k] == x;
          assert clicks[k] == x;
        }
      }
      assert clicks[last] !in t by {
        forall k | 0 <= k < |init| ensures init[k] != clicks[last] {
          assert init[k] == clicks[k];
        }
      }
    }
  }

  /** A round only ever appends to the list of started coroutines, and never clears a latch. */
  lemma {:induction false} PlayGrows(total: int, f: Field, clicks: seq<nat>, i: nat)
    requires OnFlock(f, clicks) && i < |f.counted|
    ensures var g := Play(total, f, clicks);
            |f.round.started| <= |g.round.started| && g.round.started[..|f.round.started|] == f.round.started
            && (f.counted[i] ==> g.counted[i])
    decreases |clicks|
  {
    if clicks != [] {
      var g := ClickSheep(total, f, clicks[0]);
      assert OnFlock(g, clicks[1..]) by {
        forall k | 0 <= k < |clicks[1..]| ensures clicks[1..][k] < |g.counted| {
          assert clicks[1..][k] == clicks[k + 1];
        }
      }
      PlayGrows(total, g, clicks[1..], i);
    }
  }

  /** Once sheep `i` is counted, any later click on it in the round starts YouLose. */
  lemma {:induction false} ClickOnCountedLoses(total: int, f: Field, clicks: seq<nat>, i: nat)
    requires OnFlock(f, clicks) && i < |f.counted| && f.counted[i]
    requires i in clicks
    ensures YouLose in Play(total, f, clicks).round.started
    decreases |clicks|
  {
    var g := ClickSheep(total, f, clicks[0]);
    assert OnFlock(g, clicks[1..]) by {
      forall k | 0 <= k < |clicks[1..]| ensures clicks[1..][k] < |g.counted| {
        assert clicks[1..][k] == clicks[k + 1];
      }
    }
    if clicks[0] == i {
      assert g.round.started[|f.round.started|] == YouLose;
      PlayGrows(total, g, clicks[1..], i);
      var h := Play(total, g, clicks[1..]);
      assert h.round.started[|f.round.started|] == YouLose;
    } else {
      assert i in clicks[1..];
      ClickOnCountedLoses(total, g, clicks[1..], i);
    }
  }

  /** Clicking the same sheep twice in a round starts YouLose, whatever else happens. */
  lemma {:induction false} DoubleClickLoses(total: int, f: Field, clicks: seq<nat>, a: nat, b: nat)
    requires OnFlock(f, clicks) && a < b < |clicks| && clicks[a] == clicks[b]
    ensures YouLose in Play(total, f, clicks).round.started
    decreases |clicks|
  {
    var g := ClickSheep(total, f, clicks[0]);
    var rest := clicks[1..];
    assert OnFlock(g, rest) by {
      forall k | 0 <= k < |rest| ensures rest[k] < |g.counted| {
        assert rest[k] == clicks[k + 1];
      }
    }
    if a == 0 {
      assert rest[b - 1] == clicks[b];
      ClickOnCountedLoses(total, g, rest, clicks[0]);
    } else {
      assert rest[a - 1] == clicks[a] && rest[b - 1] == clicks[b];
      DoubleClickLoses(total, g, rest, a - 1, b - 1);
    }
  }
}
