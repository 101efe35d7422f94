/**
 * The leaderboard modal: the tokens that carry a score, ranked by score and
 * then by the time left at finish, and the minutes/seconds display of that time.
 */
module Leaderboard {
  import opened Seqs
  import opened Tokens

  predicate HasScore(t: Token) {
    t.score.Some?
  }

  /** The score the comparator reads; only scored tokens ever reach it. */
  function ScoreValue(t: Token): int {
    if t.score.Some? then t.score.value else 0
  }

  /**
   * The sort comparator: negative when `a` belongs ahead of `b` (a higher score,
   * or an equal score and more time left), zero when they tie on both keys.
   */
  function Compare(a: Token, b: Token): (c: int)
    ensures c < 0 <==> ScoreValue(a) > ScoreValue(b)
                       || (ScoreValue(a) == ScoreValue(b) && a.finalTimeLeft > b.finalTimeLeft)
    ensures c == 0 <==> ScoreValue(a) == ScoreValue(b) && a.finalTimeLeft == b.finalTimeLeft
  {
    if ScoreValue(b) != ScoreValue(a) then ScoreValue(b) - ScoreValue(a)
    else b.finalTimeLeft - a.finalTimeLeft
  }

  /** `a` ranks at least as high as `b`: a higher score, or an equal score and at least as much time left. */
  predicate RanksAtLeast(a: Token, b: Token) {
    Compare(a, b) <= 0
  }

  /** Ordered by score descending, then by time left descending. */
  predicate Ranked(s: seq<Token>) {
    forall i, j :: 0 <= i < j < |s| ==> RanksAtLeast(s[i], s[j])
  }

  /** Places `x` in front of the first entry it ranks at least as high as, so that it precedes its ties. */
  function Insert(x: Token, r: seq<Token>): (out: seq<Token>)
    requires Ranked(r)
    ensures Ranked(out)
    ensures multiset(out) == multiset(r) + multiset{x}
    decreases |r|
  {
    if r == [] || RanksAtLeast(x, r[0]) then
      RankedCons(x, r);
      [x] + r
    else
      var y := r[0];
      var rest := Insert(x, r[1..]);
      forall z | z in rest ensures RanksAtLeast(y, z) {
        assert z in multiset(rest);
        if z != x {
          assert z in r[1..];
        }
      }
      RankedCons(y, rest);
      assert r == [y] + r[1..];
      [y] + rest
  }

  /** A ranked list stays ranked under a new head that ranks at least as high as each of its entries. */
  lemma RankedCons(y: Token, rest: seq<Token>)
    requires Ranked(rest)
    requires forall z :: z in rest ==> RanksAtLeast(y, z)
    ensures Ranked([y] + rest)
  {
    var s := [y] + rest;
    forall i, j | 0 <= i < j < |s| ensures RanksAtLeast(s[i], s[j]) {
      if i == 0 {
        assert s[j] == rest[j - 1];
      } else {
        assert s[i] == rest[i - 1] && s[j] == rest[j - 1];
      }
    }
  }

  /** A stable sort of `s` by the comparator (JavaScript's `Array.prototype.sort` is stable). */
  function SortRanked(s: seq<Token>): (r: seq<Token>)
    ensures Ranked(r)
    ensures multiset(r) == multiset(s)
    decreases |s|
  {
    if s == [] then []
    else
      assert s == [s[0]] + s[1..];
      Insert(s[0], SortRanked(s[1..]))
  }

  /** `getLeaderboardData`: the scored tokens, ranked. */
  function LeaderboardData(tokens: seq<Token>): (r: seq<Token>)
    ensures Ranked(r)
    ensures multiset(r) == multiset(Filter(HasScore, tokens))
  {
    SortRanked(Filter(HasScore, tokens))
  }

  /**
   * The leaderboard is exactly the scored tokens, each as often as in the token
   * list, ordered by score and then by time left.
   */
  lemma {:induction false} LeaderboardContents(tokens: seq<Token>)
    ensures forall t :: t in LeaderboardData(tokens) ==> HasScore(t)
    ensures forall t :: multiset(LeaderboardData(tokens))[t] == if HasScore(t) then multiset(tokens)[t] else 0
    ensures forall i, j :: 0 <= i < j < |LeaderboardData(tokens)| ==>
              var a, b := LeaderboardData(tokens)[i], LeaderboardData(tokens)[j];
              ScoreValue(a) > ScoreValue(b) || (ScoreValue(a) == ScoreValue(b) && a.finalTimeLeft >= b.finalTimeLeft)
  {
    var r := LeaderboardData(tokens);
    FilterMultiset(HasScore, tokens);
    forall t | t in r ensures HasScore(t) {
      assert t in multiset(r);
    }
  }

  /** A token that ranks strictly higher (higher score, or equal score and more time left) is listed strictly earlier. */
  lemma StrictlyHigherListedFirst(tokens: seq<Token>, i: int, j: int)
    requires 0 <= i < |LeaderboardData(tokens)| && 0 <= j < |LeaderboardData(tokens)|
    requires Compare(LeaderboardData(tokens)[i], LeaderboardData(tokens)[j]) < 0
    ensures i < j
  {
  }

  /** The tokens tied with `k` on both score and time left. */
  function TiesWith(k: Token): Token -> bool {
    (t: Token) => Compare(t, k) == 0
  }

  lemma {:induction false} InsertStable(x: Token, r: seq<Token>, k: Token)
    requires Ranked(r)
    ensures Filter(TiesWith(k), Insert(x, r)) == Filter(TiesWith(k), [x] + r)
    decreases |r|
  {
    var p := TiesWith(k);
    if r != [] && !RanksAtLeast(x, r[0]) {
      var y, r' := r[0], r[1..];
      assert r == [y] + r';
      InsertStable(x, r', k);
      FilterCons(p, y, Insert(x, r'));
      FilterCons(p, x, r');
      FilterCons(p, y, r');
      FilterCons(p, x, r);
      // `x` ranks strictly below `y`, so they are never tied with the same `k`
      assert !(p(x) && p(y));
    }
  }

  /** Sorting is stable: tokens tied on both keys keep their relative order. */
  lemma {:induction false} SortStable(s: seq<Token>, k: Token)
    ensures Filter(TiesWith(k), SortRanked(s)) == Filter(TiesWith(k), s)
    decreases |s|
  {
    if s != [] {
      var x, s' := s[0], s[1..];
      assert s == [x] + s';
      InsertStable(x, SortRanked(s'), k);
      SortStable(s', k);
      FilterCons(TiesWith(k), x, SortRanked(s'));
      FilterCons(TiesWith(k), x, s');
    }
  }

  /** Tokens tied on score and time left appear in the leaderboard in token-list order. */
  lemma {:induction false} LeaderboardStable(tokens: seq<Token>, k: Token)
    ensures Filter(TiesWith(k), LeaderboardData(tokens)) == Filter(TiesWith(k), Filter(HasScore, tokens))
  {
    SortStable(Filter(HasScore, tokens), k);
  }

  /**
   * JavaScript's `%`: the remainder of the quotient truncated toward zero, so
   * it takes the sign of the dividend.
   */
  function JsRemainder(a: int, b: int): (r: int)
    requires b > 0
    ensures a >= 0 ==> 0 <= r < b
    ensures a < 0 ==> -b < r <= 0
    ensures a == (if a >= 0 then a / b else -((-a) / b)) * b + r
  {
    if a >= 0 then a % b else -((-a) % b)
  }

  /**
   * The "Sisa Waktu" cell: `Math.floor(t/60)` minutes and `t%60` seconds.
   * For a non-negative time the two recompose it. For a negative one the
   * seconds carry the sign while the minutes are floored, so unless the time is
   * a whole number of minutes the display reads one minute lower than the time.
   */
  function TimeLeftDisplay(finalTimeLeft: int): (d: (int, int))
    ensures finalTimeLeft >= 0 ==> d.0 * 60 + d.1 == finalTimeLeft && 0 <= d.1 < 60 && d.0 >= 0
    ensures finalTimeLeft < 0 ==> d.0 < 0 && -60 < d.1 <= 0
    ensures finalTimeLeft < 0 && finalTimeLeft % 60 == 0 ==> d.0 * 60 == finalTimeLeft && d.1 == 0
    ensures finalTimeLeft < 0 && finalTimeLeft % 60 != 0 ==> d.0 * 60 + d.1 == finalTimeLeft - 60
  {
    (finalTimeLeft / 60, JsRemainder(finalTimeLeft, 60))
  }
}
