/** Score, cleared-line total, level and the automatic drop interval, and
    how a lock that clears rows updates them. */
module Scoring {

  /** The four counters the game keeps about a session. */
  datatype Counters = Counters(score: int, lines: int, level: int, dropInterval: int)

  /** One level per ten cleared lines, starting at level 1 (Euclidean `/`
      by a positive divisor is the source's Math.floor of the quotient). */
  function LevelFor(lines: int): (level: int)
    ensures lines >= 0 ==> level >= 1
    ensures (level - 1) * 10 <= lines < level * 10
  {
    lines / 10 + 1
  }

  /** Milliseconds between automatic drops: 100 less per level, never below 100. */
  function IntervalFor(level: int): (ms: int)
    ensures level >= 1 ==> 100 <= ms <= 1000
    ensures ms == 100 <==> level >= 10
  {
    if 100 > 1000 - (level - 1) * 100 then 100 else 1000 - (level - 1) * 100
  }

  /** The state of the counters at the start of a game. */
  const Initial := Counters(0, 0, 1, 1000)

  /** The relation between the counters that every operation keeps. */
  predicate Consistent(c: Counters)
  {
    c.score >= 0 && c.lines >= 0 && c.level == LevelFor(c.lines) && c.dropInterval == IntervalFor(c.level)
  }

  /** The counters after a lock that cleared n full rows. Nothing changes when
      n is 0; otherwise the lines are added, the score grows by n * 100 times
      the level in force before the clear, and level and interval are
      recomputed from the new line total. */
  function Award(c: Counters, n: nat): (r: Counters)
    ensures r.lines == c.lines + n && r.score == c.score + n * 100 * c.level
    ensures n == 0 ==> r == c
    ensures Consistent(c) ==> Consistent(r)
    ensures Consistent(c) ==> r.score >= c.score && r.level >= c.level && r.dropInterval <= c.dropInterval
    ensures Consistent(c) && n > 0 ==> r.score > c.score
  {
    if n > 0 then
      var lines := c.lines + n;
      var level := LevelFor(lines);
      Counters(c.score + n * 100 * c.level, lines, level, IntervalFor(level))
    else c
  }
}
