/**
 * The loyalty programme: a review earns 5 points, deleting one costs 5 (never
 * below zero), every 100 points is a level, and the profile's stored `level`
 * is a high-water mark that is raised, and announced once, when the level
 * derived from the points passes it.
 */
module Loyalty {
  import opened Wrappers

  const PointsPerLevel: int := 100
  const PointsPerReview: int := 5

  /** JavaScript `a % b` for a positive divisor: the remainder has the sign of `a`. */
  function JsRem(a: int, b: int): (r: int)
    requires b > 0
    ensures a >= 0 ==> 0 <= r < b && r == a % b
    ensures a < 0 ==> -b < r <= 0 && -r == (-a) % b
  {
    if a >= 0 then a % b else -((-a) % b)
  }

  /** `Math.floor(points / 100)`. */
  function Level(points: int): (l: int)
    ensures 100 * l <= points < 100 * (l + 1)
  {
    points / PointsPerLevel
  }

  /** `points % 100`, the progress bar's width in percent. */
  function Progress(points: int): (r: int)
    ensures points >= 0 ==> 0 <= r < 100 && 100 * Level(points) + r == points
  {
    JsRem(points, PointsPerLevel)
  }

  /** The level named in "para alcanzar el nivel ...". */
  function NextLevel(points: int): int {
    Level(points) + 1
  }

  /** `100 - progress`: the points still missing for the next level. */
  function PointsToNext(points: int): (r: int)
    ensures points >= 0 ==> 1 <= r <= 100 && points + r == 100 * NextLevel(points)
  {
    PointsPerLevel - Progress(points)
  }

  /** The profile page words the hint in the singular ("Te falta 1 punto") when progress > 98. */
  predicate SingularHint(points: int) {
    Progress(points) > 98
  }

  lemma SingularHintMeansOnePoint(points: int)
    requires points >= 0
    ensures SingularHint(points) <==> PointsToNext(points) == 1
  {
  }

  /** `(profile.points || 0) + 5` after a review is published; a missing or null total counts as 0. */
  function Gain(stored: Option<int>): (r: int)
    ensures stored.None? ==> r == PointsPerReview
    ensures stored.Some? ==> r - stored.value == PointsPerReview
  {
    stored.GetOr(0) + PointsPerReview
  }

  /** `Math.max(0, profile.points - 5)` after a review is deleted; a null total is 0 - 5, floored to 0. */
  function Lose(stored: Option<int>): (r: int)
    ensures r >= 0
    ensures stored.Some? && stored.value >= PointsPerReview ==> r == stored.value - PointsPerReview
    ensures (stored.None? || stored.value < PointsPerReview) ==> r == 0
  {
    var p := stored.GetOr(0) - PointsPerReview;
    if p > 0 then p else 0
  }

  /** Deleting the review just written gives the points back as they were. */
  lemma LoseUndoesGain(p: int)
    requires p >= 0
    ensures Lose(Some(Gain(Some(p)))) == p
  {
  }

  /** Writing a review after deleting one restores the total, unless the floor at 0 was hit. */
  lemma GainUndoesLose(p: int)
    ensures Gain(Some(Lose(Some(p)))) == p <==> p >= PointsPerReview
  {
  }

  /** A review moves the shown level up by one exactly when progress was 95 or more, and never by more. */
  lemma GainCrossesLevel(p: int)
    requires p >= 0
    ensures Level(Gain(Some(p))) == Level(p) || Level(Gain(Some(p))) == Level(p) + 1
    ensures Level(Gain(Some(p))) > Level(p) <==> Progress(p) >= 95
  {
  }

  /** The level-sync rule of the profile page: the level to write and announce, if any. */
  function LevelToAnnounce(points: int, serverLevel: int): (r: Option<int>)
    ensures r.Some? <==> Level(points) > serverLevel
    ensures r.Some? ==> r.value == Level(points)
  {
    if Level(points) > serverLevel then Some(Level(points)) else None
  }

  /** The stored level after the profile page has seen a point total. */
  function SyncedLevel(points: int, serverLevel: int): (r: int)
    ensures r >= serverLevel && r >= Level(points)
    ensures r == serverLevel || r == Level(points)
  {
    match LevelToAnnounce(points, serverLevel)
    case Some(l) => l
    case None => serverLevel
  }

  /** The levels announced while the page sees the totals of `history` in turn. */
  function Announced(history: seq<int>, serverLevel: int): seq<int>
    decreases |history|
  {
    if history == [] then []
    else match LevelToAnnounce(history[0], serverLevel)
      case Some(l) => [l] + Announced(history[1..], l)
      case None => Announced(history[1..], serverLevel)
  }

  /** Announced levels all exceed the starting level and strictly increase, so no level is announced twice. */
  lemma {:induction false} AnnouncedIncrease(history: seq<int>, serverLevel: int)
    ensures forall i :: 0 <= i < |Announced(history, serverLevel)| ==> Announced(history, serverLevel)[i] > serverLevel
    ensures forall i, j :: 0 <= i < j < |Announced(history, serverLevel)| ==>
      Announced(history, serverLevel)[i] < Announced(history, serverLevel)[j]
    decreases |history|
  {
    if history != [] {
      match LevelToAnnounce(history[0], serverLevel)
      case Some(l) => AnnouncedIncrease(history[1..], l);
      case None => AnnouncedIncrease(history[1..], serverLevel);
    }
  }

  /** Every announced level is the level of a total the page actually saw. */
  lemma {:induction false} AnnouncedAreSeen(history: seq<int>, serverLevel: int, i: nat)
    requires i < |Announced(history, serverLevel)|
    ensures exists k :: 0 <= k < |history| && Level(history[k]) == Announced(history, serverLevel)[i]
    decreases |history|
  {
    var tail := history[1..];
    match LevelToAnnounce(history[0], serverLevel)
    case Some(l) =>
      if i > 0 {
        AnnouncedAreSeen(tail, l, i - 1);
        var k :| 0 <= k < |tail| && Level(tail[k]) == Announced(tail, l)[i - 1];
        assert history[k + 1] == tail[k];
      }
    case None =>
      AnnouncedAreSeen(tail, serverLevel, i);
      var k :| 0 <= k < |tail| && Level(tail[k]) == Announced(tail, serverLevel)[i];
      assert history[k + 1] == tail[k];
  }
}
