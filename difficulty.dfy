/**
  Points awarded for a correct answer, by difficulty
  (lib/game/difficulty.ts with DIFFICULTY_POINTS from lib/constants/index.ts).
 */
module Difficulty {
  import opened Wrappers
  import opened JsText

  const EasyPoints: nat := 50
  const MediumPoints: nat := 100
  const HardPoints: nat := 150

  /**
    `DIFFICULTY_POINTS[key]` for the table's own keys; any other key reads as undefined.
    Inherited properties such as `constructor` are not modelled.
   */
  function DifficultyPoints(key: string): (r: Option<nat>)
    ensures r.Some? <==> key in {"easy", "medium", "hard"}
  {
    if key == "easy" then Some(EasyPoints)
    else if key == "medium" then Some(MediumPoints)
    else if key == "hard" then Some(HardPoints)
    else None
  }

  /** `getPointsForDifficulty`: lower-case the name, look it up, and fall back to the easy value. */
  function PointsForDifficulty(difficulty: string): (p: nat)
    ensures p in {EasyPoints, MediumPoints, HardPoints}
    ensures Lower(difficulty) == "medium" ==> p == MediumPoints
    ensures Lower(difficulty) == "hard" ==> p == HardPoints
    ensures Lower(difficulty) !in {"medium", "hard"} ==> p == EasyPoints
  {
    var normalized := Lower(difficulty);
    match DifficultyPoints(normalized)
    case Some(v) => if v != 0 then v else EasyPoints
    case None => EasyPoints
  }

  /** The lookup ignores ASCII case: any casing of a name scores like its lower-case form. */
  lemma PointsIgnoreCase(a: string, b: string)
    requires Lower(a) == Lower(b)
    ensures PointsForDifficulty(a) == PointsForDifficulty(b)
  {
  }

  /** Upper-casing a name does not change its points ("HARD" scores like "hard"). */
  lemma PointsOfUpperCase(d: string)
    ensures PointsForDifficulty(Upper(d)) == PointsForDifficulty(d)
  {
    LowerIgnoresCase(d);
  }

  /** The three own keys score 50, 100 and 150; medium is twice and hard three times easy. */
  lemma PointTable()
    ensures PointsForDifficulty("easy") == 50
    ensures PointsForDifficulty("medium") == 100 && PointsForDifficulty("medium") == 2 * PointsForDifficulty("easy")
    ensures PointsForDifficulty("hard") == 150 && PointsForDifficulty("hard") == 3 * PointsForDifficulty("easy")
  {
    assert Lower("medium") == "medium";
    assert Lower("hard") == "hard";
    assert Lower("easy") == "easy";
  }

  /** A name with padding is not a key, so " hard " scores the easy value. */
  lemma PaddedNameScoresEasy()
    ensures PointsForDifficulty(" hard ") == EasyPoints
    ensures PointsForDifficulty("") == EasyPoints
  {
    assert Lower(" hard ")[0] == ' ';
  }
}
