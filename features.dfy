/** The observation the agent computes from the game (Agent.get_state). */
module Features {
  import opened Geometry
  import opened Vectors

  /** The 11-entry observation: danger ahead, to the right and to the left of
      the heading; the heading as four flags (left, right, up, down); and
      whether the food is left of, right of, above or below the head.
      `isCollision` is the game's collision test, which is not modelled. */
  function GetState(head: Point, dir: Direction, food: Point, isCollision: Point -> bool): (v: seq<int>)
    ensures |v| == 11
    ensures forall i | 0 <= i < 11 :: v[i] == 0 || v[i] == 1
  {
    var pointL := Point(head.x - BlockSize, head.y);
    var pointR := Point(head.x + BlockSize, head.y);
    var pointU := Point(head.x, head.y - BlockSize);
    var pointD := Point(head.x, head.y + BlockSize);
    var dirL := dir == Left;
    var dirR := dir == Right;
    var dirU := dir == Up;
    var dirD := dir == Down;
    [ Flag((dirR && isCollision(pointR)) || (dirL && isCollision(pointL)) ||
           (dirU && isCollision(pointU)) || (dirD && isCollision(pointD))),
      Flag((dirU && isCollision(pointR)) || (dirD && isCollision(pointL)) ||
           (dirL && isCollision(pointU)) || (dirR && isCollision(pointD))),
      Flag((dirD && isCollision(pointR)) || (dirU && isCollision(pointL)) ||
           (dirR && isCollision(pointU)) || (dirL && isCollision(pointD))),
      Flag(dirL), Flag(dirR), Flag(dirU), Flag(dirD),
      Flag(food.x < head.x), Flag(food.x > head.x),
      Flag(food.y < head.y), Flag(food.y > head.y) ]
  }

  /** Position of a heading among the four heading flags (left, right, up, down). */
  function HeadingSlot(d: Direction): (k: nat)
    ensures k < 4
  {
    match d
    case Left => 0
    case Right => 1
    case Up => 2
    case Down => 3
  }

  /** The danger flags test the cell ahead, the cell one turn clockwise (to
      the snake's right) and the cell one turn counter-clockwise (its left). */
  lemma DangerFlags(head: Point, dir: Direction, food: Point, isCollision: Point -> bool)
    ensures GetState(head, dir, food, isCollision)[0] == Flag(isCollision(Neighbour(head, dir)))
    ensures GetState(head, dir, food, isCollision)[1] == Flag(isCollision(Neighbour(head, Clockwise(dir))))
    ensures GetState(head, dir, food, isCollision)[2] == Flag(isCollision(Neighbour(head, CounterClockwise(dir))))
  {
  }

  /** Exactly one heading flag is set: the one for the current heading. */
  lemma HeadingFlags(head: Point, dir: Direction, food: Point, isCollision: Point -> bool)
    ensures var v := GetState(head, dir, food, isCollision);
      v[3] + v[4] + v[5] + v[6] == 1 && v[3 + HeadingSlot(dir)] == 1
  {
  }

  /** Opposite food flags never both hold, and all four are clear exactly
      when the food is on the head. */
  lemma FoodFlags(head: Point, dir: Direction, food: Point, isCollision: Point -> bool)
    ensures var v := GetState(head, dir, food, isCollision);
      v[7] + v[8] <= 1 && v[9] + v[10] <= 1 &&
      (v[7] + v[8] + v[9] + v[10] == 0 <==> food == head)
  {
  }

  /** The heading can be read back from the observation: distinct headings
      give distinct heading flags. */
  lemma HeadingRecoverable(head: Point, d1: Direction, d2: Direction, food: Point, isCollision: Point -> bool)
    ensures GetState(head, d1, food, isCollision)[3..7] == GetState(head, d2, food, isCollision)[3..7] <==> d1 == d2
  {
    var v1 := GetState(head, d1, food, isCollision);
    var v2 := GetState(head, d2, food, isCollision);
    if d1 != d2 {
      HeadingFlags(head, d1, food, isCollision);
      HeadingFlags(head, d2, food, isCollision);
      assert v1[3 + HeadingSlot(d1)] == 1;
      assert v2[3 + HeadingSlot(d1)] == 0;
      assert v1[3..7][HeadingSlot(d1)] != v2[3..7][HeadingSlot(d1)];
    }
  }
}
