/** The alien formations of spawnAliens in src/game.js: a grid of 5 or 7 columns, a V in
    round 4 and an inverted Y in round 5, always 32 aliens. */
module Formations {
  import opened Globals
  import opened Seqs
  import opened Aliens

  const FormationSize: nat := 32
  const SpacingX: real := 200.0

  function Columns(round: int): nat {
    if round == 1 then 5 else 7
  }

  /** The x of the first column, which centres the grid on the screen. */
  function FirstColumnX(round: int): real {
    (GameWidth - (Columns(round) - 1) as real * SpacingX) / 2.0
  }

  /** The x of the centre column. */
  function CenterX(round: int): real {
    FirstColumnX(round) + (Columns(round) - 1) as real / 2.0 * SpacingX
  }

  function Abs(r: real): real {
    if r < 0.0 then -r else r
  }

  datatype Slot = Slot(x: real, y: real)

  /** The home position of alien i: row-major in the grid; in round 4 lowered by 80 per
      column away from the centre and then scaled by 0.8; in round 5 a stem of ten at
      the centre and then branches alternating left and right, one step of 80 further
      out for each pair. */
  function FormationSlot(round: int, i: nat): Slot {
    var cols := Columns(round);
    var row := i / cols;
    var col := i % cols;
    var x := FirstColumnX(round) + col as real * SpacingX;
    var y := 100.0 + row as real * 100.0;
    var centerCol := (cols - 1) as real / 2.0;
    if round == 4 then
      Slot(x, (y + Abs(col as real - centerCol) * 80.0) * 0.8)
    else if round == 5 then
      if i < 10 then Slot(CenterX(round), (50.0 + i as real * 60.0) * 0.5)
      else
        var branch := i - 10;
        var side := if branch % 2 == 0 then -1.0 else 1.0;
        var depth := (branch / 2 + 1) as real;
        Slot(CenterX(round) + side * depth * 80.0, ((50.0 + 9.0 * 60.0) + depth * 50.0) * 0.5)
    else Slot(x, y)
  }

  /** The aliens spawnAliens pushes, in order. */
  function Formation(round: int): seq<AlienState> {
    seq(FormationSize, i requires 0 <= i < FormationSize =>
      NewAlien(FormationSlot(round, i).x, FormationSlot(round, i).y, round))
  }

  /** Every formation has exactly 32 aliens, each new, hovering at its slot, unmarked
      and with no bullets, so none is diving or returning. */
  lemma FormationShape(round: int)
    ensures |Formation(round)| == 32
    ensures forall i :: 0 <= i < 32 ==>
      var a := Formation(round)[i];
      a.mode == Hover && !a.marked && a.bullets == []
      && a.baseX == a.x == FormationSlot(round, i).x && a.baseY == a.y == FormationSlot(round, i).y
    ensures Count(Formation(round), IsDiver) == 0
  {
    var f := Formation(round);
    forall i | 0 <= i < |f| ensures !IsDiver(f[i]) {
    }
    CountNone(f, IsDiver);
  }

  /** Round 1 has 5 columns and every other round 7; either way the grid is centred, its
      middle column at GAME_WIDTH / 2. */
  lemma GridCentred(round: int)
    ensures Columns(round) == (if round == 1 then 5 else 7)
    ensures CenterX(round) == GameWidth / 2.0
    ensures round == 1 ==> FirstColumnX(round) == 560.0
    ensures round != 1 ==> FirstColumnX(round) == 360.0
  {
  }

  /** Outside rounds 4 and 5 alien i sits in column i % cols and row i / cols, 200
      apart across and 100 apart down from y = 100. */
  lemma GridSlots(round: int, i: nat)
    requires round != 4 && round != 5
    ensures FormationSlot(round, i).x == FirstColumnX(round) + (i % Columns(round)) as real * 200.0
    ensures FormationSlot(round, i).y == 100.0 + (i / Columns(round)) as real * 100.0
  {
  }

  /** Round 4 is a V: two aliens in the same row at mirrored columns share their y, and
      the centre column sits highest in its row. */
  lemma RoundFourIsV(row: nat, c1: nat, c2: nat)
    requires c1 < 7 && c2 < 7 && c1 + c2 == 6
    ensures FormationSlot(4, row * 7 + c1).y == FormationSlot(4, row * 7 + c2).y
    ensures FormationSlot(4, row * 7 + 3).y <= FormationSlot(4, row * 7 + c1).y
  {
    assert (row * 7 + c1) / 7 == row && (row * 7 + c1) % 7 == c1;
    assert (row * 7 + c2) / 7 == row && (row * 7 + c2) % 7 == c2;
    assert (row * 7 + 3) / 7 == row && (row * 7 + 3) % 7 == 3;
  }

  /** Round 5 is an inverted Y: the first ten aliens share the centre x, 30 apart going
      down; then aliens 10 + 2k and 11 + 2k are mirror images about the centre at
      depth k + 1, the even one on the left, (k + 1) * 80 out. */
  lemma RoundFiveIsInvertedY(i: nat, k: nat)
    requires i < 10 && k < 11
    ensures FormationSlot(5, i).x == GameWidth / 2.0
    ensures FormationSlot(5, i).y == 25.0 + 30.0 * i as real
    ensures FormationSlot(5, 10 + 2 * k).x == GameWidth / 2.0 - (k + 1) as real * 80.0
    ensures FormationSlot(5, 11 + 2 * k).x == GameWidth / 2.0 + (k + 1) as real * 80.0
    ensures FormationSlot(5, 10 + 2 * k).y == FormationSlot(5, 11 + 2 * k).y
  {
    assert (2 * k) % 2 == 0 && (2 * k) / 2 == k;
    assert (2 * k + 1) % 2 == 1 && (2 * k + 1) / 2 == k;
    assert 11 + 2 * k - 10 == 2 * k + 1;
  }
}
