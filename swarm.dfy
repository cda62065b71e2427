/** The alien part of a PLAYING tick in src/game.js: the dive flag recomputed from the
    aliens, then every alien updated in order with its bullet queue popped into the
    enemy bullets. Together with the alien's own dive rule this keeps at most one alien
    diving or returning. */
module Swarms {
  import opened Globals
  import opened Seqs
  import opened Bullets
  import opened Aliens

  /** The state the alien loop threads through: the aliens, the enemy bullets, the
      shared activeDiveInProgress flag and the random cursor. */
  datatype SwarmState = SwarmState(aliens: seq<AlienState>, alienBullets: seq<BulletState>,
                                   diveFlag: bool, draws: nat)

  /** aliens.some(a => a.state === 'DIVE' || a.state === 'RETURN') */
  predicate AnyDiver(aliens: seq<AlienState>) {
    exists i :: 0 <= i < |aliens| && IsDiver(aliens[i])
  }

  /** Alien j updated, then its queue popped onto the enemy bullets until empty. */
  function UpdateOne(s: SwarmState, j: nat, dt: real, env: AlienInputs): (r: SwarmState)
    requires j < |s.aliens|
    ensures |r.aliens| == |s.aliens|
  {
    var u := AlienStep(s.aliens[j], dt, env, s.diveFlag, s.draws);
    SwarmState(s.aliens[j := u.alien.(bullets := [])], s.alienBullets + Reverse(u.alien.bullets),
               u.diveFlag, u.draws)
  }

  /** Aliens j, j + 1, ... updated in turn. */
  function UpdateFrom(s: SwarmState, j: nat, dt: real, env: AlienInputs): (r: SwarmState)
    requires j <= |s.aliens|
    ensures |r.aliens| == |s.aliens|
    decreases |s.aliens| - j
  {
    if j == |s.aliens| then s else UpdateFrom(UpdateOne(s, j, dt, env), j + 1, dt, env)
  }

  /** The flag recomputed, then the whole alien loop. */
  function UpdateSwarm(aliens: seq<AlienState>, alienBullets: seq<BulletState>, dt: real,
                       env: AlienInputs, draws: nat): SwarmState {
    UpdateFrom(SwarmState(aliens, alienBullets, AnyDiver(aliens), draws), 0, dt, env)
  }

  /** At most one diver, and none while the flag is down. */
  predicate DiverBound(s: SwarmState) {
    Count(s.aliens, IsDiver) <= 1 && (!s.diveFlag ==> Count(s.aliens, IsDiver) == 0)
  }

  /** One alien's update keeps the bound: an alien can only start a dive while the flag
      is down, and starting raises the flag. */
  lemma UpdateOneKeepsBound(s: SwarmState, j: nat, dt: real, env: AlienInputs)
    requires j < |s.aliens| && DiverBound(s)
    ensures DiverBound(UpdateOne(s, j, dt, env))
  {
    var a := s.aliens[j];
    var u := AlienStep(a, dt, env, s.diveFlag, s.draws);
    DiveStartRule(a, dt, env, s.diveFlag, s.draws);
    ModeCycle(a, dt, env, s.diveFlag, s.draws);
    CountUpdate(s.aliens, j, u.alien.(bullets := []), IsDiver);
    if !IsDiver(a) && IsDiver(u.alien) {
      assert !s.diveFlag;
      assert Count(s.aliens, IsDiver) == 0;
    }
  }

  lemma {:induction false} UpdateFromKeepsBound(s: SwarmState, j: nat, dt: real, env: AlienInputs)
    requires j <= |s.aliens| && DiverBound(s)
    ensures DiverBound(UpdateFrom(s, j, dt, env))
    decreases |s.aliens| - j
  {
    if j < |s.aliens| {
      UpdateOneKeepsBound(s, j, dt, env);
      UpdateFromKeepsBound(UpdateOne(s, j, dt, env), j + 1, dt, env);
    }
  }

  lemma AnyDiverCount(aliens: seq<AlienState>)
    ensures AnyDiver(aliens) <==> Count(aliens, IsDiver) > 0
  {
    CountNone(aliens, IsDiver);
  }

  /** With at most one alien diving or returning before the loop, there is at most one
      after it: the invariant the shared flag exists for. */
  lemma SwarmKeepsOneDiver(aliens: seq<AlienState>, alienBullets: seq<BulletState>, dt: real,
                           env: AlienInputs, draws: nat)
    requires Count(aliens, IsDiver) <= 1
    ensures Count(UpdateSwarm(aliens, alienBullets, dt, env, draws).aliens, IsDiver) <= 1
  {
    AnyDiverCount(aliens);
    UpdateFromKeepsBound(SwarmState(aliens, alienBullets, AnyDiver(aliens), draws), 0, dt, env);
  }

  /** One alien's update: only alien j changes, its queue ends empty, its mark stays,
      its mode moves at most one step, and the enemy bullets gain its queue at the end. */
  lemma UpdateOneEffect(s: SwarmState, j: nat, dt: real, env: AlienInputs)
    requires j < |s.aliens| && s.aliens[j].bullets == []
    ensures var t := UpdateOne(s, j, dt, env);
      && t.aliens == s.aliens[j := t.aliens[j]]
      && t.aliens[j].bullets == [] && t.aliens[j].marked == s.aliens[j].marked
      && NextMode(s.aliens[j].mode, t.aliens[j].mode)
      && |s.alienBullets| <= |t.alienBullets| <= |s.alienBullets| + 1
      && t.alienBullets[..|s.alienBullets|] == s.alienBullets
  {
    var a := s.aliens[j];
    ShootRule(a, dt, env, s.diveFlag, s.draws);
    ModeCycle(a, dt, env, s.diveFlag, s.draws);
    var u := AlienStep(a, dt, env, s.diveFlag, s.draws);
    assert |u.alien.bullets| <= 1;
    assert u.alien.marked == a.marked;
  }

  /** After aliens j.. are updated, every alien from j on has an empty queue, the
      earlier ones are untouched, marks are kept, the old enemy bullets stay in front,
      and each alien whose queue was empty added at most one bullet. */
  lemma {:induction false} UpdateFromEffect(s: SwarmState, j: nat, dt: real, env: AlienInputs)
    requires j <= |s.aliens|
    requires forall i :: j <= i < |s.aliens| ==> s.aliens[i].bullets == []
    ensures var r := UpdateFrom(s, j, dt, env);
      && r.aliens[..j] == s.aliens[..j]
      && (forall i :: j <= i < |r.aliens| ==> r.aliens[i].bullets == [])
      && (forall i :: 0 <= i < |r.aliens| ==> r.aliens[i].marked == s.aliens[i].marked)
      && (forall i :: 0 <= i < |r.aliens| ==> NextMode(s.aliens[i].mode, r.aliens[i].mode))
      && |s.alienBullets| <= |r.alienBullets| <= |s.alienBullets| + (|s.aliens| - j)
      && r.alienBullets[..|s.alienBullets|] == s.alienBullets
    decreases |s.aliens| - j
  {
    if j < |s.aliens| {
      UpdateOneEffect(s, j, dt, env);
      var t := UpdateOne(s, j, dt, env);
      UpdateFromEffect(t, j + 1, dt, env);
      var r := UpdateFrom(t, j + 1, dt, env);
      assert r == UpdateFrom(s, j, dt, env);
      assert r.aliens[..j] == t.aliens[..j + 1][..j];
      assert r.alienBullets[..|s.alienBullets|] == r.alienBullets[..|t.alienBullets|][..|s.alienBullets|];
    }
  }

  /** The alien loop of a tick: every alien's queue is empty afterwards, no alien's mark
      changes, every mode moves at most one step around the cycle, and the enemy bullets
      keep the old ones in front and gain at most one per alien. */
  lemma SwarmDrains(aliens: seq<AlienState>, alienBullets: seq<BulletState>, dt: real,
                    env: AlienInputs, draws: nat)
    requires forall i :: 0 <= i < |aliens| ==> aliens[i].bullets == []
    ensures var r := UpdateSwarm(aliens, alienBullets, dt, env, draws);
      && |r.aliens| == |aliens|
      && (forall i :: 0 <= i < |r.aliens| ==> r.aliens[i].bullets == [])
      && (forall i :: 0 <= i < |r.aliens| ==> r.aliens[i].marked == aliens[i].marked)
      && (forall i :: 0 <= i < |r.aliens| ==> NextMode(aliens[i].mode, r.aliens[i].mode))
      && |alienBullets| <= |r.alienBullets| <= |alienBullets| + |aliens|
      && r.alienBullets[..|alienBullets|] == alienBullets
  {
    UpdateFromEffect(SwarmState(aliens, alienBullets, AnyDiver(aliens), draws), 0, dt, env);
  }
}
