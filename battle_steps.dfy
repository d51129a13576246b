/** The battle as a state machine over whole snapshots: the start and reset states, one
    player attack and one enemy turn. The class `Battle.BattleState` is proved against these
    transitions; the lemmas here say what the transitions keep and what they change. */
module BattleSteps {
  import opened Common
  import opened BattleRules

  const StartLines: seq<string> := [
    "Battle started. Drag a friendly card onto an enemy card to attack.",
    "Each of your three cards acts once per turn, then enemies counterattack."]

  const ResetLines: seq<string> := [
    "Battle reset. Drag a friendly card onto an enemy card to attack.",
    "Each card acts once per turn."]

  const VictoryLine: string := "Victory! Enemy team eliminated."
  const EnemyTurnLine: string := "Enemy turn starts."
  const LossLine: string := "Loss! Your team was defeated."
  const PlayerTurnLine: string := "Your turn starts."

  /** Everything the battle page keeps for the fight itself. */
  datatype Snapshot = Snapshot(
    players: seq<Unit>, enemies: seq<Unit>, phase: Phase, winner: Option<Winner>, turn: int,
    log: seq<string>)

  /** `canBattle`. */
  predicate CanBattle(selected: seq<BattleCard>)
  {
    |selected| == 3
  }

  /** What holds of every state the page reaches from the cards it selected. */
  predicate Inv(s: Snapshot, selected: seq<BattleCard>)
  {
    && |selected| <= 3 && (forall i :: 0 <= i < |selected| ==> selected[i].hp > 0)
    && SameRoster(s.players, BuildPlayerUnits(selected)) && SameRoster(s.enemies, EnemyTemplate())
    && UnitsOk(s.players) && UnitsOk(s.enemies)
    && s.turn >= 1 && |s.log| <= LogCapacity
    && (s.phase == Finished <==> s.winner.Some?)
    && (s.winner == Some(PlayerWon) ==> AllDefeated(s.enemies) && !AllDefeated(s.players))
    && (s.winner == Some(EnemyWon) ==> AllDefeated(s.players) && !AllDefeated(s.enemies))
    && (s.winner.None? ==> !AllDefeated(s.enemies) && (|s.players| > 0 ==> !AllDefeated(s.players)))
    && (s.phase == EnemyPhase ==> CanBattle(selected) && AllAliveActed(s.players))
    && (s.phase == PlayerPhase && |s.players| > 0 ==> !AllAliveActed(s.players))
  }

  /** The state the page opens with. */
  function Initial(selected: seq<BattleCard>): Snapshot
  {
    Snapshot(BuildPlayerUnits(selected), EnemyTemplate(), PlayerPhase, None, 1, StartLines)
  }

  /** `handleResetBattle`: the same selection rebuilt, fresh enemies, turn 1, two log lines. */
  function Reset(selected: seq<BattleCard>): Snapshot
  {
    Snapshot(BuildPlayerUnits(selected), EnemyTemplate(), PlayerPhase, None, 1, ResetLines)
  }

  /** The guards of `resolvePlayerAttack`: the player's phase, no winner, `canBattle`, a living
      attacker that has not acted and a living target. */
  predicate Accepts(s: Snapshot, canBattle: bool, attackerId: UnitId, targetId: UnitId)
  {
    && s.phase == PlayerPhase && s.winner.None? && canBattle
    && FindLiving(s.players, attackerId).Some? && FindLiving(s.enemies, targetId).Some?
    && !s.players[FindLiving(s.players, attackerId).value].acted
  }

  /** `resolvePlayerAttack`. */
  function AttackStep(s: Snapshot, canBattle: bool, attackerId: UnitId, targetId: UnitId, jitter: Draw): Snapshot
    requires ValidDraw(jitter)
  {
    if !Accepts(s, canBattle, attackerId, targetId) then s
    else AcceptedAttack(s, FindLiving(s.players, attackerId).value, FindLiving(s.enemies, targetId).value, jitter)
  }

  /** The part of `resolvePlayerAttack` past its guards: living player `a` strikes living
      enemy `t`, the lines are logged, and the phase moves on. */
  function AcceptedAttack(s: Snapshot, a: nat, t: nat, jitter: Draw): Snapshot
    requires a < |s.players| && t < |s.enemies| && ValidDraw(jitter)
  {
    var r := ResolveAttack(s.players, s.enemies, s.turn, a, t, jitter);
    var s1 := s.(players := r.players, enemies := r.enemies, log := AppendLogs(s.log, r.lines));
    if AllDefeated(r.enemies) then
      s1.(winner := Some(PlayerWon), phase := Finished, log := AppendLogs(s1.log, [VictoryLine]))
    else if AllAliveActed(r.players) then
      s1.(phase := EnemyPhase, log := AppendLogs(s1.log, [EnemyTurnLine]))
    else s1
  }

  /** The enemy turn, run to completion. */
  function EnemyTurn(s: Snapshot, rolls: seq<EnemyRoll>): Snapshot
    requires ValidRolls(rolls, |s.enemies|)
  {
    if s.phase != EnemyPhase || s.winner.Some? then s
    else AfterSweep(s, SweepFrom(s.players, s.enemies, rolls, 0))
  }

  /** The end of the enemy turn, once the sweep has run: the loss, or the next player turn. */
  function AfterSweep(s: Snapshot, sw: SweepResult): Snapshot
  {
    var log := AppendLogs(s.log, sw.lines);
    if AllDefeated(sw.players) then
      s.(players := sw.players, winner := Some(EnemyWon), phase := Finished, log := AppendLogs(log, [LossLine]))
    else
      s.(players := RecoverAll(sw.players), turn := s.turn + 1, phase := PlayerPhase,
         log := AppendLogs(log, [PlayerTurnLine]))
  }

  /** Both rosters carry the ids `player-1..n` and `enemy-1..3` in array order. */
  lemma InvSlots(s: Snapshot, selected: seq<BattleCard>)
    requires Inv(s, selected)
    ensures SlotIds(s.players, PlayerSide) && SlotIds(s.enemies, EnemySide)
  {
    var b := BuildPlayerUnits(selected);
    var e := EnemyTemplate();
    forall i | 0 <= i < |s.players| ensures s.players[i].unitId == UnitId(PlayerSide, i + 1) {
      assert Fixed(s.players[i]).unitId == Fixed(b[i]).unitId;
    }
    forall i | 0 <= i < |s.enemies| ensures s.enemies[i].unitId == UnitId(EnemySide, i + 1) {
      assert Fixed(s.enemies[i]).unitId == Fixed(e[i]).unitId;
    }
  }

  /** The page opens, and every reset lands, in a state of the invariant with the player to
      move, every unit at full hp and nobody having acted. */
  lemma {:induction false} StartStatesInv(selected: seq<BattleCard>)
    requires |selected| <= 3 && forall i :: 0 <= i < |selected| ==> selected[i].hp > 0
    ensures Inv(Initial(selected), selected) && Inv(Reset(selected), selected)
    ensures |Initial(selected).log| == 2 && |Reset(selected).log| == 2
  {
    var ps := BuildPlayerUnits(selected);
    var es := EnemyTemplate();
    assert UnitsOk(ps);
    if |ps| > 0 {
      assert IsAlive(ps[0]) && !ps[0].acted;
    }
    assert IsAlive(es[0]);
  }

  /** A unit found by its slot id is the unit in that slot. */
  lemma FindLivingSlot(units: seq<Unit>, side: Side, i: nat)
    requires SlotIds(units, side) && i < |units| && IsAlive(units[i])
    ensures FindLiving(units, units[i].unitId) == Some(i)
  {
  }

  /** `resolvePlayerAttack` changes the state exactly when its guards hold. */
  lemma AttackChangesIff(s: Snapshot, selected: seq<BattleCard>, attackerId: UnitId, targetId: UnitId, jitter: Draw)
    requires Inv(s, selected) && ValidDraw(jitter)
    ensures AttackStep(s, CanBattle(selected), attackerId, targetId, jitter) != s
        <==> Accepts(s, CanBattle(selected), attackerId, targetId)
  {
    if Accepts(s, CanBattle(selected), attackerId, targetId) {
      var a := FindLiving(s.players, attackerId).value;
      var t := FindLiving(s.enemies, targetId).value;
      InvSlots(s, selected);
      AttackEffects(s.players, s.enemies, s.turn, a, t, jitter);
      assert AttackStep(s, CanBattle(selected), attackerId, targetId, jitter).players[a].acted;
    }
  }

  /** An accepted attack: the attacker, and no other player, becomes `acted`; the target loses
      hp (at least 16, or all it had); nothing else on the enemy side changes; the turn stays;
      and the phase moves to `finished` with the player as winner exactly when every enemy is
      down, otherwise to the enemy's phase exactly when every living player has acted. */
  lemma AttackAccepted(s: Snapshot, selected: seq<BattleCard>, a: nat, t: nat, jitter: Draw)
    requires Inv(s, selected) && ValidDraw(jitter) && CanBattle(selected)
    requires s.phase == PlayerPhase
    requires a < |s.players| && IsAlive(s.players[a]) && !s.players[a].acted
    requires t < |s.enemies| && IsAlive(s.enemies[t])
    ensures var n := AttackStep(s, true, s.players[a].unitId, s.enemies[t].unitId, jitter);
      && n.players[a].acted
      && (forall i :: 0 <= i < |s.players| && i != a ==> n.players[i].acted == s.players[i].acted)
      && (n.enemies[t].hp == 0 || n.enemies[t].hp <= s.enemies[t].hp - 16)
      && (forall j :: 0 <= j < |s.enemies| && j != t ==> n.enemies[j] == s.enemies[j])
      && n.turn == s.turn
      && (n.phase == Finished <==> AllDefeated(n.enemies))
      && (n.winner == Some(PlayerWon) <==> AllDefeated(n.enemies))
      && (n.phase == EnemyPhase <==> !AllDefeated(n.enemies) && AllAliveActed(n.players))
  {
    InvSlots(s, selected);
    FindLivingSlot(s.players, PlayerSide, a);
    FindLivingSlot(s.enemies, EnemySide, t);
    AttackEffects(s.players, s.enemies, s.turn, a, t, jitter);
    AttackDamageFloor(s.players, s.enemies, s.turn, a, t, jitter);
    var r := ResolveAttack(s.players, s.enemies, s.turn, a, t, jitter);
    var n := AttackStep(s, true, s.players[a].unitId, s.enemies[t].unitId, jitter);
    assert n.players == r.players && n.enemies == r.enemies && n.turn == s.turn;
  }

  /** The units after an accepted attack are the same rosters, within their bounds, with
      the attacker still alive. */
  lemma ResolveKeepsRosters(s: Snapshot, selected: seq<BattleCard>, a: nat, t: nat, jitter: Draw)
    requires Inv(s, selected) && ValidDraw(jitter)
    requires a < |s.players| && IsAlive(s.players[a]) && t < |s.enemies| && IsAlive(s.enemies[t])
    ensures var r := ResolveAttack(s.players, s.enemies, s.turn, a, t, jitter);
      && SameRoster(r.players, BuildPlayerUnits(selected)) && SameRoster(r.enemies, EnemyTemplate())
      && UnitsOk(r.players) && UnitsOk(r.enemies) && IsAlive(r.players[a]) && |r.lines| >= 1
  {
    InvSlots(s, selected);
    AttackKeepsUnitsOk(s.players, s.enemies, s.turn, a, t, jitter);
    var r := ResolveAttack(s.players, s.enemies, s.turn, a, t, jitter);
    assert SameRoster(r.players, BuildPlayerUnits(selected)) by {
      forall i | 0 <= i < |r.players| ensures Fixed(r.players[i]) == Fixed(BuildPlayerUnits(selected)[i]) {
        assert Fixed(r.players[i]) == Fixed(s.players[i]);
      }
    }
    assert SameRoster(r.enemies, EnemyTemplate()) by {
      forall j | 0 <= j < |r.enemies| ensures Fixed(r.enemies[j]) == Fixed(EnemyTemplate()[j]) {
        assert Fixed(r.enemies[j]) == Fixed(s.enemies[j]);
      }
    }
  }

  /** `resolvePlayerAttack` keeps the invariant. */
  lemma AttackStepInv(s: Snapshot, selected: seq<BattleCard>, attackerId: UnitId, targetId: UnitId, jitter: Draw)
    requires Inv(s, selected) && ValidDraw(jitter)
    ensures Inv(AttackStep(s, CanBattle(selected), attackerId, targetId, jitter), selected)
  {
    if Accepts(s, CanBattle(selected), attackerId, targetId) {
      var a := FindLiving(s.players, attackerId).value;
      var t := FindLiving(s.enemies, targetId).value;
      ResolveKeepsRosters(s, selected, a, t, jitter);
      var r := ResolveAttack(s.players, s.enemies, s.turn, a, t, jitter);
      var log1 := AppendLogs(s.log, r.lines);
      assert |log1| <= LogCapacity;
      assert !AllDefeated(r.players);
      var n := AttackStep(s, CanBattle(selected), attackerId, targetId, jitter);
      assert n.players == r.players && n.enemies == r.enemies && n.turn == s.turn;
    }
  }

  /** The enemy turn keeps the invariant. */
  lemma EnemyTurnInv(s: Snapshot, selected: seq<BattleCard>, rolls: seq<EnemyRoll>)
    requires Inv(s, selected) && ValidRolls(rolls, |s.enemies|)
    ensures Inv(EnemyTurn(s, rolls), selected)
  {
    if s.phase == EnemyPhase && s.winner.None? {
      SweepEffects(s.players, s.enemies, rolls, 0);
      AfterSweepInv(s, selected, SweepFrom(s.players, s.enemies, rolls, 0));
    }
  }

  /** Whatever a sweep does within its bounds, the end of the enemy turn keeps the invariant. */
  lemma AfterSweepInv(s: Snapshot, selected: seq<BattleCard>, sw: SweepResult)
    requires Inv(s, selected) && s.phase == EnemyPhase && s.winner.None?
    requires HpLowered(sw.players, s.players) && UnitsOk(sw.players)
    ensures Inv(AfterSweep(s, sw), selected)
  {
    HpLoweredRoster(sw.players, s.players, BuildPlayerUnits(selected));
    var log := AppendLogs(s.log, sw.lines);
    if AllDefeated(sw.players) {
      assert |AppendLogs(log, [LossLine])| <= LogCapacity;
    } else {
      RecoverEffects(sw.players, BuildPlayerUnits(selected));
      assert |AppendLogs(log, [PlayerTurnLine])| <= LogCapacity;
    }
  }




  /** The enemy turn: the enemies do not change; a player team that survives gets the next
      turn, its living units ready to act with 5 less bonus, its defeated units untouched;
      otherwise the enemy wins. No player gains hp. */
  lemma EnemyTurnEffects(s: Snapshot, selected: seq<BattleCard>, rolls: seq<EnemyRoll>)
    requires Inv(s, selected) && ValidRolls(rolls, |s.enemies|)
    requires s.phase == EnemyPhase
    ensures var n := EnemyTurn(s, rolls);
      && n.enemies == s.enemies
      && |n.players| == |s.players|
      && (forall i :: 0 <= i < |s.players| ==> n.players[i].hp <= s.players[i].hp)
      && (forall i :: 0 <= i < |s.players| && !IsAlive(s.players[i]) ==> n.players[i] == s.players[i])
      && (n.winner == Some(EnemyWon) <==> AllDefeated(n.players))
      && (n.phase == PlayerPhase <==> !AllDefeated(n.players))
      && (n.phase == PlayerPhase ==> n.turn == s.turn + 1)
      && (n.phase == PlayerPhase ==> forall i :: 0 <= i < |n.players| && IsAlive(n.players[i]) ==>
            (!n.players[i].acted && n.players[i].bonusAttack == Max(0, s.players[i].bonusAttack - 5)))
      && (n.phase != PlayerPhase ==> n.turn == s.turn)
  {
    SweepEffects(s.players, s.enemies, rolls, 0);
  }

  /** Once there is a winner, neither an attack nor an enemy turn changes anything. */
  lemma FinishedIsFinal(s: Snapshot, canBattle: bool, attackerId: UnitId, targetId: UnitId, jitter: Draw, rolls: seq<EnemyRoll>)
    requires ValidDraw(jitter) && ValidRolls(rolls, |s.enemies|)
    requires s.winner.Some?
    ensures AttackStep(s, canBattle, attackerId, targetId, jitter) == s
    ensures EnemyTurn(s, rolls) == s
  {
  }

  /** The battle never stalls: in the player's phase with three cards selected some attack is
      accepted, and in the enemy's phase the enemy turn moves the battle on. */
  lemma Progress(s: Snapshot, selected: seq<BattleCard>, rolls: seq<EnemyRoll>)
    requires Inv(s, selected) && CanBattle(selected) && ValidRolls(rolls, |s.enemies|)
    ensures s.phase == PlayerPhase ==>
      exists i, j :: 0 <= i < |s.players| && 0 <= j < |s.enemies|
        && Accepts(s, true, s.players[i].unitId, s.enemies[j].unitId)
    ensures s.phase == EnemyPhase ==> EnemyTurn(s, rolls).phase != EnemyPhase
  {
    if s.phase == PlayerPhase {
      InvSlots(s, selected);
      var i :| 0 <= i < |s.players| && IsAlive(s.players[i]) && !s.players[i].acted;
      var j :| 0 <= j < |s.enemies| && IsAlive(s.enemies[j]);
      FindLivingSlot(s.players, PlayerSide, i);
      FindLivingSlot(s.enemies, EnemySide, j);
      assert Accepts(s, true, s.players[i].unitId, s.enemies[j].unitId);
    }
  }
}
