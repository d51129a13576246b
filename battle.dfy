/** The battle page's state and its handlers. Each handler is written the way the page
    computes it (copies of the unit arrays updated slot by slot, the enemy sweep as a loop,
    the log appended as lines arrive) and is proved to perform exactly the transition of
    module BattleSteps, whose invariant every handler therefore keeps. */
module Battle {
  import opened Common
  import opened BattleRules
  import opened BattleSteps

  /** One `seen`-set loop of the `selectedCards` memo: walk `cards` in order, skip every card
      whose id was seen, take the others, and stop once three are taken. */
  method TakeUnseen(taken: seq<BattleCard>, seen: set<string>, cards: seq<BattleCard>)
    returns (taken': seq<BattleCard>, seen': set<string>)
    requires seen == IdSet(taken) && |taken| < 3
    ensures taken' == Gather(taken, cards) && seen' == IdSet(taken') && |taken'| <= 3
  {
    taken', seen' := taken, seen;
    var i := 0;
    while i < |cards|
      invariant 0 <= i <= |cards|
      invariant seen' == IdSet(taken') && |taken'| < 3
      invariant Gather(taken', cards[i..]) == Gather(taken, cards)
    {
      var card := cards[i];
      assert cards[i..] == [card] + cards[i + 1..];
      if card.id in seen' {
        i := i + 1;
        continue;
      }
      assert (taken' + [card])[..|taken'|] == taken';
      taken' := taken' + [card];
      seen' := seen' + {card.id};
      if |taken'| == 3 {
        return;
      }
      i := i + 1;
    }
    assert cards[i..] == [];
  }

  /** The accepted part of `resolvePlayerAttack` on copies of both sides: the base damage,
      the attacker's ability, the hit on the target (its vulnerability ticking down), and the
      attacker marked as acted, with the lines to log. Its specification is
      `BattleRules.ResolveAttack`. */
  method StrikeEnemy(players: seq<Unit>, enemies: seq<Unit>, turn: int, a: nat, t: nat, jitter: Draw)
    returns (nextPlayers: seq<Unit>, nextEnemies: seq<Unit>, lines: seq<string>)
    requires a < |players| && t < |enemies| && ValidDraw(jitter)
    ensures var r := ResolveAttack(players, enemies, turn, a, t, jitter);
      nextPlayers == r.players && nextEnemies == r.enemies && lines == r.lines
  {
    var attacker := players[a];
    var target := enemies[t];
    var computedDamage: nat := Max(20, attacker.attack + attacker.bonusAttack + RandomInt(-8, 12, jitter));
    if target.vulnerableTurns > 0 {
      computedDamage := RoundTenths(computedDamage, 12);
    }
    var damage, abilityLog, attackKind;
    nextPlayers, nextEnemies, damage, abilityLog, attackKind :=
      ApplyPlayerAbility(attacker, players, enemies, t, computedDamage, turn);
    nextEnemies := nextEnemies[t := ClampHp(nextEnemies[t].(
      hp := nextEnemies[t].hp - damage,
      vulnerableTurns := Max(0, nextEnemies[t].vulnerableTurns - 1)))];
    nextPlayers := nextPlayers[a := nextPlayers[a].(acted := true)];
    lines := [HitLine(attackKind, attacker.name, target.name, damage)] + abilityLog;
    assert computedDamage == BaseDamage(attacker, target, jitter);
  }

  lemma AppendAssoc<T>(a: seq<T>, b: seq<T>, c: seq<T>)
    ensures a + (b + c) == (a + b) + c
  {
  }

  /** Once the enemies before `i` have acted, leaving `players` and the lines `lines`, the rest
      of the sweep completes `whole`. */
  ghost predicate SweptUpTo(whole: SweepResult, players: seq<Unit>, lines: seq<string>,
    enemies: seq<Unit>, rolls: seq<EnemyRoll>, i: nat)
    requires i <= |enemies| && ValidRolls(rolls, |enemies|)
  {
    var rest := SweepFrom(players, enemies, rolls, i);
    whole.players == rest.players && whole.lines == lines + rest.lines
  }

  /** A defeated enemy is passed over. */
  lemma SweptSkip(whole: SweepResult, players: seq<Unit>, lines: seq<string>,
    enemies: seq<Unit>, rolls: seq<EnemyRoll>, i: nat)
    requires i < |enemies| && ValidRolls(rolls, |enemies|) && !IsAlive(enemies[i])
    requires SweptUpTo(whole, players, lines, enemies, rolls, i)
    ensures SweptUpTo(whole, players, lines, enemies, rolls, i + 1)
  {
    SweepFromUnfold(players, enemies, rolls, i);
  }

  /** A living enemy's strike moves the sweep on by one enemy and one line. */
  lemma SweptStrike(whole: SweepResult, players: seq<Unit>, lines: seq<string>,
    enemies: seq<Unit>, rolls: seq<EnemyRoll>, i: nat, next: seq<Unit>, line: string)
    requires i < |enemies| && ValidRolls(rolls, |enemies|) && IsAlive(enemies[i]) && !AllDefeated(players)
    requires SweptUpTo(whole, players, lines, enemies, rolls, i)
    requires SweepResult(next, [line]) == EnemyStrike(players, enemies[i], rolls[i])
    ensures SweptUpTo(whole, next, lines + [line], enemies, rolls, i + 1)
  {
    SweepFromUnfold(players, enemies, rolls, i);
    AppendAssoc(lines, [line], SweepFrom(next, enemies, rolls, i + 1).lines);
  }

  /** The sweep is over after the last enemy, or at a living enemy with no player left. */
  lemma SweptAll(whole: SweepResult, players: seq<Unit>, lines: seq<string>,
    enemies: seq<Unit>, rolls: seq<EnemyRoll>, i: nat)
    requires i <= |enemies| && ValidRolls(rolls, |enemies|)
    requires i == |enemies| || (IsAlive(enemies[i]) && AllDefeated(players))
    requires SweptUpTo(whole, players, lines, enemies, rolls, i)
    ensures whole == SweepResult(players, lines)
  {
    if i < |enemies| {
      SweepFromUnfold(players, enemies, rolls, i);
    }
    assert lines + [] == lines;
  }

  /** One enemy's strike inside the sweep loop: a random living player is hit for the
      enemy's attack plus a jitter, at least 16, and one log line is written. */
  method StrikePlayer(players: seq<Unit>, alivePlayerIndexes: seq<nat>, enemy: Unit, roll: EnemyRoll)
    returns (nextPlayers: seq<Unit>, line: string)
    requires ValidDraw(roll.target) && ValidDraw(roll.jitter)
    requires alivePlayerIndexes == AliveIndexes(players, 0) && |alivePlayerIndexes| > 0
    ensures !AllDefeated(players) && SweepResult(nextPlayers, [line]) == EnemyStrike(players, enemy, roll)
  {
    var targetIndex := alivePlayerIndexes[RandomInt(0, |alivePlayerIndexes| - 1, roll.target)];
    var target := players[targetIndex];
    var damage := Max(16, enemy.attack + RandomInt(-6, 10, roll.jitter));
    var attackKind := EnemyKind(enemy);
    nextPlayers := players[targetIndex := ClampHp(players[targetIndex].(hp := players[targetIndex].hp - damage))];
    line := HitLine(attackKind, enemy.name, target.name, damage);
  }

  lemma SliceWhole<T>(s: seq<T>, n: nat)
    requires n == |s|
    ensures s[..n] == s
  {
  }

  /** The `selectedCards` memo: the requested cards, then padding from the available cards
      past the ids already seen. */
  method SelectCards(available: seq<BattleCard>, param: string) returns (cards: seq<BattleCard>)
    ensures cards == Selection(available, param)
  {
    var fromQuery := FromQuery(available, RequestedIds(param));
    var uniqueFromQuery, seen := TakeUnseen([], {}, fromQuery);
    assert uniqueFromQuery == RequestedCards(available, param);
    if |uniqueFromQuery| >= 3 {
      cards := uniqueFromQuery[..3];
      SliceWhole(uniqueFromQuery, 3);
      return;
    }
    cards, seen := TakeUnseen(uniqueFromQuery, seen, available);
  }

  /** `applyPlayerAbility`: copies of both sides, the attacker's class effect written into
      them, and the damage, log lines and strike name that go with it. Its specification is
      `BattleRules.AbilityPlayers`, `BattleRules.AbilityEnemies`, `BattleRules.AbilityDamage`,
      `BattleRules.AbilityLines` and `BattleRules.AttackKind`. */
  method ApplyPlayerAbility(attacker: Unit, currentPlayers: seq<Unit>, currentEnemies: seq<Unit>, targetIndex: nat, baseDamage: nat, turn: int)
    returns (nextPlayers: seq<Unit>, nextEnemies: seq<Unit>, damage: nat, abilityLog: seq<string>, attackKind: string)
    requires targetIndex < |currentEnemies|
    ensures nextPlayers == AbilityPlayers(attacker, currentPlayers)
    ensures nextEnemies == AbilityEnemies(attacker, currentEnemies, targetIndex)
    ensures damage == AbilityDamage(attacker, baseDamage, turn, targetIndex)
    ensures abilityLog == AbilityLines(attacker, currentPlayers, currentEnemies[targetIndex], turn, targetIndex)
    ensures attackKind == AttackKind(attacker, turn, targetIndex)
  {
    nextPlayers := currentPlayers;
    nextEnemies := currentEnemies;
    damage := baseDamage;
    attackKind := PlayerKind(attacker.unitType);
    abilityLog := [];
    if attacker.unitType == "Healer" {
      var healTarget := LowestHpAlive(nextPlayers, 0);
      if healTarget.Some? {
        var h := healTarget.value;
        nextPlayers := nextPlayers[h := ClampHp(nextPlayers[h].(hp := nextPlayers[h].hp + 55))];
        abilityLog := abilityLog + ["[Heal Pulse] " + attacker.name + " restores 55 HP."];
      }
    } else if attacker.unitType == "Support" {
      nextPlayers := BuffAll(nextPlayers);
      abilityLog := abilityLog + ["[Buff Aura] " + attacker.name + " raises ally attack."];
    } else if attacker.unitType == "Debuffer" {
      var target := nextEnemies[targetIndex];
      nextEnemies := nextEnemies[targetIndex := target.(vulnerableTurns := Max(target.vulnerableTurns, 2))];
      abilityLog := abilityLog + ["[Vulnerable Mark] " + target.name + " is exposed."];
    } else if attacker.unitType == "Tank" {
      damage := RoundTenths(damage, 8);
      var selfIndex := FindById(nextPlayers, attacker.unitId);
      if selfIndex.Some? {
        var k := selfIndex.value;
        nextPlayers := nextPlayers[k := ClampHp(nextPlayers[k].(hp := nextPlayers[k].hp + 28))];
      }
      abilityLog := abilityLog + ["[Shield Bash] " + attacker.name + " braces and counter-slams."];
    } else if attacker.unitType == "DPS" || attacker.unitType == "Sub DPS" {
      var attackerSlot := attacker.unitId.slot;
      var critTrigger := (turn + attackerSlot + targetIndex) % 3 == 0;
      if critTrigger {
        damage := RoundTenths(damage, 17);
        attackKind := "Critical Burst";
        abilityLog := abilityLog + ["[Critical Burst] " + attacker.name + " lands a critical strike."];
      }
    }
  }

  /** The state of `BattlePageClient`: the cards it was given and the loadout string, the
      selection made from them, both unit arrays, the phase, the winner, the turn counter
      and the log. */
  class BattleState {
    const available: seq<BattleCard>
    const loadoutParam: string
    const selected: seq<BattleCard>
    var players: seq<Unit>
    var enemies: seq<Unit>
    var phase: Phase
    var winner: Option<Winner>
    var turn: int
    var log: seq<string>

    function State(): Snapshot
      reads this
    {
      Snapshot(players, enemies, phase, winner, turn, log)
    }

    ghost predicate Valid()
      reads this
    {
      Inv(State(), selected)
    }

    /** The page opens on the selection from `loadoutParam`, in the start state. */
    constructor(available: seq<BattleCard>, loadoutParam: string)
      requires forall c :: c in available ==> c.hp > 0
      ensures this.available == available && this.loadoutParam == loadoutParam
      ensures selected == Selection(available, loadoutParam)
      ensures State() == Initial(selected)
      ensures Valid()
    {
      var sel := SelectCards(available, loadoutParam);
      this.available := available;
      this.loadoutParam := loadoutParam;
      selected := sel;
      players := BuildPlayerUnits(sel);
      enemies := EnemyTemplate();
      phase := PlayerPhase;
      winner := None;
      turn := 1;
      log := StartLines;
      SelectionProps(available, loadoutParam);
      StartStatesInv(sel);
    }

    /** `appendLogs`. */
    method AppendLogs(lines: seq<string>)
      modifies this
      ensures log == BattleRules.AppendLogs(old(log), lines)
      ensures players == old(players) && enemies == old(enemies) && phase == old(phase)
      ensures winner == old(winner) && turn == old(turn)
    {
      if |lines| == 0 {
        return;
      }
      log := Window(log + lines);
    }

    /** `resolvePlayerAttack`. */
    method ResolvePlayerAttack(attackerId: UnitId, targetId: UnitId, jitter: Draw)
      requires Valid() && ValidDraw(jitter)
      modifies this
      ensures Valid()
      ensures State() == AttackStep(old(State()), CanBattle(selected), attackerId, targetId, jitter)
    {
      AttackStepInv(State(), selected, attackerId, targetId, jitter);
      PerformAttack(attackerId, targetId, jitter);
    }

    method PerformAttack(attackerId: UnitId, targetId: UnitId, jitter: Draw)
      requires ValidDraw(jitter)
      modifies this
      ensures State() == AttackStep(old(State()), CanBattle(selected), attackerId, targetId, jitter)
    {
      if phase != PlayerPhase || winner.Some? || |selected| != 3 {
        return;
      }
      var attackerIndex := FindLiving(players, attackerId);
      var targetIndex := FindLiving(enemies, targetId);
      if attackerIndex.None? || targetIndex.None? {
        return;
      }
      var a := attackerIndex.value;
      var attacker := players[a];
      if attacker.acted {
        return;
      }
      ghost var s0 := State();
      var t := targetIndex.value;
      var nextPlayers, nextEnemies, lines := StrikeEnemy(players, enemies, turn, a, t, jitter);
      players := nextPlayers;
      enemies := nextEnemies;
      AppendLogs(lines);
      if AllDefeated(nextEnemies) {
        winner := Some(PlayerWon);
        phase := Finished;
        AppendLogs([VictoryLine]);
      } else if AllAliveActed(nextPlayers) {
        phase := EnemyPhase;
        AppendLogs([EnemyTurnLine]);
      }
      assert State() == AcceptedAttack(s0, a, t, jitter);
    }

    /** The enemy turn, run as one synchronous sweep followed by the loss check or the start
      of the next turn. */
    method RunEnemyTurn(rolls: seq<EnemyRoll>)
      requires Valid() && ValidRolls(rolls, |enemies|)
      modifies this
      ensures Valid()
      ensures State() == EnemyTurn(old(State()), rolls)
    {
      EnemyTurnInv(State(), selected, rolls);
      PerformEnemyTurn(rolls);
    }

    /** Each living enemy in turn strikes a living player (battle page's enemy loop); the
        sweep stops once no player is alive. Only the players and the log change. */
    method SweepEnemies(rolls: seq<EnemyRoll>) returns (nextPlayers: seq<Unit>, roundLogs: seq<string>)
      requires ValidRolls(rolls, |enemies|)
      modifies this
      ensures SweepFrom(old(players), old(enemies), rolls, 0) == SweepResult(nextPlayers, roundLogs)
      ensures players == nextPlayers && log == BattleRules.AppendLogs(old(log), roundLogs)
      ensures enemies == old(enemies) && phase == old(phase) && winner == old(winner) && turn == old(turn)
    {
      ghost var s0 := State();
      ghost var sw := SweepFrom(s0.players, s0.enemies, rolls, 0);
      nextPlayers := players;
      var nextEnemies := enemies;
      roundLogs := [];
      var i := 0;
      while i < |nextEnemies|
        invariant 0 <= i <= |nextEnemies| && nextEnemies == s0.enemies
        invariant SweptUpTo(sw, nextPlayers, roundLogs, nextEnemies, rolls, i)
        invariant players == nextPlayers && log == BattleRules.AppendLogs(s0.log, roundLogs)
        invariant enemies == s0.enemies && phase == s0.phase && winner == s0.winner && turn == s0.turn
        decreases |nextEnemies| - i
      {
        var enemy := nextEnemies[i];
        if enemy.hp <= 0 {
          SweptSkip(sw, nextPlayers, roundLogs, nextEnemies, rolls, i);
          i := i + 1;
          continue;
        }
        var alivePlayerIndexes := AliveIndexes(nextPlayers, 0);
        if |alivePlayerIndexes| == 0 {
          break;
        }
        var struck, line := StrikePlayer(nextPlayers, alivePlayerIndexes, enemy, rolls[i]);
        SweptStrike(sw, nextPlayers, roundLogs, nextEnemies, rolls, i, struck, line);
        nextPlayers := struck;
        players := nextPlayers;
        AppendLogsTwice(s0.log, roundLogs, [line]);
        roundLogs := roundLogs + [line];
        AppendLogs([line]);
        i := i + 1;
      }
      SweptAll(sw, nextPlayers, roundLogs, nextEnemies, rolls, i);
    }

    method PerformEnemyTurn(rolls: seq<EnemyRoll>)
      requires ValidRolls(rolls, |enemies|)
      modifies this
      ensures State() == EnemyTurn(old(State()), rolls)
    {
      if phase != EnemyPhase || winner.Some? {
        return;
      }
      ghost var s0 := State();
      var nextPlayers, roundLogs := SweepEnemies(rolls);
      ghost var sw := SweepResult(nextPlayers, roundLogs);
      if AllDefeated(nextPlayers) {
        winner := Some(EnemyWon);
        phase := Finished;
        AppendLogs([LossLine]);
      } else {
        players := RecoverAll(nextPlayers);
        turn := turn + 1;
        phase := PlayerPhase;
        AppendLogs([PlayerTurnLine]);
      }
      assert State() == AfterSweep(s0, sw);
    }

    /** `handleResetBattle`. */
    method HandleResetBattle()
      requires Valid()
      modifies this
      ensures Valid()
      ensures State() == Reset(selected)
    {
      players := BuildPlayerUnits(selected);
      enemies := EnemyTemplate();
      phase := PlayerPhase;
      winner := None;
      turn := 1;
      log := ResetLines;
      StartStatesInv(selected);
    }
  }
}
