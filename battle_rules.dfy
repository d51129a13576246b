/** The rules of the turn-based battle as pure functions: units and cards, the random draws,
    the rounding of the damage multipliers, each class's ability effect, one player attack,
    one enemy sweep, the bounded log, and the choice of the three cards that enter the battle.
    The stateful battle itself (module Battle) is proved against these functions. */
module BattleRules {
  import opened Common
  import Catalogue

  datatype Side = PlayerSide | EnemySide

  /** A unit id `"player-<slot>"` or `"enemy-<slot>"`; the critical-hit rule reads the slot
      back out of the id. */
  datatype UnitId = UnitId(side: Side, slot: nat)

  datatype Ability = Ability(name: string, description: string)

  datatype BattleCard = BattleCard(
    id: string, name: string, cardType: string, rarity: string, description: string,
    imageSrc: string, attack: int, hp: int, abilities: seq<Ability>)

  datatype Unit = Unit(
    unitId: UnitId, cardId: string, name: string, unitType: string, imageSrc: string,
    hp: int, maxHp: int, attack: int, acted: bool, bonusAttack: int, vulnerableTurns: int,
    abilities: seq<Ability>)

  datatype Phase = PlayerPhase | EnemyPhase | Finished

  datatype Winner = PlayerWon | EnemyWon

  /** `randomInt(min, max)`: `Math.floor(Math.random() * (max - min + 1)) + min`. */
  function RandomInt(min: int, max: int, d: Draw): (r: int)
    requires min <= max && ValidDraw(d)
    ensures min <= r <= max
  {
    RandomIndex(max - min + 1, d) + min
  }

  /** Every value of the range is drawn by some value of `Math.random()`. */
  lemma RandomIntCovers(min: int, max: int, v: int)
    requires min <= v <= max
    ensures ValidDraw(Draw(v - min, max - min + 1))
    ensures RandomInt(min, max, Draw(v - min, max - min + 1)) == v
  {
    var k := max - min + 1;
    DivUnique((v - min) * k, k, v - min, 0);
  }

  /** `Math.round(d * tenths / 10)` for d >= 0, with halves rounded up. */
  function RoundTenths(d: nat, tenths: nat): (r: nat)
    ensures 10 * r <= tenths * d + 5 < 10 * r + 10
  {
    (tenths * d + 5) / 10
  }

  /** `clampHp`: hit points are forced into [0, maxHp] and nothing else changes. */
  function ClampHp(u: Unit): (r: Unit)
    ensures r == u.(hp := r.hp)
    ensures u.maxHp >= 0 ==> 0 <= r.hp <= u.maxHp
    ensures 0 <= u.hp <= u.maxHp ==> r.hp == u.hp
    ensures u.hp < 0 && u.maxHp >= 0 ==> r.hp == 0
    ensures u.hp > u.maxHp >= 0 ==> r.hp == u.maxHp
  {
    u.(hp := Max(0, Min(u.hp, u.maxHp)))
  }

  predicate IsAlive(u: Unit) { u.hp > 0 }

  /** `aliveUnits(units).length === 0`. */
  predicate AllDefeated(units: seq<Unit>)
  {
    forall i :: 0 <= i < |units| ==> !IsAlive(units[i])
  }

  /** `aliveUnits(units).every((unit) => unit.acted)`. */
  predicate AllAliveActed(units: seq<Unit>)
  {
    forall i :: 0 <= i < |units| && IsAlive(units[i]) ==> units[i].acted
  }

  /** A unit in a consistent state. */
  predicate UnitOk(u: Unit)
  {
    0 <= u.hp <= u.maxHp && 0 <= u.bonusAttack <= 30 && u.vulnerableTurns >= 0
  }

  predicate UnitsOk(units: seq<Unit>)
  {
    forall i :: 0 <= i < |units| ==> UnitOk(units[i])
  }

  /** The fields of a unit that no battle action changes: everything but hp, `acted`, the
      bonus attack and the vulnerability counter. */
  function Fixed(u: Unit): Unit
  {
    u.(hp := 0, acted := false, bonusAttack := 0, vulnerableTurns := 0)
  }

  /** The same units as `roster`, slot for slot, in whatever battle state. */
  predicate SameRoster(units: seq<Unit>, roster: seq<Unit>)
  {
    |units| == |roster| && forall i :: 0 <= i < |units| ==> Fixed(units[i]) == Fixed(roster[i])
  }

  /** The indexes of the living units, in order. */
  function AliveIndexes(units: seq<Unit>, from: nat): (r: seq<nat>)
    requires from <= |units|
    ensures forall k :: 0 <= k < |r| ==> from <= r[k] < |units| && IsAlive(units[r[k]])
    ensures forall i :: from <= i < |units| && IsAlive(units[i]) ==> i in r
    ensures |r| == 0 <==> forall i :: from <= i < |units| ==> !IsAlive(units[i])
    decreases |units| - from
  {
    if from == |units| then []
    else if IsAlive(units[from]) then [from] + AliveIndexes(units, from + 1)
    else AliveIndexes(units, from + 1)
  }

  /** `units.findIndex((unit) => unit.unitId === id && unit.hp > 0)`, as an option. */
  function FindLiving(units: seq<Unit>, id: UnitId): (r: Option<nat>)
    ensures r.Some? ==> r.value < |units| && units[r.value].unitId == id && IsAlive(units[r.value])
    ensures r.Some? ==> forall j :: 0 <= j < r.value ==> !(units[j].unitId == id && IsAlive(units[j]))
    ensures r.None? ==> forall j :: 0 <= j < |units| ==> !(units[j].unitId == id && IsAlive(units[j]))
  {
    if |units| == 0 then None
    else if units[0].unitId == id && IsAlive(units[0]) then Some(0)
    else match FindLiving(units[1..], id)
      case None => None
      case Some(k) => Some(k + 1)
  }

  /** `units.findIndex((unit) => unit.unitId === id)`, as an option. */
  function FindById(units: seq<Unit>, id: UnitId): (r: Option<nat>)
    ensures r.Some? ==> r.value < |units| && units[r.value].unitId == id
    ensures r.Some? ==> forall j :: 0 <= j < r.value ==> units[j].unitId != id
    ensures r.None? ==> forall j :: 0 <= j < |units| ==> units[j].unitId != id
  {
    if |units| == 0 then None
    else if units[0].unitId == id then Some(0)
    else match FindById(units[1..], id)
      case None => None
      case Some(k) => Some(k + 1)
  }

  /** The Healer's target: the living unit with the least hp, the first of them on a tie (the
      source filters the living units and sorts them stably by hp). */
  function LowestHpAlive(units: seq<Unit>, from: nat): (r: Option<nat>)
    requires from <= |units|
    ensures r.None? <==> forall j :: from <= j < |units| ==> !IsAlive(units[j])
    ensures r.Some? ==> from <= r.value < |units| && IsAlive(units[r.value])
    ensures r.Some? ==> forall j :: from <= j < |units| && IsAlive(units[j]) ==> units[r.value].hp <= units[j].hp
    ensures r.Some? ==> forall j :: from <= j < r.value && IsAlive(units[j]) ==> units[j].hp > units[r.value].hp
    decreases |units| - from
  {
    if from == |units| then None
    else
      var rest := LowestHpAlive(units, from + 1);
      if IsAlive(units[from]) && (rest.None? || units[from].hp <= units[rest.value].hp) then Some(from)
      else rest
  }

  // ---------------------------------------------------------------------------------------
  // Rosters.

  function CardToUnit(card: BattleCard, index: nat): Unit
  {
    Unit(UnitId(PlayerSide, index + 1), card.id, card.name, card.cardType, card.imageSrc,
         card.hp, card.hp, card.attack, false, 0, 0, card.abilities)
  }

  /** `buildPlayerUnits`: the first three cards become units `player-1`..`player-n` at full hp
      with no bonus, no vulnerability, and not yet acted. */
  function BuildPlayerUnits(cards: seq<BattleCard>): (units: seq<Unit>)
    ensures |units| == Min(3, |cards|)
    ensures forall i :: 0 <= i < |units| ==>
      && units[i].unitId == UnitId(PlayerSide, i + 1)
      && units[i].cardId == cards[i].id && units[i].name == cards[i].name
      && units[i].unitType == cards[i].cardType && units[i].abilities == cards[i].abilities
      && units[i].hp == units[i].maxHp == cards[i].hp && units[i].attack == cards[i].attack
      && !units[i].acted && units[i].bonusAttack == 0 && units[i].vulnerableTurns == 0
  {
    var n := Min(3, |cards|);
    seq(n, i requires 0 <= i < n => CardToUnit(cards[i], i))
  }

  function EnemyUnit(slot: nat, name: string, unitType: string, image: string, hp: int, attack: int, ability: Ability): Unit
  {
    Unit(UnitId(EnemySide, slot), "enemy-" + NatToString(slot), name, unitType, image, hp, hp, attack,
         false, 0, 0, [ability])
  }

  /** `ENEMY_TEAM_TEMPLATE`: a scout (DPS), a bruiser (Tank) and a sniper (Debuffer). */
  function EnemyTemplate(): (units: seq<Unit>)
    ensures |units| == 3
    ensures forall i :: 0 <= i < 3 ==> (units[i].unitId == UnitId(EnemySide, i + 1) && UnitOk(units[i])
      && IsAlive(units[i]) && units[i].hp == units[i].maxHp && !units[i].acted)
  {
    [ EnemyUnit(1, "Bandit Scout", "DPS", "/scout.png", 260, 58, Ability("Quick Slash", "A fast strike for steady damage.")),
      EnemyUnit(2, "Bandit Bruiser", "Tank", "/bruiser.png", 320, 50, Ability("Heavy Swing", "A slower, stronger hit.")),
      EnemyUnit(3, "Bandit Sniper", "Debuffer", "/sniper.png", 240, 62, Ability("Marked Shot", "A shot that leaves openings.")) ]
  }

  // ---------------------------------------------------------------------------------------
  // The log.

  const LogCapacity: nat := 16

  /** The last `LogCapacity` lines of `s`. */
  function Window(s: seq<string>): (r: seq<string>)
    ensures |r| == Min(|s|, LogCapacity)
    ensures r == s[|s| - |r|..]
  {
    if |s| <= LogCapacity then s else s[|s| - LogCapacity..]
  }

  /** `appendLogs`: no lines change nothing; otherwise keep the last 16 of old + new. */
  function AppendLogs(log: seq<string>, lines: seq<string>): seq<string>
  {
    if |lines| == 0 then log else Window(log + lines)
  }

  /** Trimming as lines arrive keeps the same window as trimming once at the end, so the
      log always shows the last 16 lines of the whole battle. */
  lemma WindowAppend(history: seq<string>, lines: seq<string>)
    ensures AppendLogs(Window(history), lines) == Window(history + lines)
  {
    var w := Window(history);
    if |lines| > 0 {
      var all := history + lines;
      var r := Window(w + lines);
      var e := Window(all);
      assert |r| == |e|;
      forall k | 0 <= k < |r| ensures r[k] == e[k] {
        var off := |w + lines| - |r|;
        var off2 := |all| - |e|;
        assert r[k] == (w + lines)[off + k];
        assert e[k] == all[off2 + k];
        if off + k < |w| {
          assert (w + lines)[off + k] == w[off + k] == history[|history| - |w| + off + k];
        } else {
          assert (w + lines)[off + k] == lines[off + k - |w|];
        }
      }
    } else {
      assert history + lines == history;
    }
  }

  /** Appending in two calls keeps the same window as appending once, so writing the sweep's
      lines one at a time is the same as writing them together. */
  lemma AppendLogsTwice(log: seq<string>, a: seq<string>, b: seq<string>)
    ensures AppendLogs(AppendLogs(log, a), b) == AppendLogs(log, a + b)
  {
    if |a| == 0 {
      assert a + b == b;
    } else if |b| > 0 {
      WindowAppend(log + a, b);
      assert log + a + b == log + (a + b);
    } else {
      assert a + b == a;
    }
  }

  // ---------------------------------------------------------------------------------------
  // One player attack.

  /** The hit before any ability: `max(20, attack + bonusAttack + randomInt(-8, 12))`, times
      1.2 rounded when the target is vulnerable before the action. */
  function BaseDamage(attacker: Unit, target: Unit, jitter: Draw): (r: nat)
    requires ValidDraw(jitter)
    ensures var raw := Max(20, attacker.attack + attacker.bonusAttack + RandomInt(-8, 12, jitter));
      r == (if target.vulnerableTurns > 0 then RoundTenths(raw, 12) else raw)
    ensures r >= 20
  {
    var raw: nat := Max(20, attacker.attack + attacker.bonusAttack + RandomInt(-8, 12, jitter));
    if target.vulnerableTurns > 0 then RoundTenths(raw, 12) else raw
  }

  /** The pseudo-critical rule of the DPS classes. */
  predicate CritTriggered(turn: int, slot: nat, targetIndex: nat)
  {
    (turn + slot + targetIndex) % 3 == 0
  }

  /** The classes that may land a critical strike; the literal `"Sub DPS"` is what the code tests. */
  predicate IsDpsType(unitType: string)
  {
    unitType == "DPS" || unitType == "Sub DPS"
  }

  /** The damage after the attacker's ability: a Tank hits for 0.8x, a DPS on a critical for
      1.7x (both rounded), every other case (Healer and Support included) unchanged. */
  function AbilityDamage(attacker: Unit, base: nat, turn: int, targetIndex: nat): (r: nat)
  {
    if attacker.unitType == "Tank" then RoundTenths(base, 8)
    else if attacker.unitType in {"Healer", "Support", "Debuffer"} then base
    else if IsDpsType(attacker.unitType) && CritTriggered(turn, attacker.unitId.slot, targetIndex) then RoundTenths(base, 17)
    else base
  }

  function Healed(u: Unit, amount: int): Unit
  {
    ClampHp(u.(hp := u.hp + amount))
  }

  function Buffed(u: Unit): Unit
  {
    if IsAlive(u) then u.(bonusAttack := Min(u.bonusAttack + 10, 30)) else u
  }

  function BuffAll(units: seq<Unit>): (r: seq<Unit>)
    ensures |r| == |units| && forall i :: 0 <= i < |units| ==> r[i] == Buffed(units[i])
  {
    seq(|units|, i requires 0 <= i < |units| => Buffed(units[i]))
  }

  /** The player side after the attacker's ability: a Healer heals the weakest living ally by
      55, a Support raises every living ally's bonus by 10 up to 30, a Tank heals itself by 28. */
  function AbilityPlayers(attacker: Unit, players: seq<Unit>): (r: seq<Unit>)
    ensures |r| == |players|
  {
    if attacker.unitType == "Healer" then
      match LowestHpAlive(players, 0)
      case None => players
      case Some(h) => players[h := Healed(players[h], 55)]
    else if attacker.unitType == "Support" then BuffAll(players)
    else if attacker.unitType == "Tank" then
      match FindById(players, attacker.unitId)
      case None => players
      case Some(k) => players[k := Healed(players[k], 28)]
    else players
  }

  /** The enemy side after the attacker's ability: a Debuffer makes its target vulnerable for
      at least two hits. */
  function AbilityEnemies(attacker: Unit, enemies: seq<Unit>, targetIndex: nat): (r: seq<Unit>)
    requires targetIndex < |enemies|
    ensures |r| == |enemies|
  {
    if attacker.unitType == "Debuffer" then
      enemies[targetIndex := enemies[targetIndex].(vulnerableTurns := Max(enemies[targetIndex].vulnerableTurns, 2))]
    else enemies
  }

  /** The common hit on the target: hp down by the damage (never below 0) and one turn of
      vulnerability used up (never below 0). */
  function Struck(target: Unit, damage: int): Unit
  {
    ClampHp(target.(hp := target.hp - damage, vulnerableTurns := Max(0, target.vulnerableTurns - 1)))
  }

  function PlayerKind(unitType: string): string
  {
    if unitType == "Healer" then "Heal Pulse"
    else if unitType == "Support" then "Buff Aura"
    else if unitType == "Debuffer" then "Vulnerable Mark"
    else if unitType == "Tank" then "Shield Bash"
    else "Quick Slash"
  }

  /** The log lines an ability adds after the hit line. */
  function AbilityLines(attacker: Unit, players: seq<Unit>, target: Unit, turn: int, targetIndex: nat): seq<string>
  {
    if attacker.unitType == "Healer" then
      (if LowestHpAlive(players, 0).Some? then ["[Heal Pulse] " + attacker.name + " restores 55 HP."] else [])
    else if attacker.unitType == "Support" then ["[Buff Aura] " + attacker.name + " raises ally attack."]
    else if attacker.unitType == "Debuffer" then ["[Vulnerable Mark] " + target.name + " is exposed."]
    else if attacker.unitType == "Tank" then ["[Shield Bash] " + attacker.name + " braces and counter-slams."]
    else if IsDpsType(attacker.unitType) && CritTriggered(turn, attacker.unitId.slot, targetIndex) then
      ["[Critical Burst] " + attacker.name + " lands a critical strike."]
    else []
  }

  function AttackKind(attacker: Unit, turn: int, targetIndex: nat): string
  {
    if !(attacker.unitType in {"Healer", "Support", "Debuffer", "Tank"})
       && IsDpsType(attacker.unitType) && CritTriggered(turn, attacker.unitId.slot, targetIndex)
    then "Critical Burst"
    else PlayerKind(attacker.unitType)
  }

  function HitLine(kind: string, attackerName: string, targetName: string, damage: nat): string
  {
    "[" + kind + "] " + attackerName + " hits " + targetName + " for " + NatToString(damage) + "."
  }

  datatype AttackResult = AttackResult(players: seq<Unit>, enemies: seq<Unit>, damage: nat, lines: seq<string>)

  /** An accepted attack of living player `a` on living enemy `t`: the ability, the common
      hit, and the attacker marked as acted. */
  function ResolveAttack(players: seq<Unit>, enemies: seq<Unit>, turn: int, a: nat, t: nat, jitter: Draw): AttackResult
    requires a < |players| && t < |enemies| && ValidDraw(jitter)
  {
    var attacker := players[a];
    var base := BaseDamage(attacker, enemies[t], jitter);
    var damage := AbilityDamage(attacker, base, turn, t);
    var ps := AbilityPlayers(attacker, players);
    var es := AbilityEnemies(attacker, enemies, t);
    AttackResult(
      ps[a := ps[a].(acted := true)],
      es[t := Struck(es[t], damage)],
      damage,
      [HitLine(AttackKind(attacker, turn, t), attacker.name, enemies[t].name, damage)]
        + AbilityLines(attacker, players, enemies[t], turn, t))
  }

  /** The damage of an accepted attack: never below 16 (a Tank's 0.8 of the floor 20), at least
      20 for every other class, and at least the 1.2 boost of the floor on a vulnerable target. */
  lemma AttackDamageFloor(players: seq<Unit>, enemies: seq<Unit>, turn: int, a: nat, t: nat, jitter: Draw)
    requires a < |players| && t < |enemies| && ValidDraw(jitter)
    ensures var r := ResolveAttack(players, enemies, turn, a, t, jitter);
      && r.damage >= 16
      && (players[a].unitType != "Tank" ==> r.damage >= 20)
      && (players[a].unitType != "Tank" && enemies[t].vulnerableTurns > 0 ==> r.damage >= 24)
  {
    var base := BaseDamage(players[a], enemies[t], jitter);
    assert enemies[t].vulnerableTurns > 0 ==> base >= 24;
  }

  /** What an accepted attack does to the target and the attacker: the target loses the
      damage (clamped at 0) and one turn of vulnerability, so a Debuffer's target keeps
      max(v, 2) - 1; the attacker, and only the attacker, becomes `acted`. */
  lemma AttackEffects(players: seq<Unit>, enemies: seq<Unit>, turn: int, a: nat, t: nat, jitter: Draw)
    requires a < |players| && t < |enemies| && ValidDraw(jitter)
    requires UnitsOk(players) && UnitsOk(enemies)
    ensures var r := ResolveAttack(players, enemies, turn, a, t, jitter);
      && |r.players| == |players| && |r.enemies| == |enemies|
      && r.enemies[t].hp == Max(0, enemies[t].hp - r.damage)
      && r.enemies[t].vulnerableTurns == (if players[a].unitType == "Debuffer"
            then Max(enemies[t].vulnerableTurns, 2) - 1 else Max(0, enemies[t].vulnerableTurns - 1))
      && r.players[a].acted
      && (forall i :: 0 <= i < |players| && i != a ==> r.players[i].acted == players[i].acted)
      && (forall j :: 0 <= j < |enemies| && j != t ==> r.enemies[j] == enemies[j])
  {
    var r := ResolveAttack(players, enemies, turn, a, t, jitter);
    var es := AbilityEnemies(players[a], enemies, t);
    assert es[t].hp == enemies[t].hp && es[t].maxHp == enemies[t].maxHp;
    forall i | 0 <= i < |players| && i != a ensures r.players[i].acted == players[i].acted {
      var ps := AbilityPlayers(players[a], players);
      assert ps[i].acted == players[i].acted;
    }
  }

  /** Units `side-1`, `side-2`, ... in array order, as both rosters are built. */
  predicate SlotIds(units: seq<Unit>, side: Side)
  {
    forall i :: 0 <= i < |units| ==> units[i].unitId == UnitId(side, i + 1)
  }

  /** `after` is `before` with some hit points and bonuses raised, and nothing else changed;
      a defeated unit is left as it was. */
  predicate Boosted(after: seq<Unit>, before: seq<Unit>)
  {
    && |after| == |before|
    && (forall i :: 0 <= i < |before| ==>
          after[i] == before[i].(hp := after[i].hp, bonusAttack := after[i].bonusAttack))
    && (forall i :: 0 <= i < |before| ==> after[i].hp >= before[i].hp && after[i].bonusAttack >= before[i].bonusAttack)
    && (forall i :: 0 <= i < |before| && !IsAlive(before[i]) ==> after[i] == before[i])
  }

  lemma HealBoosts(players: seq<Unit>, h: nat, amount: nat)
    requires h < |players| && IsAlive(players[h]) && UnitsOk(players)
    ensures var ps := players[h := Healed(players[h], amount)];
      Boosted(ps, players) && UnitsOk(ps)
  {
  }

  lemma BuffAllBoosts(players: seq<Unit>)
    requires UnitsOk(players)
    ensures Boosted(BuffAll(players), players) && UnitsOk(BuffAll(players))
  {
  }

  lemma AbilityPlayersEffect(players: seq<Unit>, a: nat)
    requires a < |players| && UnitsOk(players) && SlotIds(players, PlayerSide) && IsAlive(players[a])
    ensures var ps := AbilityPlayers(players[a], players);
      Boosted(ps, players) && UnitsOk(ps)
  {
    var attacker := players[a];
    if attacker.unitType == "Healer" {
      var h := LowestHpAlive(players, 0);
      if h.Some? {
        HealBoosts(players, h.value, 55);
      }
    } else if attacker.unitType == "Support" {
      BuffAllBoosts(players);
    } else if attacker.unitType == "Tank" {
      var k := FindById(players, attacker.unitId);
      if k.Some? {
        assert players[k.value].unitId == UnitId(PlayerSide, k.value + 1);
        HealBoosts(players, k.value, 28);
      }
    }
  }

  /** The heals of the player side: the Healer restores 55 hp to the weakest living ally,
      the Tank 28 to itself, both capped at the unit's maxHp; nothing else changes. */
  lemma AbilityHealAmounts(attacker: Unit, players: seq<Unit>)
    requires UnitsOk(players)
    ensures attacker.unitType == "Healer" && LowestHpAlive(players, 0).Some? ==>
      var h := LowestHpAlive(players, 0).value;
      AbilityPlayers(attacker, players) == players[h := players[h].(hp := Min(players[h].maxHp, players[h].hp + 55))]
    ensures attacker.unitType == "Tank" && FindById(players, attacker.unitId).Some? ==>
      var k := FindById(players, attacker.unitId).value;
      AbilityPlayers(attacker, players) == players[k := players[k].(hp := Min(players[k].maxHp, players[k].hp + 28))]
  {
    if attacker.unitType == "Healer" && LowestHpAlive(players, 0).Some? {
      HealedCapped(players[LowestHpAlive(players, 0).value], 55);
    } else if attacker.unitType == "Tank" && FindById(players, attacker.unitId).Some? {
      HealedCapped(players[FindById(players, attacker.unitId).value], 28);
    }
  }

  /** The Support adds 10 bonus attack, up to 30, to every living ally, and leaves the
      defeated ones as they were. */
  lemma AbilityBuffAmount(attacker: Unit, players: seq<Unit>)
    requires attacker.unitType == "Support"
    ensures forall i :: 0 <= i < |players| ==>
      AbilityPlayers(attacker, players)[i]
        == (if IsAlive(players[i]) then players[i].(bonusAttack := Min(players[i].bonusAttack + 10, 30)) else players[i])
  {
  }

  /** A Healer with no living ally to heal, a Tank missing from the roster and every other
      class leave the player side as it was. */
  lemma AbilityPlayersUnchanged(attacker: Unit, players: seq<Unit>)
    requires || (attacker.unitType == "Healer" && LowestHpAlive(players, 0).None?)
             || (attacker.unitType == "Tank" && FindById(players, attacker.unitId).None?)
             || (attacker.unitType != "Healer" && attacker.unitType != "Support" && attacker.unitType != "Tank")
    ensures AbilityPlayers(attacker, players) == players
  {
  }

  /** A heal of a unit within its bounds adds the amount, capped at its maxHp. */
  lemma HealedCapped(u: Unit, amount: nat)
    requires 0 <= u.hp <= u.maxHp
    ensures Healed(u, amount) == u.(hp := Min(u.maxHp, u.hp + amount))
  {
  }


  /** Nothing in an accepted attack lowers a player's hp, revives or otherwise touches a
      defeated unit, or breaks the bounds 0 <= hp <= maxHp, 0 <= bonusAttack <= 30; the
      rosters keep their ids. */
  lemma AttackKeepsUnitsOk(players: seq<Unit>, enemies: seq<Unit>, turn: int, a: nat, t: nat, jitter: Draw)
    requires a < |players| && t < |enemies| && ValidDraw(jitter)
    requires UnitsOk(players) && UnitsOk(enemies)
    requires SlotIds(players, PlayerSide) && SlotIds(enemies, EnemySide)
    requires IsAlive(players[a]) && IsAlive(enemies[t])
    ensures var r := ResolveAttack(players, enemies, turn, a, t, jitter);
      && UnitsOk(r.players) && UnitsOk(r.enemies)
      && SameRoster(r.players, players) && SameRoster(r.enemies, enemies)
      && (forall i :: 0 <= i < |players| ==> r.players[i].hp >= players[i].hp)
      && (forall i :: 0 <= i < |players| && !IsAlive(players[i]) ==> r.players[i] == players[i])
      && (forall j :: 0 <= j < |enemies| && !IsAlive(enemies[j]) ==> r.enemies[j] == enemies[j])
      && (forall j :: 0 <= j < |enemies| ==> r.enemies[j].hp <= enemies[j].hp)
  {
    var r := ResolveAttack(players, enemies, turn, a, t, jitter);
    var ps := AbilityPlayers(players[a], players);
    AbilityPlayersEffect(players, a);
    assert r.players == ps[a := ps[a].(acted := true)];
    forall i | 0 <= i < |players| ensures Fixed(r.players[i]) == Fixed(players[i]) {
      assert Fixed(ps[i]) == Fixed(players[i]);
    }
    var es := AbilityEnemies(players[a], enemies, t);
    assert UnitsOk(es);
    forall j | 0 <= j < |enemies| ensures Fixed(r.enemies[j]) == Fixed(enemies[j]) {
      assert Fixed(es[j]) == Fixed(enemies[j]);
    }
  }

  /** `getEnemyAnimationKind`: the strike's name, read off the enemy's name. */
  function EnemyKind(enemy: Unit): string
  {
    if Contains(enemy.name, "Sniper") then "Marked Shot"
    else if Contains(enemy.name, "Bruiser") then "Heavy Swing"
    else "Quick Slash"
  }

  // ---------------------------------------------------------------------------------------
  // The enemy sweep.

  /** The two draws one enemy makes: which living player, and the damage jitter. */
  datatype EnemyRoll = EnemyRoll(target: Draw, jitter: Draw)

  predicate ValidRolls(rolls: seq<EnemyRoll>, n: nat)
  {
    |rolls| == n && forall i :: 0 <= i < n ==> ValidDraw(rolls[i].target) && ValidDraw(rolls[i].jitter)
  }

  function EnemyDamage(enemy: Unit, roll: EnemyRoll): (r: int)
    requires ValidDraw(roll.jitter)
    ensures r >= 16 && r == Max(16, enemy.attack + RandomInt(-6, 10, roll.jitter))
  {
    Max(16, enemy.attack + RandomInt(-6, 10, roll.jitter))
  }

  /** The living player enemy `i`'s target draw picks. */
  function EnemyTarget(players: seq<Unit>, roll: EnemyRoll): (r: nat)
    requires ValidDraw(roll.target) && !AllDefeated(players)
    ensures r < |players| && IsAlive(players[r])
  {
    var alive := AliveIndexes(players, 0);
    alive[RandomInt(0, |alive| - 1, roll.target)]
  }

  datatype SweepResult = SweepResult(players: seq<Unit>, lines: seq<string>)

  /** One living enemy's strike: the target its draw picks loses the rolled damage (not below
      0), and one line is logged. */
  function EnemyStrike(players: seq<Unit>, enemy: Unit, roll: EnemyRoll): SweepResult
    requires ValidDraw(roll.target) && ValidDraw(roll.jitter) && !AllDefeated(players)
  {
    var target := EnemyTarget(players, roll);
    var damage := EnemyDamage(enemy, roll);
    SweepResult(players[target := ClampHp(players[target].(hp := players[target].hp - damage))],
      [HitLine(EnemyKind(enemy), enemy.name, players[target].name, damage)])
  }

  /** Enemies `i..` act in array order: a defeated enemy is skipped, and the sweep stops as
      soon as no player is left alive. */
  function SweepFrom(players: seq<Unit>, enemies: seq<Unit>, rolls: seq<EnemyRoll>, i: nat): SweepResult
    requires i <= |enemies| && ValidRolls(rolls, |enemies|)
    decreases |enemies| - i
  {
    if i == |enemies| then SweepResult(players, [])
    else if !IsAlive(enemies[i]) then SweepFrom(players, enemies, rolls, i + 1)
    else if AllDefeated(players) then SweepResult(players, [])
    else
      var strike := EnemyStrike(players, enemies[i], rolls[i]);
      var rest := SweepFrom(strike.players, enemies, rolls, i + 1);
      SweepResult(rest.players, strike.lines + rest.lines)
  }

  /** One step of the sweep, case by case. */
  lemma SweepFromUnfold(players: seq<Unit>, enemies: seq<Unit>, rolls: seq<EnemyRoll>, i: nat)
    requires i < |enemies| && ValidRolls(rolls, |enemies|)
    ensures !IsAlive(enemies[i]) ==> SweepFrom(players, enemies, rolls, i) == SweepFrom(players, enemies, rolls, i + 1)
    ensures IsAlive(enemies[i]) && AllDefeated(players) ==> SweepFrom(players, enemies, rolls, i) == SweepResult(players, [])
    ensures IsAlive(enemies[i]) && !AllDefeated(players) ==>
      var strike := EnemyStrike(players, enemies[i], rolls[i]);
      var rest := SweepFrom(strike.players, enemies, rolls, i + 1);
      SweepFrom(players, enemies, rolls, i) == SweepResult(rest.players, strike.lines + rest.lines)
  {
  }

  /** `after` is `before` with some hit points lowered, and nothing else changed; a defeated
      unit is left as it was. */
  predicate HpLowered(after: seq<Unit>, before: seq<Unit>)
  {
    && |after| == |before|
    && (forall k :: 0 <= k < |before| ==> after[k] == before[k].(hp := after[k].hp))
    && (forall k :: 0 <= k < |before| ==> after[k].hp <= before[k].hp)
    && (forall k :: 0 <= k < |before| && !IsAlive(before[k]) ==> after[k] == before[k])
  }

  lemma HpLoweredTrans(c: seq<Unit>, b: seq<Unit>, a: seq<Unit>)
    requires HpLowered(c, b) && HpLowered(b, a)
    ensures HpLowered(c, a)
  {
    forall k | 0 <= k < |a| ensures c[k] == a[k].(hp := c[k].hp) {
      assert b[k] == a[k].(hp := b[k].hp);
    }
  }

  lemma HpLoweredRoster(after: seq<Unit>, before: seq<Unit>, roster: seq<Unit>)
    requires HpLowered(after, before) && SameRoster(before, roster)
    ensures SameRoster(after, roster)
  {
    forall k | 0 <= k < |after| ensures Fixed(after[k]) == Fixed(roster[k]) {
      assert Fixed(after[k]) == Fixed(before[k]);
    }
  }

  /** One enemy strike lowers the hp of one living player, within its bounds. */
  lemma StrikeEffects(players: seq<Unit>, enemy: Unit, roll: EnemyRoll)
    requires ValidDraw(roll.target) && ValidDraw(roll.jitter) && !AllDefeated(players)
    requires UnitsOk(players)
    ensures var n := EnemyStrike(players, enemy, roll).players;
      HpLowered(n, players) && UnitsOk(n)
  {
    var target := EnemyTarget(players, roll);
    var n := EnemyStrike(players, enemy, roll).players;
    assert n[target].hp <= players[target].hp;
  }

  /** The sweep only lowers hit points, and only of living players: each player keeps every
      other field, stays within its bounds, and a defeated player is untouched. At most one
      log line is written per enemy. */
  lemma {:induction false} SweepEffects(players: seq<Unit>, enemies: seq<Unit>, rolls: seq<EnemyRoll>, i: nat)
    requires i <= |enemies| && ValidRolls(rolls, |enemies|)
    requires UnitsOk(players)
    ensures var r := SweepFrom(players, enemies, rolls, i);
      HpLowered(r.players, players) && UnitsOk(r.players) && |r.lines| <= |enemies| - i
    decreases |enemies| - i
  {
    if i < |enemies| && IsAlive(enemies[i]) && !AllDefeated(players) {
      var n := EnemyStrike(players, enemies[i], rolls[i]).players;
      StrikeEffects(players, enemies[i], rolls[i]);
      SweepEffects(n, enemies, rolls, i + 1);
      HpLoweredTrans(SweepFrom(n, enemies, rolls, i + 1).players, n, players);
    } else if i < |enemies| {
      SweepEffects(players, enemies, rolls, i + 1);
    }
  }


  /** A sweep that ends with a player alive gave every living enemy its strike: one log line
      per living enemy from `i` on. */
  lemma {:induction false} SweepAllStrike(players: seq<Unit>, enemies: seq<Unit>, rolls: seq<EnemyRoll>, i: nat)
    requires i <= |enemies| && ValidRolls(rolls, |enemies|)
    requires UnitsOk(players)
    requires !AllDefeated(SweepFrom(players, enemies, rolls, i).players)
    ensures |SweepFrom(players, enemies, rolls, i).lines| == |AliveIndexes(enemies, i)|
    decreases |enemies| - i
  {
    if i < |enemies| {
      if !IsAlive(enemies[i]) {
        SweepAllStrike(players, enemies, rolls, i + 1);
      } else {
        if AllDefeated(players) {
          assert false;
        }
        var next := EnemyStrike(players, enemies[i], rolls[i]).players;
        assert UnitsOk(next);
        SweepAllStrike(next, enemies, rolls, i + 1);
      }
    }
  }

  /** A surviving player side starts its next turn: living units may act again and lose 5 of
      their bonus (not below 0); defeated units are untouched. */
  function Recovered(u: Unit): Unit
  {
    if IsAlive(u) then u.(acted := false, bonusAttack := Max(0, u.bonusAttack - 5)) else u
  }

  function RecoverAll(units: seq<Unit>): (r: seq<Unit>)
    ensures |r| == |units| && forall i :: 0 <= i < |units| ==> r[i] == Recovered(units[i])
  {
    seq(|units|, i requires 0 <= i < |units| => Recovered(units[i]))
  }

  /** Recovery keeps the roster and the bounds of every unit, and leaves at least one
      living unit ready to act whenever one is alive. */
  lemma RecoverEffects(units: seq<Unit>, roster: seq<Unit>)
    requires SameRoster(units, roster) && UnitsOk(units)
    ensures var rec := RecoverAll(units);
      SameRoster(rec, roster) && UnitsOk(rec) && (!AllDefeated(units) ==> !AllDefeated(rec) && !AllAliveActed(rec))
  {
    var rec := RecoverAll(units);
    forall k | 0 <= k < |rec| ensures Fixed(rec[k]) == Fixed(roster[k]) {
      assert Fixed(rec[k]) == Fixed(units[k]);
    }
    if !AllDefeated(units) {
      var k :| 0 <= k < |units| && IsAlive(units[k]);
      assert IsAlive(rec[k]) && !rec[k].acted;
    }
  }


  // ---------------------------------------------------------------------------------------
  // The `selectedCards` memo: which three cards enter the battle.

  function TrimAll(parts: seq<string>): (r: seq<string>)
    ensures |r| == |parts| && forall i :: 0 <= i < |parts| ==> r[i] == Trim(parts[i])
  {
    if parts == [] then [] else [Trim(parts[0])] + TrimAll(parts[1..])
  }

  function DropEmpty(parts: seq<string>): (r: seq<string>)
    ensures forall p :: p in r ==> p != "" && p in parts
  {
    if parts == [] then [] else (if parts[0] != "" then [parts[0]] else []) + DropEmpty(parts[1..])
  }

  /** `param.split(",").map((id) => id.trim()).filter(Boolean)`. */
  function RequestedIds(param: string): seq<string>
  {
    DropEmpty(TrimAll(Split(param, ',')))
  }

  /** `availableCards.find((card) => card.id === id)`. */
  function FindCard(cards: seq<BattleCard>, id: string): (r: Option<BattleCard>)
    ensures r.Some? ==> r.value in cards && r.value.id == id
    ensures r.None? ==> forall c :: c in cards ==> c.id != id
  {
    if cards == [] then None else if cards[0].id == id then Some(cards[0]) else FindCard(cards[1..], id)
  }

  /** The requested ids mapped to cards, unknown ids dropped. */
  function FromQuery(cards: seq<BattleCard>, ids: seq<string>): (r: seq<BattleCard>)
    ensures forall c :: c in r ==> c in cards
  {
    if ids == [] then []
    else (match FindCard(cards, ids[0]) case Some(c) => [c] case None => []) + FromQuery(cards, ids[1..])
  }

  /** The ids of a list of cards, as the `seen` set holds them. */
  function IdSet(cards: seq<BattleCard>): (r: set<string>)
    ensures forall i :: 0 <= i < |cards| ==> cards[i].id in r
    ensures forall x :: x in r ==> exists i :: 0 <= i < |cards| && cards[i].id == x
  {
    if cards == [] then {} else IdSet(cards[..|cards| - 1]) + {cards[|cards| - 1].id}
  }

  predicate DistinctIds(cards: seq<BattleCard>)
  {
    forall i, j :: 0 <= i < j < |cards| ==> cards[i].id != cards[j].id
  }

  /** A list of cards with no id twice has as many ids as cards. */
  lemma {:induction false} DistinctIdSetSize(cards: seq<BattleCard>)
    requires DistinctIds(cards)
    ensures |IdSet(cards)| == |cards|
  {
    if cards != [] {
      var init := cards[..|cards| - 1];
      DistinctIdSetSize(init);
      var last := cards[|cards| - 1].id;
      if last in IdSet(init) {
        assert false;
      }
    }
  }

  /** Both `seen`-set loops: take the cards in order, skipping any whose id is already taken,
      until three are taken. */
  function Gather(acc: seq<BattleCard>, cards: seq<BattleCard>): seq<BattleCard>
    decreases |cards|
  {
    if |acc| >= 3 || cards == [] then acc
    else if cards[0].id in IdSet(acc) then Gather(acc, cards[1..])
    else Gather(acc + [cards[0]], cards[1..])
  }

  /** The first loop: the requested cards with repeated ids dropped, at most three. */
  function RequestedCards(available: seq<BattleCard>, param: string): seq<BattleCard>
  {
    Gather([], FromQuery(available, RequestedIds(param)))
  }

  /** `selectedCards`: the requested cards first, then padding from the available cards. */
  function Selection(available: seq<BattleCard>, param: string): seq<BattleCard>
  {
    Gather(RequestedCards(available, param), available)
  }

  /** Gathering keeps what it has, takes at most three cards with distinct ids, takes them only
      from its input, and stops short of three only when every input id is taken. */
  lemma {:induction false} GatherProps(acc: seq<BattleCard>, cards: seq<BattleCard>)
    requires |acc| <= 3 && DistinctIds(acc)
    ensures var r := Gather(acc, cards);
      && |acc| <= |r| <= 3 && r[..|acc|] == acc && DistinctIds(r)
      && (forall c :: c in r ==> c in acc || c in cards)
      && (|r| < 3 ==> forall c :: c in cards ==> c.id in IdSet(r))
    decreases |cards|
  {
    if |acc| >= 3 || cards == [] {
    } else if cards[0].id in IdSet(acc) {
      GatherProps(acc, cards[1..]);
      var r := Gather(acc, cards[1..]);
      var k :| 0 <= k < |acc| && acc[k].id == cards[0].id;
      assert r[k] == acc[k];
    } else {
      var acc' := acc + [cards[0]];
      GatherProps(acc', cards[1..]);
      var r := Gather(acc', cards[1..]);
      assert r[..|acc|] == r[..|acc'|][..|acc|];
      assert r[|acc|] == cards[0];
    }
  }

  lemma {:induction false} GatherAtMostThree(acc: seq<BattleCard>, cards: seq<BattleCard>)
    requires |acc| <= 3
    ensures |acc| <= |Gather(acc, cards)| <= 3
    decreases |cards|
  {
    if |acc| < 3 && cards != [] {
      GatherAtMostThree(if cards[0].id in IdSet(acc) then acc else acc + [cards[0]], cards[1..]);
    }
  }

  /** The first loop keeps at most three available cards, no id twice. */
  lemma RequestedCardsProps(available: seq<BattleCard>, param: string)
    ensures var q := RequestedCards(available, param);
      && |q| <= 3 && DistinctIds(q) && (forall c :: c in q ==> c in available)
  {
    GatherProps([], FromQuery(available, RequestedIds(param)));
  }

  /** The selection: at most three cards, no id twice, every one available; it opens with the
      requested cards in request order; and it falls short of three only when every available
      card's id is already in it. */
  lemma SelectionProps(available: seq<BattleCard>, param: string)
    ensures var s := Selection(available, param);
      var q := RequestedCards(available, param);
      && |s| <= 3 && DistinctIds(s)
      && (forall c :: c in s ==> c in available)
      && |q| <= |s| && (forall k :: 0 <= k < |q| ==> s[k] == q[k])
      && (|s| < 3 ==> forall c :: c in available ==> c.id in IdSet(s))
  {
    var q := RequestedCards(available, param);
    RequestedCardsProps(available, param);
    GatherProps(q, available);
    var s := Gather(q, available);
    forall k | 0 <= k < |q| ensures s[k] == q[k] {
      assert s[..|q|][k] == s[k];
    }
  }

  lemma SubsetCard(a: set<string>, b: set<string>)
    requires a <= b
    ensures |a| <= |b|
  {
    assert b == a + (b - a);
  }

  /** `canBattle`: three cards are selected exactly when the available cards carry at least
      three distinct ids. */
  lemma CanBattleIff(available: seq<BattleCard>, param: string)
    ensures |Selection(available, param)| == 3 <==> |IdSet(available)| >= 3
  {
    var s := Selection(available, param);
    SelectionProps(available, param);
    DistinctIdSetSize(s);
    var sel := IdSet(s);
    var avail := IdSet(available);
    assert sel <= avail by {
      forall x | x in sel ensures x in avail {
        var i :| 0 <= i < |s| && s[i].id == x;
        assert s[i] in s;
        var j :| 0 <= j < |available| && available[j] == s[i];
      }
    }
    SubsetCard(sel, avail);
    if |s| < 3 {
      assert avail <= sel by {
        forall x | x in avail ensures x in sel {
          var j :| 0 <= j < |available| && available[j].id == x;
          assert available[j] in available;
        }
      }
      SubsetCard(avail, sel);
    }
  }

  /** Ids free of white space at both ends come through `trim` unchanged. */
  lemma {:induction false} TrimAllTrimmed(ids: seq<string>)
    requires forall i :: 0 <= i < |ids| ==> ids[i] == [] || (!IsJsWhitespace(ids[i][0]) && !IsJsWhitespace(ids[i][|ids[i]| - 1]))
    ensures TrimAll(ids) == ids
  {
    forall i | 0 <= i < |ids| ensures Trim(ids[i]) == ids[i] {
      TrimIdentity(ids[i]);
    }
  }

  lemma {:induction false} DropEmptyNone(ids: seq<string>)
    requires forall i :: 0 <= i < |ids| ==> ids[i] != ""
    ensures DropEmpty(ids) == ids
  {
    if ids != [] {
      DropEmptyNone(ids[1..]);
    }
  }

  /** Ids without commas, empty pieces or outer white space, joined with `","`, read back
      as the same ids. */
  lemma RequestedIdsOfJoin(ids: seq<string>)
    requires |ids| >= 1
    requires forall i :: 0 <= i < |ids| ==> (',' !in ids[i] && ids[i] != ""
      && !IsJsWhitespace(ids[i][0]) && !IsJsWhitespace(ids[i][|ids[i]| - 1]))
    ensures RequestedIds(Join(ids, ',')) == ids
  {
    SplitJoin(ids, ',');
    TrimAllTrimmed(ids);
    DropEmptyNone(ids);
  }

  /** Ids that are all found map to their cards one for one. */
  lemma {:induction false} FromQueryFound(cards: seq<BattleCard>, ids: seq<string>)
    requires forall i :: 0 <= i < |ids| ==> FindCard(cards, ids[i]).Some?
    ensures |FromQuery(cards, ids)| == |ids|
    ensures forall i :: 0 <= i < |ids| ==> FromQuery(cards, ids)[i] == FindCard(cards, ids[i]).value
  {
    if ids != [] {
      FromQueryFound(cards, ids[1..]);
    }
  }

  /** Cards with distinct ids, three at most, are all gathered, in order. */
  lemma {:induction false} GatherDistinct(acc: seq<BattleCard>, cards: seq<BattleCard>)
    requires |acc + cards| <= 3 && DistinctIds(acc + cards)
    ensures Gather(acc, cards) == acc + cards
    decreases |cards|
  {
    if cards != [] {
      var all := acc + cards;
      assert cards[0].id !in IdSet(acc) by {
        forall k | 0 <= k < |acc| ensures acc[k].id != cards[0].id {
          assert all[k] == acc[k] && all[|acc|] == cards[0];
        }
      }
      assert (acc + [cards[0]]) + cards[1..] == all;
      GatherDistinct(acc + [cards[0]], cards[1..]);
    } else {
      assert acc + cards == acc;
    }
  }

  /** Three found, distinct ids select exactly their cards, in order. */
  lemma SelectionOfFound(available: seq<BattleCard>, ids: seq<string>)
    requires |ids| == 3 && forall i :: 0 <= i < 3 ==> FindCard(available, ids[i]).Some?
    requires ids[0] != ids[1] && ids[0] != ids[2] && ids[1] != ids[2]
    ensures Gather(Gather([], FromQuery(available, ids)), available) ==
      [FindCard(available, ids[0]).value, FindCard(available, ids[1]).value, FindCard(available, ids[2]).value]
  {
    FromQueryFound(available, ids);
    var cs := FromQuery(available, ids);
    assert DistinctIds(cs) by {
      forall i, j | 0 <= i < j < 3 ensures cs[i].id != cs[j].id {
        assert cs[i].id == ids[i] && cs[j].id == ids[j];
      }
    }
    assert [] + cs == cs;
    GatherDistinct([], cs);
    assert cs == [cs[0], cs[1], cs[2]];
  }

  /** The loadout string the home page builds (three distinct ids joined with `","`), read back
      by the battle: exactly the three requested cards are selected, in slot order. */
  lemma SelectionOfLoadout(available: seq<BattleCard>, ids: seq<string>)
    requires |ids| == 3
    requires forall i :: 0 <= i < 3 ==> (',' !in ids[i] && ids[i] != ""
      && !IsJsWhitespace(ids[i][0]) && !IsJsWhitespace(ids[i][|ids[i]| - 1])
      && FindCard(available, ids[i]).Some?)
    requires ids[0] != ids[1] && ids[0] != ids[2] && ids[1] != ids[2]
    ensures Selection(available, Join(ids, ',')) ==
      [FindCard(available, ids[0]).value, FindCard(available, ids[1]).value, FindCard(available, ids[2]).value]
  {
    RequestedIdsOfJoin(ids);
    SelectionOfFound(available, ids);
  }


  // ---------------------------------------------------------------------------------------
  // The battle page: which catalogue cards are available for battle.

  /** `CARD_IMAGE_BY_NAME[name.toLowerCase()] ?? "/card.png"`. */
  function ImageForName(name: string): string
  {
    var key := ToLower(name);
    if key == "billy the kid" then "/billie.png"
    else if key == "wyatt earp" then "/wynne.png"
    else if key == "butch cassidy" then "/sunny.png"
    else if key == "calamity jane" then "/jane.png"
    else if key == "wild bill hickok" then "/beth.png"
    else if key == "doc holiday" then "/doc.png"
    else if key == "bass reaves" then "/bass.png"
    else if key == "belle starr" then "/belle.png"
    else if key == "black bart" then "/card.png"
    else if key == "charles goodnight" then "/goodnight.png"
    else Catalogue.DefaultImage
  }

  function StatAttack(c: Catalogue.CardDef): int
  {
    match c.stats
    case Some(s) => s.attack.GetOr(60)
    case None => 60
  }

  function StatHp(c: Catalogue.CardDef): int
  {
    match c.stats
    case Some(s) => s.hp.GetOr(360)
    case None => 360
  }

  function ToAbility(a: Catalogue.AbilityDef): Ability
  {
    Ability(a.name, a.description)
  }

  function FirstAbilities(defs: seq<Catalogue.AbilityDef>): (r: seq<Ability>)
    ensures |r| == Min(2, |defs|)
    ensures forall i :: 0 <= i < |r| ==> r[i] == ToAbility(defs[i])
  {
    var n := Min(2, |defs|);
    seq(n, i requires 0 <= i < n => ToAbility(defs[i]))
  }

  function ToBattleCard(c: Catalogue.CardDef): BattleCard
  {
    BattleCard(c.id, c.name, c.cardType, c.rarity, c.description, ImageForName(c.name),
      Max(20, StatAttack(c)), Max(120, StatHp(c)), FirstAbilities(c.abilities.GetOr([])))
  }

  /** `availableCards`: the unlocked or owned catalogue cards, in catalogue order. */
  function AvailableCards(defs: seq<Catalogue.CardDef>, owned: seq<string>): (r: seq<BattleCard>)
    ensures |r| == |Catalogue.FilterUnlockedOrOwned(defs, owned)|
    ensures forall i :: 0 <= i < |r| ==> r[i] == ToBattleCard(Catalogue.FilterUnlockedOrOwned(defs, owned)[i])
  {
    var kept := Catalogue.FilterUnlockedOrOwned(defs, owned);
    seq(|kept|, i requires 0 <= i < |kept| => ToBattleCard(kept[i]))
  }

  /** Every available card is an unlocked or owned catalogue card, hits for at least 20, has
      at least 120 hp and carries at most two abilities, the first ones of its definition. */
  lemma AvailableCardsProps(defs: seq<Catalogue.CardDef>, owned: seq<string>)
    ensures forall card :: card in AvailableCards(defs, owned) ==>
      && card.attack >= 20 && card.hp >= 120 && |card.abilities| <= 2
      && exists c :: c in defs && Catalogue.UnlockedOrOwned(c, owned) && card == ToBattleCard(c)
  {
    var kept := Catalogue.FilterUnlockedOrOwned(defs, owned);
    forall card | card in AvailableCards(defs, owned)
      ensures exists c :: c in defs && Catalogue.UnlockedOrOwned(c, owned) && card == ToBattleCard(c)
    {
      var i :| 0 <= i < |kept| && AvailableCards(defs, owned)[i] == card;
      var c := kept[i];
      Catalogue.FilterUnlockedOrOwnedCount(defs, owned, c);
      assert c in multiset(kept);
    }
  }
}
