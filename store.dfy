/** The users table as the summon, shop, bootstrap and profile code use it. Only what those
    requests can observe is kept: the table's key schema, its items in scan order, and whether
    the service answers every request with an error of its own.

    A request is answered in this order. A failing service answers `ServiceError`. A key
    whose attribute names are not the schema's answers `ValidationException`. A condition
    that does not hold answers `ConditionalCheckFailed`; a condition of the form
    `attribute_exists(<key attribute>)` holds exactly when an item with that key exists. An
    update whose operand has the wrong type answers `ValidationException`: arithmetic on a
    non-number, `ADD` to a list, `list_append` to a set. Only a request that succeeds changes
    the table. */
module Store {
  import opened Common

  const PkAttr: string := "PK"
  const SkAttr: string := "SK"
  const IdAttr: string := "id"
  const UserIdAttr: string := "userId"
  const SubAttr: string := "sub"
  const UpdatedAtAttr: string := "updatedAt"

  datatype DbError = ValidationException | ConditionalCheckFailed | ServiceError

  /** A stored `coins` attribute: a number, or a value `Number` cannot read as a finite number. */
  datatype CoinsValue = Num(n: int) | NotNumber

  /** `ownedCardIds`: a string set (its members without repeats, in the order the client lists
      them) or a list of strings. */
  datatype OwnedValue = StringSet(members: seq<string>) | StringList(elements: seq<string>)

  /** One item: its string attributes by name, and its `coins` and `ownedCardIds`. */
  datatype Item = Item(strs: map<string, string>, coins: Option<CoinsValue>, owned: Option<OwnedValue>)

  /** A key as the code writes it: attribute names with their values, in insertion order. */
  type Key = seq<(string, string)>

  datatype Table = Table(schema: seq<string>, items: seq<Item>, failing: bool)

  /** A successful update: which item it wrote and the `coins` it left there. */
  datatype Written = Written(index: nat, coins: int)

  /** A request's effect on the items and its answer. */
  datatype Outcome<T> = Outcome(items: seq<Item>, result: Result<T, DbError>)

  function KeyNames(key: Key): (names: seq<string>)
    ensures |names| == |key| && forall i :: 0 <= i < |key| ==> names[i] == key[i].0
  {
    seq(|key|, i requires 0 <= i < |key| => key[i].0)
  }

  /** The key names exactly the schema's attributes. */
  predicate KeyFits(schema: seq<string>, key: Key)
  {
    multiset(KeyNames(key)) == multiset(schema)
  }

  predicate HasKey(item: Item, key: Key)
  {
    forall i :: 0 <= i < |key| ==> key[i].0 in item.strs && item.strs[key[i].0] == key[i].1
  }

  /** The position of the first item holding `key`. */
  function Locate(items: seq<Item>, key: Key): (r: Option<nat>)
    ensures r.Some? ==> r.value < |items| && HasKey(items[r.value], key)
    ensures r.Some? ==> forall j :: 0 <= j < r.value ==> !HasKey(items[j], key)
    ensures r.None? ==> forall j :: 0 <= j < |items| ==> !HasKey(items[j], key)
  {
    if |items| == 0 then None
    else if HasKey(items[0], key) then Some(0)
    else match Locate(items[1..], key)
      case None => None
      case Some(j) => Some(j + 1)
  }

  /** The attribute is present and not the empty string (JavaScript truthiness of a string). */
  predicate Truthy(item: Item, attr: string)
  {
    attr in item.strs && item.strs[attr] != ""
  }

  /** The ids `ownedCardIds` holds, whichever its type. */
  function OwnedIds(owned: Option<OwnedValue>): set<string>
  {
    match owned
    case None => {}
    case Some(StringSet(m)) => set x | x in m
    case Some(StringList(l)) => set x | x in l
  }

  /** The number `coins >= :cost` compares: a stored number only. */
  predicate AffordsStored(item: Item, cost: int)
  {
    item.coins.Some? && item.coins.value.Num? && item.coins.value.n >= cost
  }

  /** `if_not_exists(coins, :zero) >= :cost`: a missing value counts as zero. */
  predicate AffordsOrZero(item: Item, cost: int)
  {
    (item.coins.None? && 0 >= cost) || AffordsStored(item, cost)
  }

  /** The stored coins as a number, zero when missing (`if_not_exists(coins, :zero)`). */
  function CoinsOrZero(item: Item): int
    requires item.coins.None? || item.coins.value.Num?
  {
    if item.coins.None? then 0 else item.coins.value.n
  }

  /** `after` is `before` with `cost` taken from its coins, `drawnId` among its owned ids and
      `updatedAt` set to `now`; its other attributes and the kind of its owned value are kept. */
  predicate Charged(before: Item, after: Item, cost: int, drawnId: string, now: string)
  {
    (before.coins.None? || before.coins.value.Num?)
    && after.coins == Some(Num(CoinsOrZero(before) - cost))
    && after.strs == before.strs[UpdatedAtAttr := now]
    && OwnedIds(after.owned) == OwnedIds(before.owned) + {drawnId}
    && (before.owned.Some? ==> after.owned.Some? && after.owned.value.StringSet? == before.owned.value.StringSet?)
  }

  /** A string set with one more member (adding a present member changes nothing). */
  function AddMember(members: seq<string>, x: string): (r: seq<string>)
    ensures (set y | y in r) == (set y | y in members) + {x}
  {
    if x in members then members else members + [x]
  }

  /** The summon's set update: `SET coins = coins - :cost, updatedAt = :now ADD ownedCardIds
      {drawnId}` under `<key exists> AND coins >= :cost`. */
  function SetSummonUpdate(t: Table, key: Key, cost: int, drawnId: string, now: string): (r: Outcome<Written>)
    ensures r.result.Err? ==> r.items == t.items
    ensures r.result.Ok? <==> (!t.failing && KeyFits(t.schema, key) && Locate(t.items, key).Some?
      && AffordsStored(t.items[Locate(t.items, key).value], cost)
      && !(t.items[Locate(t.items, key).value].owned.Some? && t.items[Locate(t.items, key).value].owned.value.StringList?))
    ensures r.result == Err(ConditionalCheckFailed) <==> (!t.failing && KeyFits(t.schema, key)
      && (Locate(t.items, key).None? || !AffordsStored(t.items[Locate(t.items, key).value], cost)))
    ensures r.result.Ok? ==> var w := r.result.value;
      && Locate(t.items, key) == Some(w.index) && |r.items| == |t.items|
      && r.items == t.items[w.index := r.items[w.index]]
      && Charged(t.items[w.index], r.items[w.index], cost, drawnId, now)
      && r.items[w.index].coins == Some(Num(w.coins)) && r.items[w.index].owned.value.StringSet?
  {
    if t.failing then Outcome(t.items, Err(ServiceError))
    else if !KeyFits(t.schema, key) then Outcome(t.items, Err(ValidationException))
    else match Locate(t.items, key)
      case None => Outcome(t.items, Err(ConditionalCheckFailed))
      case Some(i) =>
        var item := t.items[i];
        if !AffordsStored(item, cost) then Outcome(t.items, Err(ConditionalCheckFailed))
        else if item.owned.Some? && item.owned.value.StringList? then Outcome(t.items, Err(ValidationException))
        else
          var left := item.coins.value.n - cost;
          var members := if item.owned.None? then [] else item.owned.value.members;
          var written := item.(coins := Some(Num(left)), owned := Some(StringSet(AddMember(members, drawnId))),
            strs := item.strs[UpdatedAtAttr := now]);
          Outcome(t.items[i := written], Ok(Written(i, left)))
  }

  /** The summon's list update: `SET coins = if_not_exists(coins, 0) - :cost, updatedAt = :now,
      ownedCardIds = list_append(if_not_exists(ownedCardIds, []), [drawnId])` under
      `<key exists> AND if_not_exists(coins, 0) >= :cost`. */
  function ListSummonUpdate(t: Table, key: Key, cost: int, drawnId: string, now: string): (r: Outcome<Written>)
    ensures r.result.Err? ==> r.items == t.items
    ensures r.result.Ok? <==> (!t.failing && KeyFits(t.schema, key) && Locate(t.items, key).Some?
      && AffordsOrZero(t.items[Locate(t.items, key).value], cost)
      && !(t.items[Locate(t.items, key).value].owned.Some? && t.items[Locate(t.items, key).value].owned.value.StringSet?))
    ensures r.result == Err(ConditionalCheckFailed) <==> (!t.failing && KeyFits(t.schema, key)
      && (Locate(t.items, key).None? || !AffordsOrZero(t.items[Locate(t.items, key).value], cost)))
    ensures r.result.Ok? ==> var w := r.result.value;
      && Locate(t.items, key) == Some(w.index) && |r.items| == |t.items|
      && r.items == t.items[w.index := r.items[w.index]]
      && Charged(t.items[w.index], r.items[w.index], cost, drawnId, now)
      && r.items[w.index].coins == Some(Num(w.coins)) && r.items[w.index].owned.value.StringList?
  {
    if t.failing then Outcome(t.items, Err(ServiceError))
    else if !KeyFits(t.schema, key) then Outcome(t.items, Err(ValidationException))
    else match Locate(t.items, key)
      case None => Outcome(t.items, Err(ConditionalCheckFailed))
      case Some(i) =>
        var item := t.items[i];
        if !AffordsOrZero(item, cost) then Outcome(t.items, Err(ConditionalCheckFailed))
        else if item.owned.Some? && item.owned.value.StringSet? then Outcome(t.items, Err(ValidationException))
        else
          var left := CoinsOrZero(item) - cost;
          var elements := if item.owned.None? then [] else item.owned.value.elements;
          var written := item.(coins := Some(Num(left)), owned := Some(StringList(elements + [drawnId])),
            strs := item.strs[UpdatedAtAttr := now]);
          Outcome(t.items[i := written], Ok(Written(i, left)))
  }

  /** The shop's credit: `SET coins = if_not_exists(coins, 0) + :amount, updatedAt = :now`
      under `<key exists>`. */
  function AddCoinsUpdate(t: Table, key: Key, amount: int, now: string): (r: Outcome<Written>)
    ensures r.result.Err? ==> r.items == t.items
    ensures r.result == Err(ConditionalCheckFailed) <==>
      (!t.failing && KeyFits(t.schema, key) && Locate(t.items, key).None?)
    ensures r.result.Ok? <==> (!t.failing && KeyFits(t.schema, key) && Locate(t.items, key).Some?
      && t.items[Locate(t.items, key).value].coins != Some(NotNumber))
    ensures r.result.Ok? ==> var w := r.result.value;
      && Locate(t.items, key) == Some(w.index) && |r.items| == |t.items|
      && var before := t.items[w.index];
      && r.items == t.items[w.index := before.(coins := Some(Num(w.coins)), strs := before.strs[UpdatedAtAttr := now])]
      && w.coins == CoinsOrZero(before) + amount
  {
    if t.failing then Outcome(t.items, Err(ServiceError))
    else if !KeyFits(t.schema, key) then Outcome(t.items, Err(ValidationException))
    else match Locate(t.items, key)
      case None => Outcome(t.items, Err(ConditionalCheckFailed))
      case Some(i) =>
        var item := t.items[i];
        if item.coins == Some(NotNumber) then Outcome(t.items, Err(ValidationException))
        else
          var total := CoinsOrZero(item) + amount;
          Outcome(t.items[i := item.(coins := Some(Num(total)), strs := item.strs[UpdatedAtAttr := now])],
            Ok(Written(i, total)))
  }

  /** The key the schema reads off an item that carries every schema attribute. */
  function KeyOf(schema: seq<string>, item: Item): (key: Key)
    requires forall a :: a in schema ==> a in item.strs
    ensures KeyFits(schema, key) && HasKey(item, key)
  {
    var key := seq(|schema|, i requires 0 <= i < |schema| => (schema[i], item.strs[schema[i]]));
    assert KeyNames(key) == schema;
    key
  }

  /** A put of `item` under `attribute_not_exists(PK) AND attribute_not_exists(SK)`: the
      condition is read on the item the new one would replace. */
  function PutIfAbsent(t: Table, item: Item): (r: Outcome<()>)
    ensures r.result.Err? ==> r.items == t.items
    ensures r.result.Ok? ==> item in r.items && |r.items| <= |t.items| + 1
    ensures r.result == Err(ServiceError) <==> t.failing
    ensures r.result == Err(ValidationException) <==> !t.failing && exists a :: a in t.schema && a !in item.strs
    ensures r.result == Err(ConditionalCheckFailed) <==>
      (!t.failing && (forall a :: a in t.schema ==> a in item.strs)
        && var at := Locate(t.items, KeyOf(t.schema, item));
        at.Some? && (PkAttr in t.items[at.value].strs || SkAttr in t.items[at.value].strs))
    ensures r.result.Ok? && Locate(t.items, KeyOf(t.schema, item)).None? ==> r.items == t.items + [item]
  {
    if t.failing then Outcome(t.items, Err(ServiceError))
    else if exists a :: a in t.schema && a !in item.strs then Outcome(t.items, Err(ValidationException))
    else match Locate(t.items, KeyOf(t.schema, item))
      case None => Outcome(t.items + [item], Ok(()))
      case Some(i) =>
        if PkAttr in t.items[i].strs || SkAttr in t.items[i].strs then Outcome(t.items, Err(ConditionalCheckFailed))
        else
          var replaced := t.items[i := item];
          assert replaced[i] == item;
          Outcome(replaced, Ok(()))
  }

  /** A get by key (a consistent read): the first item holding the key. */
  function GetItem(t: Table, key: Key): (r: Result<Option<Item>, DbError>)
    ensures r.Ok? && r.value.Some? ==> r.value.value in t.items && HasKey(r.value.value, key)
    ensures r.Ok? && r.value.None? ==> forall j :: 0 <= j < |t.items| ==> !HasKey(t.items[j], key)
    ensures r.Err? ==> (r.error == ServiceError <==> t.failing)
    ensures !t.failing && !KeyFits(t.schema, key) ==> r == Err(ValidationException)
    ensures r == Ok(None) <==> !t.failing && KeyFits(t.schema, key) && Locate(t.items, key).None?
    ensures r.Ok? && r.value.Some? ==> r.value.value == t.items[Locate(t.items, key).value]
  {
    if t.failing then Err(ServiceError)
    else if !KeyFits(t.schema, key) then Err(ValidationException)
    else match Locate(t.items, key)
      case None => Ok(None)
      case Some(i) => Ok(Some(t.items[i]))
  }

  /** The items satisfying a filter, in order. */
  function Filter(items: seq<Item>, matches: Item -> bool): (r: seq<Item>)
    ensures forall x :: x in r ==> x in items && matches(x)
    ensures forall x :: x in items && matches(x) ==> x in r
  {
    if |items| == 0 then [] else (if matches(items[0]) then [items[0]] else []) + Filter(items[1..], matches)
  }

  /** A scan with `Limit: limit` and a filter: the first `limit` items in scan order are read,
      and the filter is then applied to those only. */
  function ScanWithLimit(t: Table, limit: nat, matches: Item -> bool): (r: Result<seq<Item>, DbError>)
    ensures r.Err? <==> t.failing
  {
    if t.failing then Err(ServiceError)
    else Ok(Filter(t.items[..Min(limit, |t.items|)], matches))
  }

  /** A scan read to its last page: every item the filter accepts, in scan order. */
  function ScanAll(t: Table, matches: Item -> bool): (r: Result<seq<Item>, DbError>)
    ensures r.Err? <==> t.failing
  {
    if t.failing then Err(ServiceError) else Ok(Filter(t.items, matches))
  }

  /** With a limit, an item the filter accepts is missed whenever `limit` items precede it. */
  lemma {:induction false} LimitMissesLaterMatch(t: Table, limit: nat, matches: Item -> bool)
    requires !t.failing && |t.items| > limit
    requires forall j :: 0 <= j < limit ==> !matches(t.items[j])
    requires matches(t.items[limit])
    ensures ScanWithLimit(t, limit, matches) == Ok([])
    ensures ScanAll(t, matches).Ok? && t.items[limit] in ScanAll(t, matches).value
  {
    FilterNone(t.items[..limit], matches);
  }

  lemma {:induction false} FilterNone(items: seq<Item>, matches: Item -> bool)
    requires forall j :: 0 <= j < |items| ==> !matches(items[j])
    ensures Filter(items, matches) == []
  {
    if |items| > 0 {
      FilterNone(items[1..], matches);
    }
  }

  /** The users table. Requests change `items` only; the schema and the service's health are
      fixed. */
  class UsersTable {
    var schema: seq<string>
    var items: seq<Item>
    var failing: bool

    function State(): Table
      reads this
    {
      Table(schema, items, failing)
    }

    constructor (schema: seq<string>, items: seq<Item>, failing: bool)
      ensures State() == Table(schema, items, failing)
    {
      this.schema := schema;
      this.items := items;
      this.failing := failing;
    }

    method UpdateSetSummon(key: Key, cost: int, drawnId: string, now: string) returns (r: Result<Written, DbError>)
      modifies this
      ensures schema == old(schema) && failing == old(failing)
      ensures Outcome(items, r) == SetSummonUpdate(old(State()), key, cost, drawnId, now)
    {
      var out := SetSummonUpdate(State(), key, cost, drawnId, now);
      items := out.items;
      r := out.result;
    }

    method UpdateListSummon(key: Key, cost: int, drawnId: string, now: string) returns (r: Result<Written, DbError>)
      modifies this
      ensures schema == old(schema) && failing == old(failing)
      ensures Outcome(items, r) == ListSummonUpdate(old(State()), key, cost, drawnId, now)
    {
      var out := ListSummonUpdate(State(), key, cost, drawnId, now);
      items := out.items;
      r := out.result;
    }

    method UpdateAddCoins(key: Key, amount: int, now: string) returns (r: Result<Written, DbError>)
      modifies this
      ensures schema == old(schema) && failing == old(failing)
      ensures Outcome(items, r) == AddCoinsUpdate(old(State()), key, amount, now)
    {
      var out := AddCoinsUpdate(State(), key, amount, now);
      items := out.items;
      r := out.result;
    }

    method Put(item: Item) returns (r: Result<(), DbError>)
      modifies this
      ensures schema == old(schema) && failing == old(failing)
      ensures Outcome(items, r) == PutIfAbsent(old(State()), item)
    {
      var out := PutIfAbsent(State(), item);
      items := out.items;
      r := out.result;
    }
  }
}
