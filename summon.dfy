/** A single summon: draw a card from the banner's pool, then take 1000 coins from the user's
    item and add the card to its owned ids in one conditional update, falling back to other
    update forms and other keys when the table rejects the first. */
module Summon {
  import opened Common
  import opened Catalogue
  import opened Store
  import opened Records

  const SingleSummonCost: nat := 1000
  const OutlawLegend: string := "outlaw-legend"
  const OutlawLegendPool: seq<string> := ["1", "2", "3", "4", "5", "6", "7", "8", "9", "10"]

  /** The property names every JavaScript object inherits from `Object.prototype`. */
  const ObjectPrototypeNames: set<string> := {
    "constructor", "hasOwnProperty", "isPrototypeOf", "propertyIsEnumerable", "toLocaleString",
    "toString", "valueOf", "__proto__", "__defineGetter__", "__defineSetter__",
    "__lookupGetter__", "__lookupSetter__"
  }

  /** `isBannerId` as written: `value in BANNER_POOLS` also holds for inherited names. */
  predicate IsBannerIdAsWritten(value: string)
  {
    value == OutlawLegend || value in ObjectPrototypeNames
  }

  /** The banners are the pool table's own keys: only "outlaw-legend". */
  predicate IsBannerId(value: string)
  {
    value == OutlawLegend
  }

  /** The check as written lets an inherited name through, and lets through nothing else
      beyond the real banner. */
  lemma InheritedNamePassesBannerCheck(value: string)
    ensures IsBannerIdAsWritten("toString") && !IsBannerId("toString")
    ensures IsBannerIdAsWritten(value) <==> IsBannerId(value) || value in ObjectPrototypeNames
  {
  }

  /** A drawn card as the summon answers it: every catalogue field of the card, and
      `imageSrc`. */
  datatype SummonCard = SummonCard(card: CardDef, imageSrc: string)

  /** `mapCardForResponse`: the image path when the card has one, else "/card.png". */
  function MapCardForResponse(card: CardDef): (r: SummonCard)
    ensures r.card == card
    ensures card.imagePath.Some? ==> r.imageSrc == card.imagePath.value
    ensures card.imagePath.None? ==> r.imageSrc == DefaultImage
  {
    SummonCard(card, card.imagePath.GetOr(DefaultImage))
  }

  /** `cardsById.get(id)`: a `Map` built from the catalogue keeps the last card of an id. */
  function CardsById(defs: seq<CardDef>, id: string): (r: Option<CardDef>)
    ensures r.None? <==> forall c :: c in defs ==> c.id != id
    ensures r.Some? ==> r.value in defs && r.value.id == id
  {
    if |defs| == 0 then None
    else match CardsById(defs[1..], id)
      case Some(later) => Some(later)
      case None => if defs[0].id == id then Some(defs[0]) else None
  }

  /** The card found for an id is the last catalogue entry with that id. */
  lemma {:induction false} CardsByIdLast(defs: seq<CardDef>, id: string, i: nat)
    requires i < |defs| && defs[i].id == id
    requires forall j :: i < j < |defs| ==> defs[j].id != id
    ensures CardsById(defs, id) == Some(defs[i])
  {
    if i > 0 {
      CardsByIdLast(defs[1..], id, i - 1);
    } else {
      assert forall c :: c in defs[1..] ==> c.id != id by {
        forall c | c in defs[1..] ensures c.id != id {
          var j :| 0 <= j < |defs[1..]| && defs[1..][j] == c;
          assert defs[j + 1] == c;
        }
      }
    }
  }

  datatype SummonCode = InsufficientCoins | DbConfigMissing | UserNotFound

  /** How a summon can fail: a `SummonError` with its code, the plain error about a card
      missing from the catalogue, or a table error passed on as it came. */
  datatype SummonFailure = Coded(code: SummonCode) | CardMissing(id: string) | Thrown(error: DbError)

  datatype SummonResult = SummonResult(card: SummonCard, remainingCoins: int, cost: int)

  /** `pickCardFromBanner`: the id at the drawn position of the pool, looked up in the
      catalogue. */
  function PickCardFromBanner(defs: seq<CardDef>, bannerId: string, draw: Draw): (r: Result<SummonCard, SummonFailure>)
    requires IsBannerId(bannerId) && ValidDraw(draw)
    ensures r.Ok? ==> r.value.card.id in OutlawLegendPool && r.value.card in defs
    ensures r.Ok? ==> r.value == MapCardForResponse(r.value.card)
    ensures r.Err? ==> r.error.CardMissing? && r.error.id in OutlawLegendPool
    ensures r.Err? ==> forall c :: c in defs ==> c.id != r.error.id
  {
    var pickedId := OutlawLegendPool[RandomIndex(|OutlawLegendPool|, draw)];
    match CardsById(defs, pickedId)
    case None => Err(CardMissing(pickedId))
    case Some(card) => Ok(MapCardForResponse(card))
  }

  /** `pickCardFromBanner` for a name that passes the check as written only: the pool is an
      inherited property with no elements, the drawn id is `undefined`, and the lookup fails. */
  function PickCardAsWritten(defs: seq<CardDef>, bannerId: string, draw: Draw): Result<SummonCard, SummonFailure>
    requires IsBannerIdAsWritten(bannerId) && ValidDraw(draw)
  {
    if IsBannerId(bannerId) then PickCardFromBanner(defs, bannerId, draw) else Err(CardMissing("undefined"))
  }

  /** The catch around an update: success answers the summon, a failed condition means too
      few coins, and any other error is passed on. */
  function Settle(update: Result<Written, DbError>, card: SummonCard): (r: Result<SummonResult, SummonFailure>)
    ensures update.Ok? ==> r == Ok(SummonResult(card, update.value.coins, SingleSummonCost))
    ensures update == Err(ConditionalCheckFailed) ==> r == Err(Coded(InsufficientCoins))
    ensures update.Err? && update.error != ConditionalCheckFailed ==> r == Err(Thrown(update.error))
  {
    match update
    case Ok(w) => Ok(SummonResult(card, w.coins, SingleSummonCost))
    case Err(ConditionalCheckFailed) => Err(Coded(InsufficientCoins))
    case Err(e) => Err(Thrown(e))
  }

  /** The answer when the scan yields no record: its error when it failed, otherwise
      "user not found". */
  function NoRecord(found: Result<Option<Item>, DbError>): (f: SummonFailure)
    ensures found.Err? ==> f == Thrown(found.error)
    ensures found.Ok? ==> f == Coded(UserNotFound)
  {
    match found
    case Err(e) => Thrown(e)
    case Ok(_) => Coded(UserNotFound)
  }

  /** `after` is `before` with the item `key` addresses charged for the summon of `drawnId`,
      leaving `left`; every other item is as it was. */
  predicate SummonCharged(before: seq<Item>, after: seq<Item>, key: Key, drawnId: string, now: string, left: int)
  {
    Locate(before, key).Some? &&
    var i := Locate(before, key).value;
    |after| == |before| && after == before[i := after[i]]
    && AffordsStored(before[i], SingleSummonCost)
    && Charged(before[i], after[i], SingleSummonCost, drawnId, now)
    && after[i].coins == Some(Num(left))
  }

  /** The item `key` addresses holds fewer than 1000 coins. */
  predicate ShortAt(items: seq<Item>, key: Key)
  {
    Locate(items, key).Some? && !AffordsStored(items[Locate(items, key).value], SingleSummonCost)
  }

  /** A key the summon for `userId` may write: the default key, or a candidate key of the
      record the profile scan finds for the user. */
  predicate UserKey(t: Table, userId: string, key: Key)
  {
    var found := FindProfileRecord(t, userId);
    key == DefaultKey(userId) || (found.Ok? && found.value.Some? && key in KeyCandidates(found.value.value))
  }

  /** The table rejects both update forms on `key` with a `ValidationException`. */
  predicate BothRejected(t: Table, key: Key, drawnId: string, now: string)
  {
    SetSummonUpdate(t, key, SingleSummonCost, drawnId, now).result == Err(ValidationException)
    && ListSummonUpdate(t, key, SingleSummonCost, drawnId, now).result == Err(ValidationException)
  }

  /** The default key pays for the summon: the set form succeeds there, or it is rejected with
      a `ValidationException` and the list form succeeds. */
  predicate DefaultKeyPays(t: Table, userId: string, drawnId: string, now: string)
  {
    var key := DefaultKey(userId);
    SetSummonUpdate(t, key, SingleSummonCost, drawnId, now).result.Ok?
    || (SetSummonUpdate(t, key, SingleSummonCost, drawnId, now).result == Err(ValidationException)
      && ListSummonUpdate(t, key, SingleSummonCost, drawnId, now).result.Ok?)
  }

  /** The default key sends the summon on to the scan: the set form fails its condition there,
      or both forms are rejected with a `ValidationException`. */
  predicate DefaultKeyPasses(t: Table, userId: string, drawnId: string, now: string)
  {
    SetSummonUpdate(t, DefaultKey(userId), SingleSummonCost, drawnId, now).result == Err(ConditionalCheckFailed)
    || BothRejected(t, DefaultKey(userId), drawnId, now)
  }

  /** The scan finds a record with at least one candidate key, and both forms are rejected with
      a `ValidationException` on every candidate. */
  predicate EveryCandidateRejected(t: Table, userId: string, drawnId: string, now: string)
  {
    var found := FindProfileRecord(t, userId);
    found.Ok? && found.value.Some? && |KeyCandidates(found.value.value)| > 0
    && forall k :: k in KeyCandidates(found.value.value) ==> BothRejected(t, k, drawnId, now)
  }

  /** The candidate keys of the record the profile scan finds; none without a record. */
  function FoundCandidates(t: Table, userId: string): seq<Key>
  {
    var found := FindProfileRecord(t, userId);
    if found.Ok? && found.value.Some? then KeyCandidates(found.value.value) else []
  }

  /** `candidates[n]` is the first candidate on which the table does not reject both update
      forms. */
  predicate FirstLive(t: Table, candidates: seq<Key>, drawnId: string, now: string, n: nat)
  {
    n < |candidates| && !BothRejected(t, candidates[n], drawnId, now)
    && forall j :: 0 <= j < n ==> BothRejected(t, candidates[j], drawnId, now)
  }

  /** At most one candidate is the first one the table does not reject. */
  lemma FirstLiveUnique(t: Table, candidates: seq<Key>, drawnId: string, now: string, n: nat)
    requires FirstLive(t, candidates, drawnId, now, n)
    ensures forall m: nat :: FirstLive(t, candidates, drawnId, now, m) ==> m == n
  {
  }

  /** The summon was settled on `key`: charged there when its item can pay, otherwise
      answered with "insufficient coins". */
  ghost predicate SettledOn(before: Table, after: seq<Item>, key: Key, drawnId: string, now: string,
    r: Result<SummonResult, SummonFailure>)
  {
    && (r.Ok? <==> !ShortAt(before.items, key))
    && (r.Ok? ==> SummonCharged(before.items, after, key, drawnId, now, r.value.remainingCoins))
    && (r.Err? ==> r == Err(Coded(InsufficientCoins)))
  }

  /** What every answer of a summon of `card` promises: a failure leaves every item as it was,
      a success reports the card and the cost, a failed condition is never passed on raw, and
      a table that fails answers its error. */
  ghost predicate Answered(before: Table, after: seq<Item>, card: SummonCard, r: Result<SummonResult, SummonFailure>)
  {
    && (r.Err? ==> after == before.items)
    && (r.Ok? ==> r.value.card == card && r.value.cost == SingleSummonCost)
    && (r.Err? && r.error.Thrown? ==> r.error.error != ConditionalCheckFailed)
    && (before.failing ==> r == Err(Thrown(ServiceError)))
  }

  /** What a summon of `card` for `userId` promises about the table it ran on. A success
      charged the item of one of the user's keys. When the default key pays, it is the item
      charged. "Insufficient coins" and "user not found" are only answered once the default key
      has sent the summon on to the scan: the first when the item of one of the user's keys is
      short, the second exactly when the scan finds no record or a record without candidate keys.
      After the scan, the first candidate not rejected as invalid settles the summon; when
      every candidate is rejected as invalid, that `ValidationException` is thrown. */
  ghost predicate SummonAnswered(before: Table, after: seq<Item>, userId: string, card: SummonCard, now: string,
    r: Result<SummonResult, SummonFailure>)
  {
    var drawnId := card.card.id;
    var found := FindProfileRecord(before, userId);
    && Answered(before, after, card, r)
    && (r.Ok? ==> exists k :: (UserKey(before, userId, k)
      && SummonCharged(before.items, after, k, drawnId, now, r.value.remainingCoins)))
    && (DefaultKeyPays(before, userId, drawnId, now) ==>
      r.Ok? && SummonCharged(before.items, after, DefaultKey(userId), drawnId, now, r.value.remainingCoins))
    && (r == Err(Coded(InsufficientCoins)) ==>
      DefaultKeyPasses(before, userId, drawnId, now) && exists k :: UserKey(before, userId, k) && ShortAt(before.items, k))
    && (r == Err(Coded(UserNotFound)) ==>
      DefaultKeyPasses(before, userId, drawnId, now)
      && (found == Ok(None) || (found.Ok? && found.value.Some? && KeyCandidates(found.value.value) == [])))
    && (DefaultKeyPasses(before, userId, drawnId, now)
      && (found == Ok(None) || (found.Ok? && found.value.Some? && KeyCandidates(found.value.value) == []))
      ==> r == Err(Coded(UserNotFound)))
    && (DefaultKeyPasses(before, userId, drawnId, now) && EveryCandidateRejected(before, userId, drawnId, now) ==>
      r == Err(Thrown(ValidationException)))
    && (DefaultKeyPasses(before, userId, drawnId, now) ==>
      forall n: nat :: FirstLive(before, FoundCandidates(before, userId), drawnId, now, n) ==>
        SettledOn(before, after, FoundCandidates(before, userId)[n], drawnId, now, r))
  }

  /** Everything one run of `runSingleSummonForUser` promises: without a configured table it
      fails and writes nothing; a card missing from the catalogue fails before any write; and
      a drawn card is answered as `SummonAnswered` states. */
  ghost predicate SummonRan(t: Table, after: seq<Item>, configured: bool, defs: seq<CardDef>, userId: string,
    bannerId: string, draw: Draw, now: string, r: Result<SummonResult, SummonFailure>)
    requires IsBannerId(bannerId) && ValidDraw(draw)
  {
    var picked := PickCardFromBanner(defs, bannerId, draw);
    && (!configured ==> r == Err(Coded(DbConfigMissing)) && after == t.items)
    && (configured && picked.Err? ==> r == Err(picked.error) && after == t.items)
    && (configured && picked.Ok? ==> SummonAnswered(t, after, userId, picked.value, now, r))
  }

  /** A summon the default key settles is answered as `SummonAnswered` states. */
  lemma DefaultKeyAnswer(t: Table, after: seq<Item>, userId: string, card: SummonCard, now: string,
    r: Result<SummonResult, SummonFailure>)
    requires !DefaultKeyPasses(t, userId, card.card.id, now) && Answered(t, after, card, r)
    requires r.Ok? <==> DefaultKeyPays(t, userId, card.card.id, now)
    requires r.Ok? ==> SummonCharged(t.items, after, DefaultKey(userId), card.card.id, now, r.value.remainingCoins)
    requires r.Err? ==> r == Err(Thrown(ServiceError))
    ensures SummonAnswered(t, after, userId, card, now, r)
  {
    assert UserKey(t, userId, DefaultKey(userId));
  }

  /** A summon the `n`th candidate key of the found record settles, every earlier candidate
      having been rejected as invalid, is answered as `SummonAnswered` states. */
  lemma CandidateAnswer(t: Table, after: seq<Item>, userId: string, record: Item, n: nat, card: SummonCard,
    now: string, r: Result<SummonResult, SummonFailure>)
    requires DefaultKeyPasses(t, userId, card.card.id, now) && Answered(t, after, card, r)
    requires FindProfileRecord(t, userId) == Ok(Some(record)) && n < |KeyCandidates(record)|
    requires !BothRejected(t, KeyCandidates(record)[n], card.card.id, now)
    requires forall j :: 0 <= j < n ==> BothRejected(t, KeyCandidates(record)[j], card.card.id, now)
    requires r.Ok? ==> SummonCharged(t.items, after, KeyCandidates(record)[n], card.card.id, now, r.value.remainingCoins)
    requires r.Err? ==> r == Err(Coded(InsufficientCoins)) && ShortAt(t.items, KeyCandidates(record)[n])
    ensures SummonAnswered(t, after, userId, card, now, r)
  {
    var key := KeyCandidates(record)[n];
    var candidates := FoundCandidates(t, userId);
    assert candidates == KeyCandidates(record);
    assert UserKey(t, userId, key);
    FirstLiveUnique(t, candidates, card.card.id, now, n);
    assert SettledOn(t, after, key, card.card.id, now, r);
  }

  /** A summon whose scan yields no usable record answers "user not found". */
  lemma NoCandidateAnswer(t: Table, userId: string, card: SummonCard, now: string)
    requires DefaultKeyPasses(t, userId, card.card.id, now)
    requires var found := FindProfileRecord(t, userId);
      found == Ok(None) || (found.Ok? && found.value.Some? && KeyCandidates(found.value.value) == [])
    ensures SummonAnswered(t, t.items, userId, card, now, Err(Coded(UserNotFound)))
  {
  }

  /** A summon whose every candidate was rejected as invalid throws that error. */
  lemma RejectedAnswer(t: Table, userId: string, record: Item, card: SummonCard, now: string)
    requires DefaultKeyPasses(t, userId, card.card.id, now)
    requires FindProfileRecord(t, userId) == Ok(Some(record)) && |KeyCandidates(record)| > 0
    requires forall j :: 0 <= j < |KeyCandidates(record)| ==> BothRejected(t, KeyCandidates(record)[j], card.card.id, now)
    ensures SummonAnswered(t, t.items, userId, card, now, Err(Thrown(ValidationException)))
  {
  }

  lemma SetChargesOne(t: Table, key: Key, drawnId: string, now: string)
    requires SetSummonUpdate(t, key, SingleSummonCost, drawnId, now).result.Ok?
    ensures var out := SetSummonUpdate(t, key, SingleSummonCost, drawnId, now);
      SummonCharged(t.items, out.items, key, drawnId, now, out.result.value.coins)
  {
    var out := SetSummonUpdate(t, key, SingleSummonCost, drawnId, now);
    var i := out.result.value.index;
    assert AffordsStored(t.items[i], SingleSummonCost);
  }

  lemma ListChargesOne(t: Table, key: Key, drawnId: string, now: string)
    requires ListSummonUpdate(t, key, SingleSummonCost, drawnId, now).result.Ok?
    ensures var out := ListSummonUpdate(t, key, SingleSummonCost, drawnId, now);
      SummonCharged(t.items, out.items, key, drawnId, now, out.result.value.coins)
  {
    var out := ListSummonUpdate(t, key, SingleSummonCost, drawnId, now);
    var i := out.result.value.index;
    assert AffordsOrZero(t.items[i], SingleSummonCost);
  }

  /** After the set form is rejected with a `ValidationException`, the list form on the same
      key either succeeds or is rejected the same way: the set form got past the coin
      condition, and the list form asks no more of the coins. */
  lemma ListAfterSetRejected(t: Table, key: Key, drawnId: string, now: string)
    requires SetSummonUpdate(t, key, SingleSummonCost, drawnId, now).result == Err(ValidationException)
    ensures var l := ListSummonUpdate(t, key, SingleSummonCost, drawnId, now).result;
      l.Ok? || l == Err(ValidationException)
  {
  }

  /** A failed condition on a key the table's own record holds means that the item the key
      addresses holds fewer than 1000 coins. */
  lemma CandidateShortOfCoins(t: Table, record: Item, key: Key, drawnId: string, now: string)
    requires record in t.items && HasKey(record, key)
    requires SetSummonUpdate(t, key, SingleSummonCost, drawnId, now).result == Err(ConditionalCheckFailed)
    ensures ShortAt(t.items, key)
  {
    assert Locate(t.items, key).Some?;
  }

  /** The attempt on the default key (summon.ts:323-354): the set form, and on a
      `ValidationException` the list form. `None` goes on to the scan: the set form failed its
      condition, or both forms were rejected with a `ValidationException`. */
  method TryDefaultKey(table: UsersTable, userId: string, card: SummonCard, now: string)
    returns (settled: Option<Result<SummonResult, SummonFailure>>)
    modifies table
    ensures table.schema == old(table.schema) && table.failing == old(table.failing)
    ensures settled.None? <==> DefaultKeyPasses(old(table.State()), userId, card.card.id, now)
    ensures settled.None? ==> table.items == old(table.items)
    ensures settled.Some? ==> Answered(old(table.State()), table.items, card, settled.value)
    ensures settled.Some? && settled.value.Ok? <==> DefaultKeyPays(old(table.State()), userId, card.card.id, now)
    ensures settled.Some? && settled.value.Ok? ==>
      SummonCharged(old(table.items), table.items, DefaultKey(userId), card.card.id, now, settled.value.value.remainingCoins)
    ensures settled.Some? && settled.value.Err? ==> settled.value == Err(Thrown(ServiceError))
  {
    ghost var t0 := table.State();
    var key := DefaultKey(userId);
    var first := table.UpdateSetSummon(key, SingleSummonCost, card.card.id, now);
    if first.Ok? || (first.error != ValidationException && first.error != ConditionalCheckFailed) {
      if first.Ok? {
        SetChargesOne(t0, key, card.card.id, now);
      }
      return Some(Settle(first, card));
    }
    if first.error == ConditionalCheckFailed {
      return None;
    }
    ListAfterSetRejected(t0, key, card.card.id, now);
    var fallback := table.UpdateListSummon(key, SingleSummonCost, card.card.id, now);
    if fallback.Ok? {
      ListChargesOne(t0, key, card.card.id, now);
      return Some(Settle(fallback, card));
    }
    settled := None;
  }

  /** One candidate key of the found record (summon.ts:384-415): the set form; a failed
      condition means too few coins; a `ValidationException` tries the list form, whose own
      `ValidationException` gives `None`, the move to the next candidate. */
  method TryCandidate(table: UsersTable, record: Item, key: Key, card: SummonCard, now: string)
    returns (settled: Option<Result<SummonResult, SummonFailure>>)
    requires record in table.items && HasKey(record, key) && !table.failing
    modifies table
    ensures table.schema == old(table.schema) && table.failing == old(table.failing)
    ensures settled.None? <==> BothRejected(old(table.State()), key, card.card.id, now)
    ensures settled.None? ==> table.items == old(table.items)
    ensures settled.Some? ==> Answered(old(table.State()), table.items, card, settled.value)
    ensures settled.Some? && settled.value.Ok? ==>
      SummonCharged(old(table.items), table.items, key, card.card.id, now, settled.value.value.remainingCoins)
    ensures settled.Some? && settled.value.Err? ==>
      settled.value == Err(Coded(InsufficientCoins)) && ShortAt(old(table.items), key)
  {
    ghost var t0 := table.State();
    var setResult := table.UpdateSetSummon(key, SingleSummonCost, card.card.id, now);
    if setResult.Ok? || setResult.error != ValidationException {
      if setResult.Ok? {
        SetChargesOne(t0, key, card.card.id, now);
      } else {
        CandidateShortOfCoins(t0, record, key, card.card.id, now);
      }
      return Some(Settle(setResult, card));
    }
    ListAfterSetRejected(t0, key, card.card.id, now);
    var listResult := table.UpdateListSummon(key, SingleSummonCost, card.card.id, now);
    if listResult.Ok? {
      ListChargesOne(t0, key, card.card.id, now);
      return Some(Settle(listResult, card));
    }
    settled := None;
  }

  /** `runSingleSummonForUser`. The card is drawn before any write. The default key is tried
      first; when it does not settle the summon, the user's record is found by scan and its
      candidate keys are tried in order; when every candidate has been rejected with a
      `ValidationException`, that error is thrown. */
  method RunSingleSummonForUser(table: UsersTable, configured: bool, defs: seq<CardDef>, userId: string,
    bannerId: string, draw: Draw, now: string) returns (r: Result<SummonResult, SummonFailure>)
    requires IsBannerId(bannerId) && ValidDraw(draw)
    modifies table
    ensures table.schema == old(table.schema) && table.failing == old(table.failing)
    ensures SummonRan(old(table.State()), table.items, configured, defs, userId, bannerId, draw, now, r)
  {
    if !configured {
      return Err(Coded(DbConfigMissing));
    }
    var picked := PickCardFromBanner(defs, bannerId, draw);
    if picked.Err? {
      return Err(picked.error);
    }
    var drawnCard := picked.value;
    ghost var t0 := table.State();

    // The default-key attempt always settles or moves on, so the source's later test for a
    // failed condition (summon.ts:418-423) is never reached.
    var settled := TryDefaultKey(table, userId, drawnCard, now);
    if settled.Some? {
      DefaultKeyAnswer(t0, table.items, userId, drawnCard, now, settled.value);
      return settled.value;
    }

    var found := FindProfileRecord(table.State(), userId);
    if found.Err? || found.value.None? {
      NoCandidateAnswer(t0, userId, drawnCard, now);
      return Err(NoRecord(found));
    }
    var record := found.value.value;
    var keyCandidates := BuildKeyCandidates(record);
    if |keyCandidates| == 0 {
      NoCandidateAnswer(t0, userId, drawnCard, now);
      return Err(Coded(UserNotFound));
    }
    KeyCandidatesCorrect(record);

    var lastError: Option<DbError> := None;
    var i := 0;
    while i < |keyCandidates|
      invariant 0 <= i <= |keyCandidates|
      invariant table.State() == t0
      invariant i > 0 ==> lastError == Some(ValidationException)
      invariant forall j :: 0 <= j < i ==> BothRejected(t0, keyCandidates[j], drawnCard.card.id, now)
    {
      settled := TryCandidate(table, record, keyCandidates[i], drawnCard, now);
      if settled.Some? {
        CandidateAnswer(t0, table.items, userId, record, i, drawnCard, now, settled.value);
        return settled.value;
      }
      lastError := Some(ValidationException);
      i := i + 1;
    }
    RejectedAnswer(t0, userId, record, drawnCard, now);
    r := Err(match lastError case Some(e) => Thrown(e) case None => Coded(UserNotFound));
  }
}
