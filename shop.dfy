/** Crediting purchased coins to a user's item: one conditional update on the default key,
    and when the table rejects that key, the same update on each key of the user's record found
    by scan. */
module Shop {
  import opened Common
  import opened Store
  import opened Records

  datatype ShopCode = DbConfigMissing | UserNotFound

  /** How a credit can fail: a `ShopError` with its code, or a table error passed on as it came. */
  datatype ShopFailure = Coded(code: ShopCode) | Thrown(error: DbError)

  /** `findUserRecord` of the shop: the first item the filter `userId/sub/id = :u` accepts,
      over the whole table. */
  function FindShopRecord(t: Table, userId: string): (r: Result<Option<Item>, DbError>)
    ensures r.Err? <==> t.failing
    ensures r.Ok? && r.value.Some? ==> r.value.value in t.items && ShopScanMatch(userId, r.value.value)
    ensures r.Ok? && r.value.None? ==> forall x :: x in t.items ==> !ShopScanMatch(userId, x)
  {
    match ScanAll(t, (x: Item) => ShopScanMatch(userId, x))
    case Err(e) => Err(e)
    case Ok(found) => Ok(if |found| == 0 then None else Some(found[0]))
  }

  /** The shop's `findUserRecord` as written: with `Limit: 1` only the table's first item is
      read, and the filter is applied to it alone. */
  function FindShopRecordAsWritten(t: Table, userId: string): Result<Option<Item>, DbError>
  {
    match ScanWithLimit(t, 1, (x: Item) => ShopScanMatch(userId, x))
    case Err(e) => Err(e)
    case Ok(found) => Ok(if |found| == 0 then None else Some(found[0]))
  }

  /** When the table's first item belongs to someone else, the scan as written finds no record
      for a user whose item comes second, and the full scan finds it. */
  lemma FirstItemHidesUser(t: Table, userId: string)
    requires !t.failing && |t.items| > 1
    requires !ShopScanMatch(userId, t.items[0]) && ShopScanMatch(userId, t.items[1])
    ensures FindShopRecordAsWritten(t, userId) == Ok(None)
    ensures FindShopRecord(t, userId) == Ok(Some(t.items[1]))
  {
    LimitMissesLaterMatch(t, 1, (x: Item) => ShopScanMatch(userId, x));
    var tail := t.items[1..];
    assert t.items == [t.items[0]] + tail;
    assert Filter(t.items, (x: Item) => ShopScanMatch(userId, x)) == Filter(tail, (x: Item) => ShopScanMatch(userId, x));
    assert tail == [tail[0]] + tail[1..];
  }

  /** `after` is `before` with the item `key` addresses credited `amount` coins (a missing
      balance counting as zero) and stamped `now`; `total` is that item's new balance, and
      every other item is as it was. */
  predicate Credited(before: seq<Item>, after: seq<Item>, key: Key, amount: int, now: string, total: int)
  {
    Locate(before, key).Some? &&
    var i := Locate(before, key).value;
    before[i].coins != Some(NotNumber) && total == CoinsOrZero(before[i]) + amount
    && after == before[i := before[i].(coins := Some(Num(total)), strs := before[i].strs[UpdatedAtAttr := now])]
  }

  /** The catch around an update: success answers the new balance, a failed condition means
      there is no such user, and any other error is passed on. */
  function SettleCredit(update: Result<Written, DbError>): (r: Result<int, ShopFailure>)
    ensures update.Ok? ==> r == Ok(update.value.coins)
    ensures update == Err(ConditionalCheckFailed) ==> r == Err(Coded(UserNotFound))
    ensures update.Err? && update.error != ConditionalCheckFailed ==> r == Err(Thrown(update.error))
  {
    match update
    case Ok(w) => Ok(w.coins)
    case Err(ConditionalCheckFailed) => Err(Coded(UserNotFound))
    case Err(e) => Err(Thrown(e))
  }

  /** The answer when the scan yields no record: its error when it failed, otherwise
      "user not found". */
  function NoShopRecord(found: Result<Option<Item>, DbError>): (f: ShopFailure)
    ensures found.Err? ==> f == Thrown(found.error)
    ensures found.Ok? ==> f == Coded(UserNotFound)
  {
    match found
    case Err(e) => Thrown(e)
    case Ok(_) => Coded(UserNotFound)
  }

  lemma CreditWritten(t: Table, key: Key, amount: int, now: string)
    requires AddCoinsUpdate(t, key, amount, now).result.Ok?
    ensures var out := AddCoinsUpdate(t, key, amount, now);
      Credited(t.items, out.items, key, amount, now, out.result.value.coins)
  {
    var i := AddCoinsUpdate(t, key, amount, now).result.value.index;
    assert t.items[i].coins != Some(NotNumber);
  }

  /** The default key reaches an item whose balance is a number or missing. */
  predicate DefaultKeyCreditable(t: Table, userId: string)
  {
    !t.failing && KeyFits(t.schema, DefaultKey(userId)) && Locate(t.items, DefaultKey(userId)).Some?
    && t.items[Locate(t.items, DefaultKey(userId)).value].coins != Some(NotNumber)
  }

  /** A key the credit for `userId` may write: the default key, or a candidate key of the
      record the shop's scan finds for the user. */
  predicate ShopUserKey(t: Table, userId: string, key: Key)
  {
    var found := FindShopRecord(t, userId);
    key == DefaultKey(userId) || (found.Ok? && found.value.Some? && key in KeyCandidates(found.value.value))
  }

  /** The default key is rejected with a `ValidationException`, the scan finds a record with
      at least one candidate key, and the update is rejected the same way on every candidate. */
  predicate EveryShopCandidateRejected(t: Table, userId: string, amount: int, now: string)
  {
    var found := FindShopRecord(t, userId);
    AddCoinsUpdate(t, DefaultKey(userId), amount, now).result == Err(ValidationException)
    && found.Ok? && found.value.Some? && |KeyCandidates(found.value.value)| > 0
    && forall k :: k in KeyCandidates(found.value.value) ==> AddCoinsUpdate(t, k, amount, now).result == Err(ValidationException)
  }

  /** The candidate keys of the record the shop's scan finds; none without a record. */
  function FoundShopCandidates(t: Table, userId: string): seq<Key>
  {
    var found := FindShopRecord(t, userId);
    if found.Ok? && found.value.Some? then KeyCandidates(found.value.value) else []
  }

  /** `candidates[n]` is the first candidate on which the update is not rejected with a
      `ValidationException`. */
  predicate FirstCreditable(t: Table, candidates: seq<Key>, amount: int, now: string, n: nat)
  {
    n < |candidates| && AddCoinsUpdate(t, candidates[n], amount, now).result != Err(ValidationException)
    && forall j :: 0 <= j < n ==> AddCoinsUpdate(t, candidates[j], amount, now).result == Err(ValidationException)
  }

  /** At most one candidate is the first one the update does not reject. */
  lemma FirstCreditableUnique(t: Table, candidates: seq<Key>, amount: int, now: string, n: nat)
    requires FirstCreditable(t, candidates, amount, now, n)
    ensures forall m: nat :: FirstCreditable(t, candidates, amount, now, m) ==> m == n
  {
  }

  /** What every answer of a credit promises: a failure leaves every item as it was, a failed
      condition is never passed on raw, and a table that fails answers its error. */
  ghost predicate CreditAnswered(before: Table, after: seq<Item>, r: Result<int, ShopFailure>)
  {
    && (r.Err? ==> after == before.items)
    && (r.Err? && r.error.Thrown? ==> r.error.error != ConditionalCheckFailed)
    && (before.failing ==> r == Err(Thrown(ServiceError)))
  }

  /** What a credit of `amount` for `userId` promises about the table it ran on. A success
      credited the item of one of the user's keys. Anything but a `ValidationException` on the
      default key is answered from the default key alone, and a default item that can be
      credited is the one credited. "User not found" means that no item has the default key,
      or that the scan finds no record or a record without candidate keys; after a
      `ValidationException` on the default key, the latter always answers "user not found". After the scan,
      the first candidate not rejected as invalid is the one credited; when every candidate is
      rejected as invalid, that `ValidationException` is thrown. */
  ghost predicate UserCredited(before: Table, after: seq<Item>, userId: string, amount: int, now: string,
    r: Result<int, ShopFailure>)
  {
    var first := AddCoinsUpdate(before, DefaultKey(userId), amount, now);
    var found := FindShopRecord(before, userId);
    && CreditAnswered(before, after, r)
    && (r.Ok? ==> exists k :: (ShopUserKey(before, userId, k) && Credited(before.items, after, k, amount, now, r.value)))
    && (first.result != Err(ValidationException) ==> r == SettleCredit(first.result) && after == first.items)
    && (DefaultKeyCreditable(before, userId) ==>
      r.Ok? && Credited(before.items, after, DefaultKey(userId), amount, now, r.value))
    && (r == Err(Coded(UserNotFound)) ==>
      (first.result == Err(ConditionalCheckFailed) && Locate(before.items, DefaultKey(userId)).None?)
      || (first.result == Err(ValidationException)
        && (found == Ok(None) || (found.Ok? && found.value.Some? && KeyCandidates(found.value.value) == []))))
    && (first.result == Err(ValidationException)
      && (found == Ok(None) || (found.Ok? && found.value.Some? && KeyCandidates(found.value.value) == []))
      ==> r == Err(Coded(UserNotFound)))
    && (EveryShopCandidateRejected(before, userId, amount, now) ==> r == Err(Thrown(ValidationException)))
    && (first.result == Err(ValidationException) ==>
      forall n: nat :: FirstCreditable(before, FoundShopCandidates(before, userId), amount, now, n) ==>
        r.Ok? && Credited(before.items, after, FoundShopCandidates(before, userId)[n], amount, now, r.value))
  }

  /** Everything one run of `addCoinsToUser` promises: without a configured table it fails and
      writes nothing; otherwise it is answered as `UserCredited` states. */
  ghost predicate CreditRan(t: Table, after: seq<Item>, configured: bool, userId: string, amount: int, now: string,
    r: Result<int, ShopFailure>)
  {
    && (!configured ==> r == Err(Coded(DbConfigMissing)) && after == t.items)
    && (configured ==> UserCredited(t, after, userId, amount, now, r))
  }

  /** A credit the default key settles is answered as `UserCredited` states. */
  lemma DefaultKeyCreditAnswer(t: Table, after: seq<Item>, userId: string, amount: int, now: string,
    r: Result<int, ShopFailure>)
    requires AddCoinsUpdate(t, DefaultKey(userId), amount, now).result != Err(ValidationException)
    requires r == SettleCredit(AddCoinsUpdate(t, DefaultKey(userId), amount, now).result)
    requires after == AddCoinsUpdate(t, DefaultKey(userId), amount, now).items
    ensures UserCredited(t, after, userId, amount, now, r)
  {
    if r.Ok? {
      CreditWritten(t, DefaultKey(userId), amount, now);
      assert ShopUserKey(t, userId, DefaultKey(userId));
    }
  }

  /** A credit of the `n`th candidate key of the found record, every earlier candidate having
      been rejected as invalid, is answered as `UserCredited` states. */
  lemma CandidateCreditAnswer(t: Table, after: seq<Item>, userId: string, record: Item, n: nat, amount: int,
    now: string, total: int)
    requires AddCoinsUpdate(t, DefaultKey(userId), amount, now).result == Err(ValidationException)
    requires FindShopRecord(t, userId) == Ok(Some(record)) && n < |KeyCandidates(record)|
    requires AddCoinsUpdate(t, KeyCandidates(record)[n], amount, now).result.Ok?
    requires forall j :: 0 <= j < n ==>
      AddCoinsUpdate(t, KeyCandidates(record)[j], amount, now).result == Err(ValidationException)
    requires Credited(t.items, after, KeyCandidates(record)[n], amount, now, total)
    ensures UserCredited(t, after, userId, amount, now, Ok(total))
  {
    var candidates := FoundShopCandidates(t, userId);
    assert candidates == KeyCandidates(record);
    assert ShopUserKey(t, userId, candidates[n]);
    FirstCreditableUnique(t, candidates, amount, now, n);
  }

  /** A credit whose scan yields no usable record answers "user not found". */
  lemma NoShopCandidateAnswer(t: Table, userId: string, amount: int, now: string)
    requires AddCoinsUpdate(t, DefaultKey(userId), amount, now).result == Err(ValidationException)
    requires var found := FindShopRecord(t, userId);
      found == Ok(None) || (found.Ok? && found.value.Some? && KeyCandidates(found.value.value) == [])
    ensures UserCredited(t, t.items, userId, amount, now, Err(Coded(UserNotFound)))
  {
  }

  /** A credit whose every candidate was rejected as invalid throws that error. */
  lemma ShopRejectedAnswer(t: Table, userId: string, record: Item, amount: int, now: string)
    requires AddCoinsUpdate(t, DefaultKey(userId), amount, now).result == Err(ValidationException)
    requires FindShopRecord(t, userId) == Ok(Some(record)) && |KeyCandidates(record)| > 0
    requires forall j :: 0 <= j < |KeyCandidates(record)| ==>
      AddCoinsUpdate(t, KeyCandidates(record)[j], amount, now).result == Err(ValidationException)
    ensures UserCredited(t, t.items, userId, amount, now, Err(Thrown(ValidationException)))
  {
  }

  /** The update on one candidate key of the found record (shop.ts:200-212); `None` moves on
      to the next candidate after a `ValidationException`. The key belongs to an item of the
      table, so its condition cannot fail, and the table does not fail: an answer is a
      credit of the item the key addresses. */
  method TryCandidate(table: UsersTable, record: Item, key: Key, amount: int, now: string)
    returns (settled: Option<Result<int, ShopFailure>>)
    requires record in table.items && HasKey(record, key) && !table.failing
    modifies table
    ensures table.schema == old(table.schema) && table.failing == old(table.failing)
    ensures settled.None? <==> AddCoinsUpdate(old(table.State()), key, amount, now).result == Err(ValidationException)
    ensures settled.None? ==> table.items == old(table.items)
    ensures settled.Some? ==>
      settled.value.Ok? && Credited(old(table.items), table.items, key, amount, now, settled.value.value)
  {
    ghost var t0 := table.State();
    assert Locate(t0.items, key).Some?;
    var result := table.UpdateAddCoins(key, amount, now);
    if result.Ok? || result.error != ValidationException {
      CreditWritten(t0, key, amount, now);
      return Some(SettleCredit(result));
    }
    settled := None;
  }

  /** The update on the user's default key (shop.ts:168-187); `None` moves on to the scan
      after a `ValidationException`, and every other answer is the default key's own. */
  method TryDefaultKey(table: UsersTable, userId: string, amount: int, now: string)
    returns (settled: Option<Result<int, ShopFailure>>)
    modifies table
    ensures table.schema == old(table.schema) && table.failing == old(table.failing)
    ensures var first := AddCoinsUpdate(old(table.State()), DefaultKey(userId), amount, now);
      settled.None? <==> first.result == Err(ValidationException)
    ensures settled.None? ==> table.items == old(table.items)
    ensures var first := AddCoinsUpdate(old(table.State()), DefaultKey(userId), amount, now);
      settled.Some? ==> settled.value == SettleCredit(first.result) && table.items == first.items
    ensures settled == Some(Err(Coded(UserNotFound))) ==> Locate(old(table.items), DefaultKey(userId)).None?
    ensures DefaultKeyCreditable(old(table.State()), userId) ==> settled.Some? && settled.value.Ok?
  {
    var first := table.UpdateAddCoins(DefaultKey(userId), amount, now);
    if first.Ok? || first.error != ValidationException {
      return Some(SettleCredit(first));
    }
    settled := None;
  }

  /** `addCoinsToUser`. The default key is tried first: a failed condition there means no such
      user, a `ValidationException` moves on to the scan. Then each candidate key of the found
      record is tried in order, and when every candidate has been rejected with a
      `ValidationException`, that error is thrown. */
  method AddCoinsToUser(table: UsersTable, configured: bool, userId: string, amount: int, now: string)
    returns (r: Result<int, ShopFailure>)
    modifies table
    ensures table.schema == old(table.schema) && table.failing == old(table.failing)
    ensures CreditRan(old(table.State()), table.items, configured, userId, amount, now, r)
  {
    if !configured {
      return Err(Coded(DbConfigMissing));
    }
    ghost var t0 := table.State();
    var first := TryDefaultKey(table, userId, amount, now);
    if first.Some? {
      DefaultKeyCreditAnswer(t0, table.items, userId, amount, now, first.value);
      return first.value;
    }

    var found := FindShopRecord(table.State(), userId);
    if found.Err? || found.value.None? {
      NoShopCandidateAnswer(t0, userId, amount, now);
      return Err(NoShopRecord(found));
    }
    var record := found.value.value;
    var keyCandidates := BuildKeyCandidates(record);
    if |keyCandidates| == 0 {
      NoShopCandidateAnswer(t0, userId, amount, now);
      return Err(Coded(UserNotFound));
    }
    KeyCandidatesCorrect(record);

    var lastError: Option<DbError> := None;
    var i := 0;
    while i < |keyCandidates|
      invariant 0 <= i <= |keyCandidates|
      invariant table.State() == t0
      invariant i > 0 ==> lastError == Some(ValidationException)
      invariant forall j :: 0 <= j < i ==> AddCoinsUpdate(t0, keyCandidates[j], amount, now).result == Err(ValidationException)
    {
      var settled := TryCandidate(table, record, keyCandidates[i], amount, now);
      if settled.Some? {
        CandidateCreditAnswer(t0, table.items, userId, record, i, amount, now, settled.value.value);
        return settled.value;
      }
      lastError := Some(ValidationException);
      i := i + 1;
    }
    ShopRejectedAnswer(t0, userId, record, amount, now);
    r := Err(match lastError case Some(e) => Thrown(e) case None => Coded(UserNotFound));
  }
}
