/** Creating a signed-in user's profile item on first sight: a put of the starting record under
    `{PK: "USER#<sub>", SK: "PROFILE"}` that takes effect only when no item holds that key. */
module Bootstrap {
  import opened Common
  import opened Store
  import opened Records

  const StartingCoins: int := 1000
  const DefaultName: string := "New Recruit"
  const UsernameAttr: string := "username"
  const DisplayNameAttr: string := "displayName"
  const EmailAttr: string := "email"
  const PictureAttr: string := "picture"
  const CreatedAtAttr: string := "createdAt"

  /** The identity provider's user; an absent field is `None`. */
  datatype AuthUser = AuthUser(sub: Option<string>, email: Option<string>, name: Option<string>,
    nickname: Option<string>, picture: Option<string>)

  /** `user?.sub` is a non-empty string. */
  predicate HasSub(user: AuthUser)
  {
    user.sub.Some? && user.sub.value != ""
  }

  /** `nickname ?? name ?? "New Recruit"`. */
  function InitialUsername(user: AuthUser): (r: string)
    ensures user.nickname.Some? ==> r == user.nickname.value
    ensures user.nickname.None? && user.name.Some? ==> r == user.name.value
    ensures user.nickname.None? && user.name.None? ==> r == DefaultName
  {
    user.nickname.GetOr(user.name.GetOr(DefaultName))
  }

  /** `name ?? nickname ?? "New Recruit"`. */
  function InitialDisplayName(user: AuthUser): (r: string)
    ensures user.name.Some? ==> r == user.name.value
    ensures user.name.None? && user.nickname.Some? ==> r == user.nickname.value
    ensures user.name.None? && user.nickname.None? ==> r == DefaultName
  {
    user.name.GetOr(user.nickname.GetOr(DefaultName))
  }

  /** The string attributes of `attrs` whose value is present. */
  function PresentAttrs(attrs: seq<(string, Option<string>)>): map<string, string>
  {
    if attrs == [] then map[]
    else
      var rest := PresentAttrs(attrs[1..]);
      match attrs[0].1
      case Some(v) => rest[attrs[0].0 := v]
      case None => rest
  }

  /** The starting profile item of a user with id `sub`. */
  function NewProfileItem(sub: string, user: AuthUser, now: string): Item
  {
    Item(
      PresentAttrs([(EmailAttr, user.email), (PictureAttr, user.picture)])[
        PkAttr := UserPkPrefix + sub][SkAttr := ProfileSk][UserIdAttr := sub]
        [UsernameAttr := InitialUsername(user)][DisplayNameAttr := InitialDisplayName(user)][CreatedAtAttr := now],
      Some(Num(StartingCoins)),
      Some(StringSet([""])))
  }

  /** The starting record sits under the user's default key, with 1000 coins, the set `{""}` of
      owned ids, the user id, both names and the creation time. */
  lemma NewProfileItemFields(sub: string, user: AuthUser, now: string)
    ensures var item := NewProfileItem(sub, user, now);
      && HasKey(item, DefaultKey(sub))
      && item.coins == Some(Num(StartingCoins)) && item.owned == Some(StringSet([""]))
      && AttrIs(item, UserIdAttr, sub) && AttrIs(item, CreatedAtAttr, now)
      && AttrIs(item, UsernameAttr, InitialUsername(user)) && AttrIs(item, DisplayNameAttr, InitialDisplayName(user))
  {
    var item := NewProfileItem(sub, user, now);
    assert KeyNames(DefaultKey(sub)) == [PkAttr, SkAttr];
    assert forall k :: k in DefaultKey(sub) ==> k.0 in item.strs && item.strs[k.0] == k.1;
  }

  /** `bootstrapUserRecord` over a table: nothing without a user id or without configuration;
      otherwise the conditional put, where a failed condition (the item exists) is not an
      error. */
  function BootstrapOutcome(t: Table, configured: bool, user: AuthUser, now: string): (r: Outcome<()>)
    ensures r.result.Err? ==> r.items == t.items && r.result.error != ConditionalCheckFailed
    ensures !HasSub(user) || !configured ==> r == Outcome(t.items, Ok(()))
    ensures HasSub(user) && configured && t.failing ==> r.result == Err(ServiceError)
  {
    if !HasSub(user) || !configured then Outcome(t.items, Ok(()))
    else
      var put := PutIfAbsent(t, NewProfileItem(user.sub.value, user, now));
      if put.result == Err(ConditionalCheckFailed) then Outcome(t.items, Ok(())) else put
  }

  /** On a table keyed by `PK` and `SK` where no item holds the user's default key, the
      starting record is added at the end and nothing else changes. */
  lemma BootstrapInsertsWhenAbsent(t: Table, user: AuthUser, now: string)
    requires HasSub(user) && !t.failing && t.schema == [PkAttr, SkAttr]
    requires Locate(t.items, DefaultKey(user.sub.value)).None?
    ensures BootstrapOutcome(t, true, user, now) == Outcome(t.items + [NewProfileItem(user.sub.value, user, now)], Ok(()))
  {
    var item := NewProfileItem(user.sub.value, user, now);
    NewProfileItemFields(user.sub.value, user, now);
    assert KeyOf(t.schema, item) == DefaultKey(user.sub.value);
  }

  /** On a table keyed by `PK` and `SK`, an existing profile item is left as it is and no
      error is raised. */
  lemma BootstrapKeepsExisting(t: Table, user: AuthUser, now: string)
    requires HasSub(user) && !t.failing && t.schema == [PkAttr, SkAttr]
    requires Locate(t.items, DefaultKey(user.sub.value)).Some?
    ensures BootstrapOutcome(t, true, user, now) == Outcome(t.items, Ok(()))
  {
    var item := NewProfileItem(user.sub.value, user, now);
    NewProfileItemFields(user.sub.value, user, now);
    assert KeyOf(t.schema, item) == DefaultKey(user.sub.value);
  }

  /** Bootstrapping twice leaves the table as bootstrapping once does. */
  lemma BootstrapIdempotent(t: Table, configured: bool, user: AuthUser, now: string)
    ensures var once := BootstrapOutcome(t, configured, user, now);
      BootstrapOutcome(Table(t.schema, once.items, t.failing), configured, user, now).items == once.items
  {
    if HasSub(user) && configured && !t.failing {
      var item := NewProfileItem(user.sub.value, user, now);
      NewProfileItemFields(user.sub.value, user, now);
      if forall a :: a in t.schema ==> a in item.strs {
        var key := KeyOf(t.schema, item);
        var once := BootstrapOutcome(t, configured, user, now);
        match Locate(t.items, key)
        case None =>
          assert once.items == t.items + [item];
          assert Locate(once.items, key) == Some(|t.items|) by {
            LocateAfterAppend(t.items, key, item);
          }
        case Some(i) =>
          if !(PkAttr in t.items[i].strs || SkAttr in t.items[i].strs) {
            assert once.items == t.items[i := item];
            assert Locate(once.items, key) == Some(i) by {
              LocateAfterReplace(t.items, key, i, item);
            }
          }
      }
    }
  }

  lemma {:induction false} LocateAfterAppend(items: seq<Item>, key: Key, item: Item)
    requires Locate(items, key).None? && HasKey(item, key)
    ensures Locate(items + [item], key) == Some(|items|)
  {
    var all := items + [item];
    assert all[|items|] == item;
  }

  lemma {:induction false} LocateAfterReplace(items: seq<Item>, key: Key, i: nat, item: Item)
    requires Locate(items, key) == Some(i) && HasKey(item, key)
    ensures Locate(items[i := item], key) == Some(i)
  {
    var replaced := items[i := item];
    assert replaced[i] == item;
  }

  /** The table's `bootstrapUserRecord`: the put, with a failed condition swallowed and any
      other error passed on. */
  method BootstrapUserRecord(table: UsersTable, configured: bool, user: AuthUser, now: string)
    returns (r: Result<(), DbError>)
    modifies table
    ensures table.schema == old(table.schema) && table.failing == old(table.failing)
    ensures Outcome(table.items, r) == BootstrapOutcome(old(table.State()), configured, user, now)
  {
    if !HasSub(user) || !configured {
      return Ok(());
    }
    var put := table.Put(NewProfileItem(user.sub.value, user, now));
    if put == Err(ConditionalCheckFailed) {
      return Ok(());
    }
    r := put;
  }
}
