/** Reading the signed-in user's profile item and reducing it to what the top navigation
    shows: a name, a coin balance and the owned card ids. */
module Profile {
  import opened Common
  import opened Store
  import opened Records
  import opened Bootstrap

  /** A get on the user's default key finds an item. */
  predicate DefaultKeyHit(t: Table, userId: string)
  {
    KeyFits(t.schema, DefaultKey(userId)) && Locate(t.items, DefaultKey(userId)).Some?
  }

  /** `getUserProfileById`: no profile without an id or without configuration; otherwise a
      consistent get on the default key, and the scan when the get finds nothing or is rejected
      with a `ValidationException`. */
  function GetUserProfileById(t: Table, configured: bool, userId: Option<string>): (r: Result<Option<Item>, DbError>)
    ensures userId.None? || userId.value == "" || !configured ==> r == Ok(None)
    ensures userId.Some? && userId.value != "" && configured && t.failing ==> r == Err(ServiceError)
    ensures userId.Some? && userId.value != "" && configured && !t.failing && DefaultKeyHit(t, userId.value) ==>
      r == Ok(Some(t.items[Locate(t.items, DefaultKey(userId.value)).value]))
    ensures userId.Some? && userId.value != "" && configured && !t.failing && !DefaultKeyHit(t, userId.value) ==>
      r == FindProfileRecord(t, userId.value)
  {
    if userId.None? || userId.value == "" || !configured then Ok(None)
    else
      match GetItem(t, DefaultKey(userId.value))
      case Ok(Some(item)) => Ok(Some(item))
      case Ok(None) => FindProfileRecord(t, userId.value)
      case Err(ValidationException) => FindProfileRecord(t, userId.value)
      case Err(e) => Err(e)
  }

  /** The first present value among the item's `username` and `displayName`, the user's
      `nickname` and `name`, the part of the e-mail before its first "@", and "New Recruit".
      `??` passes over a missing value only, so an empty string is kept. */
  function RawUsername(user: AuthUser, profile: Option<Item>): string
  {
    if profile.Some? && UsernameAttr in profile.value.strs then profile.value.strs[UsernameAttr]
    else if profile.Some? && DisplayNameAttr in profile.value.strs then profile.value.strs[DisplayNameAttr]
    else if user.nickname.Some? then user.nickname.value
    else if user.name.Some? then user.name.value
    else if user.email.Some? then Split(user.email.value, '@')[0]
    else DefaultName
  }

  /** A name containing "@" is cut before its first "@", and "New Recruit" replaces an empty
      cut. */
  function NavUsername(raw: string): (r: string)
    ensures '@' !in r
    ensures '@' !in raw ==> r == raw
    ensures '@' in raw && raw[0] != '@' ==> |r| < |raw| && r == raw[..|r|] && raw[|r|] == '@'
    ensures '@' in raw && raw[0] == '@' ==> r == DefaultName
  {
    SplitFirst(raw, '@');
    if '@' in raw then
      var local := Split(raw, '@')[0];
      if local == "" then DefaultName else local
    else raw
  }

  /** `Number(profile?.coins ?? 0)`, with a value that is not a finite number shown as 0. */
  function NavCoins(profile: Option<Item>): (coins: int)
    ensures profile.Some? && profile.value.coins.Some? && profile.value.coins.value.Num? ==>
      coins == profile.value.coins.value.n
    ensures profile.None? || profile.value.coins.None? || profile.value.coins == Some(NotNumber) ==> coins == 0
  {
    match profile
    case Some(Item(_, Some(Num(n)), _)) => n
    case _ => 0
  }

  /** The owned ids in stored order, a set's members or a list's elements, without the empty
      string. */
  function NonEmptyIds(ids: seq<string>): (r: seq<string>)
    ensures forall id :: id in r ==> id != "" && id in ids
    ensures forall id :: id in ids && id != "" ==> id in r
    ensures |r| <= |ids|
  {
    if ids == [] then []
    else (if ids[0] == "" then [] else [ids[0]]) + NonEmptyIds(ids[1..])
  }

  function NavOwnedCardIds(profile: Option<Item>): (r: seq<string>)
    ensures forall id :: id in r ==> id != ""
    ensures profile.Some? ==> forall id :: id in r <==> id in OwnedIds(profile.value.owned) && id != ""
    ensures profile.None? ==> r == []
  {
    match profile
    case Some(Item(_, _, Some(StringSet(members)))) => NonEmptyIds(members)
    case Some(Item(_, _, Some(StringList(elements)))) => NonEmptyIds(elements)
    case _ => []
  }

  datatype NavProfile = NavProfile(username: string, coins: int, ownedCardIds: seq<string>)

  /** The top navigation's reduction of the user and the profile item. */
  function TopNavProfile(user: AuthUser, profile: Option<Item>): (r: NavProfile)
    ensures '@' !in r.username
    ensures forall id :: id in r.ownedCardIds ==> id != ""
  {
    NavProfile(NavUsername(RawUsername(user, profile)), NavCoins(profile), NavOwnedCardIds(profile))
  }

  /** `getTopNavProfile` over a table, for a signed-in user. */
  function GetTopNavProfile(t: Table, configured: bool, user: AuthUser): (r: Result<NavProfile, DbError>)
    ensures r.Err? ==> HasSub(user) && configured && GetUserProfileById(t, configured, user.sub).Err?
    ensures r.Ok? ==> GetUserProfileById(t, configured, user.sub).Ok?
    ensures r.Ok? ==> r.value == TopNavProfile(user, GetUserProfileById(t, configured, user.sub).value)
  {
    match GetUserProfileById(t, configured, user.sub)
    case Err(e) => Err(e)
    case Ok(profile) => Ok(TopNavProfile(user, profile))
  }

  /** A freshly created profile item shows the name it was created with, 1000 coins and no
      owned cards: the placeholder `""` of the starting set is dropped. */
  lemma FreshProfileShowsNoCards(sub: string, user: AuthUser, now: string)
    ensures TopNavProfile(user, Some(NewProfileItem(sub, user, now)))
      == NavProfile(NavUsername(InitialUsername(user)), StartingCoins, [])
  {
    NewProfileItemFields(sub, user, now);
    assert NonEmptyIds([""]) == [];
  }

  /** Without a profile item, the name comes from the user: nickname, then name, then the
      e-mail's local part, then "New Recruit". */
  lemma NameWithoutProfile(user: AuthUser)
    ensures user.nickname.Some? ==> TopNavProfile(user, None).username == NavUsername(user.nickname.value)
    ensures user.nickname.None? && user.name.Some? ==> TopNavProfile(user, None).username == NavUsername(user.name.value)
    ensures user.nickname.None? && user.name.None? && user.email.Some? ==>
      TopNavProfile(user, None).username == NavUsername(Split(user.email.value, '@')[0])
    ensures user == AuthUser(user.sub, None, None, None, user.picture) ==> TopNavProfile(user, None).username == DefaultName
    ensures TopNavProfile(user, None).coins == 0 && TopNavProfile(user, None).ownedCardIds == []
  {
    assert TopNavProfile(user, None) == NavProfile(NavUsername(RawUsername(user, None)), 0, []);
  }
}
