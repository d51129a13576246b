/** How the summon, shop and profile code find a user's item when the default key
    `{PK: "USER#<id>", SK: "PROFILE"}` does not reach it: the scan filters, the choice among
    the scanned items, the keys read off the chosen item, and the `attribute_exists` condition
    written for such a key. */
module Records {
  import opened Common
  import opened Store

  const ProfileSk: string := "PROFILE"
  const UserPkPrefix: string := "USER#"

  /** The default key of a user's profile item. */
  function DefaultKey(userId: string): (key: Key)
    ensures KeyNames(key) == [PkAttr, SkAttr]
  {
    [(PkAttr, UserPkPrefix + userId), (SkAttr, ProfileSk)]
  }

  predicate AttrIs(item: Item, attr: string, value: string)
  {
    attr in item.strs && item.strs[attr] == value
  }

  /** The profile scan's filter: `(userId = :u OR sub = :u OR id = :u OR PK = "USER#<u>") AND
      (attribute_not_exists(SK) OR SK = "PROFILE" OR begins_with(SK, "PROFILE"))`. */
  predicate ProfileScanMatch(userId: string, item: Item)
  {
    (AttrIs(item, UserIdAttr, userId) || AttrIs(item, SubAttr, userId) || AttrIs(item, IdAttr, userId)
      || AttrIs(item, PkAttr, UserPkPrefix + userId))
    && (SkAttr !in item.strs || item.strs[SkAttr] == ProfileSk || StartsWith(item.strs[SkAttr], ProfileSk))
  }

  /** The shop scan's filter: `userId = :u OR sub = :u OR id = :u`. */
  predicate ShopScanMatch(userId: string, item: Item)
  {
    AttrIs(item, UserIdAttr, userId) || AttrIs(item, SubAttr, userId) || AttrIs(item, IdAttr, userId)
  }

  predicate IsExactProfile(item: Item)
  {
    AttrIs(item, SkAttr, ProfileSk)
  }

  /** `typeof item.SK === "string" && item.SK.toUpperCase().startsWith("PROFILE")`. */
  predicate IsProfileLike(item: Item)
  {
    SkAttr in item.strs && StartsWith(ToUpper(item.strs[SkAttr]), ProfileSk)
  }

  /** The first position whose item satisfies `p`. */
  function FirstWhere(items: seq<Item>, p: Item -> bool): (r: Option<nat>)
    ensures r.Some? ==> r.value < |items| && p(items[r.value])
    ensures r.Some? ==> forall j :: 0 <= j < r.value ==> !p(items[j])
    ensures r.None? ==> forall j :: 0 <= j < |items| ==> !p(items[j])
  {
    if |items| == 0 then None
    else if p(items[0]) then Some(0)
    else match FirstWhere(items[1..], p)
      case None => None
      case Some(j) => Some(j + 1)
  }

  /** The record chosen among the scanned items. */
  function ChooseRecord(items: seq<Item>): Option<Item>
  {
    match FirstWhere(items, IsExactProfile)
    case Some(i) => Some(items[i])
    case None =>
      match FirstWhere(items, IsProfileLike)
      case Some(i) => Some(items[i])
      case None => if |items| == 0 then None else Some(items[0])
  }

  /** The choice: the first item whose SK is "PROFILE"; failing that the first whose
      upper-cased SK starts with "PROFILE"; failing that the first item; nothing only when the
      scan found nothing. */
  lemma ChooseRecordCorrect(items: seq<Item>)
    ensures ChooseRecord(items).None? <==> |items| == 0
    ensures ChooseRecord(items).Some? ==> ChooseRecord(items).value in items
    ensures (exists i :: 0 <= i < |items| && IsExactProfile(items[i])) ==>
      exists i :: 0 <= i < |items| && ChooseRecord(items) == Some(items[i]) && IsExactProfile(items[i])
        && forall j :: 0 <= j < i ==> !IsExactProfile(items[j])
    ensures ((forall i :: 0 <= i < |items| ==> !IsExactProfile(items[i])) &&
      (exists i :: 0 <= i < |items| && IsProfileLike(items[i]))) ==>
      exists i :: 0 <= i < |items| && ChooseRecord(items) == Some(items[i]) && IsProfileLike(items[i])
        && forall j :: 0 <= j < i ==> !IsProfileLike(items[j])
    ensures ((forall i :: 0 <= i < |items| ==> !IsExactProfile(items[i]) && !IsProfileLike(items[i]))
      && |items| > 0) ==> ChooseRecord(items) == Some(items[0])
  {
    var e := FirstWhere(items, IsExactProfile);
    var l := FirstWhere(items, IsProfileLike);
    if e.None? && l.Some? {
      assert ChooseRecord(items) == Some(items[l.value]);
    }
  }

  /** The profile lookup by scan (`findUserRecord` of the summon, `lookupByScan` of the profile
      read): the record chosen among every item the profile filter accepts. */
  function FindProfileRecord(t: Table, userId: string): (r: Result<Option<Item>, DbError>)
    ensures r.Err? <==> t.failing
    ensures r.Ok? && r.value.Some? ==> r.value.value in t.items && ProfileScanMatch(userId, r.value.value)
    ensures r.Ok? && r.value.None? ==> forall x :: x in t.items ==> !ProfileScanMatch(userId, x)
  {
    match ScanAll(t, (x: Item) => ProfileScanMatch(userId, x))
    case Err(e) => Err(e)
    case Ok(found) => ChooseRecordCorrect(found); Ok(ChooseRecord(found))
  }

  /** The profile lookup by scan as written: `Limit: 25` reads the first 25 items of the table and only
      then applies the filter. */
  function FindProfileRecordAsWritten(t: Table, userId: string): Result<Option<Item>, DbError>
  {
    match ScanWithLimit(t, 25, (x: Item) => ProfileScanMatch(userId, x))
    case Err(e) => Err(e)
    case Ok(found) => Ok(ChooseRecord(found))
  }

  /** A user whose profile item follows 25 items of other users is not found as written,
      and is found by the full scan. */
  lemma ScanLimitMissesProfile(t: Table, userId: string)
    requires !t.failing && |t.items| > 25
    requires forall j :: 0 <= j < 25 ==> !ProfileScanMatch(userId, t.items[j])
    requires ProfileScanMatch(userId, t.items[25])
    ensures FindProfileRecordAsWritten(t, userId) == Ok(None)
    ensures FindProfileRecord(t, userId).Ok? && FindProfileRecord(t, userId).value.Some?
  {
    LimitMissesLaterMatch(t, 25, (x: Item) => ProfileScanMatch(userId, x));
  }

  /** `buildKeyCandidates` as a list: `{PK, SK}` when both are set, then `{id}`, `{userId}`
      and `{sub}` for each one set, in that order. */
  function KeyCandidates(record: Item): seq<Key>
  {
    (if Truthy(record, PkAttr) && Truthy(record, SkAttr)
      then [[(PkAttr, record.strs[PkAttr]), (SkAttr, record.strs[SkAttr])]] else [])
    + (if Truthy(record, IdAttr) then [[(IdAttr, record.strs[IdAttr])]] else [])
    + (if Truthy(record, UserIdAttr) then [[(UserIdAttr, record.strs[UserIdAttr])]] else [])
    + (if Truthy(record, SubAttr) then [[(SubAttr, record.strs[SubAttr])]] else [])
  }

  /** The place of a candidate's shape in the fixed order `{PK, SK}`, `{id}`, `{userId}`, `{sub}`. */
  function ShapeRank(key: Key): nat
  {
    if |key| == 0 then 4
    else if key[0].0 == PkAttr then 0
    else if key[0].0 == IdAttr then 1
    else if key[0].0 == UserIdAttr then 2
    else if key[0].0 == SubAttr then 3
    else 4
  }

  /** Every candidate is a key the record itself holds, no two are equal, they come in the
      fixed order of shapes, and there is none exactly when the record has no usable key
      attribute. */
  lemma KeyCandidatesCorrect(record: Item)
    ensures forall c :: c in KeyCandidates(record) ==> HasKey(record, c)
    ensures forall i, j :: 0 <= i < j < |KeyCandidates(record)| ==>
      ShapeRank(KeyCandidates(record)[i]) < ShapeRank(KeyCandidates(record)[j])
    ensures forall i, j :: 0 <= i < j < |KeyCandidates(record)| ==> KeyCandidates(record)[i] != KeyCandidates(record)[j]
    ensures |KeyCandidates(record)| == 0 <==>
      !(Truthy(record, PkAttr) && Truthy(record, SkAttr)) && !Truthy(record, IdAttr)
      && !Truthy(record, UserIdAttr) && !Truthy(record, SubAttr)
  {
    var c := KeyCandidates(record);
    forall i, j | 0 <= i < j < |c| ensures ShapeRank(c[i]) < ShapeRank(c[j]) {
    }
  }

  /** One call of `pushCandidate`: a candidate already seen is skipped. `seen` holds the
      candidates themselves; `JSON.stringify` of these flat string records tells them apart
      exactly as equality does. */
  method PushCandidate(candidates: seq<Key>, seen: set<Key>, candidate: Key)
    returns (candidates': seq<Key>, seen': set<Key>)
    ensures candidate in seen ==> candidates' == candidates && seen' == seen
    ensures candidate !in seen ==> candidates' == candidates + [candidate] && seen' == seen + {candidate}
  {
    if candidate in seen {
      return candidates, seen;
    }
    seen' := seen + {candidate};
    candidates' := candidates + [candidate];
  }

  /** `buildKeyCandidates`, pushing through the `seen` set. */
  method BuildKeyCandidates(record: Item) returns (candidates: seq<Key>)
    ensures candidates == KeyCandidates(record)
  {
    candidates := [];
    var seen: set<Key> := {};
    if Truthy(record, PkAttr) && Truthy(record, SkAttr) {
      candidates, seen := PushCandidate(candidates, seen, [(PkAttr, record.strs[PkAttr]), (SkAttr, record.strs[SkAttr])]);
    }
    if Truthy(record, IdAttr) {
      candidates, seen := PushCandidate(candidates, seen, [(IdAttr, record.strs[IdAttr])]);
    }
    if Truthy(record, UserIdAttr) {
      candidates, seen := PushCandidate(candidates, seen, [(UserIdAttr, record.strs[UserIdAttr])]);
    }
    if Truthy(record, SubAttr) {
      candidates, seen := PushCandidate(candidates, seen, [(SubAttr, record.strs[SubAttr])]);
    }
  }

  /** The placeholder for the key's `index`-th attribute name. */
  function Token(index: nat): string
  {
    "#k" + NatToString(index)
  }

  /** Distinct positions get distinct placeholders. */
  lemma TokenInjective(i: nat, j: nat)
    requires Token(i) == Token(j)
    ensures i == j
  {
    assert NatToString(i) == Token(i)[2..];
    assert NatToString(j) == Token(j)[2..];
    NatToStringRoundTrip(i);
    NatToStringRoundTrip(j);
  }

  /** The condition that the attribute named by `token` exists. */
  function Exists(token: string): string
  {
    "attribute_exists(" + token + ")"
  }

  /** The placeholders of the first `n` key attributes, and no others, name those attributes. */
  predicate NamesCover(names: map<string, string>, key: Key, n: nat)
    requires n <= |key|
  {
    && (forall i :: 0 <= i < n ==> Token(i) in names && names[Token(i)] == key[i].0)
    && (forall k :: k in names ==> exists i :: 0 <= i < n && k == Token(i))
    && |names| == n
  }

  /** Naming one more attribute under a fresh placeholder keeps the cover. */
  lemma NamesCoverStep(names: map<string, string>, key: Key, n: nat)
    requires n < |key| && NamesCover(names, key, n)
    ensures NamesCover(names[Token(n) := key[n].0], key, n + 1)
  {
    assert Token(n) !in names by {
      if Token(n) in names {
        var i :| 0 <= i < n && Token(n) == Token(i);
        TokenInjective(i, n);
      }
    }
    var next := names[Token(n) := key[n].0];
    assert |next| == n + 1;
    forall k | k in next ensures exists i :: 0 <= i < n + 1 && k == Token(i) {
      if k != Token(n) {
        var i :| 0 <= i < n && k == Token(i);
      }
    }
  }

  /** `parts` holds the existence condition of each of the first `n` placeholders, in order. */
  predicate PartsCover(parts: seq<string>, n: nat)
  {
    |parts| == n && forall i :: 0 <= i < n ==> parts[i] == Exists(Token(i))
  }

  /** Appending the next condition keeps the parts in order. */
  lemma PartsCoverStep(parts: seq<string>, n: nat)
    requires PartsCover(parts, n)
    ensures PartsCover(parts + [Exists(Token(n))], n + 1)
  {
    var next := parts + [Exists(Token(n))];
    assert forall i :: 0 <= i < n ==> next[i] == parts[i];
  }

  /** `buildKeyConditionExpression`: one `attribute_exists(#k<i>)` per key attribute joined by
      " AND ", and a name map sending exactly the placeholders `#k<i>` to the attribute names. */
  method BuildKeyConditionExpression(key: Key) returns (conditionExpression: string, names: map<string, string>)
    ensures conditionExpression == JoinWith(seq(|key|, i requires 0 <= i < |key| => Exists(Token(i))), " AND ")
    ensures forall i :: 0 <= i < |key| ==> Token(i) in names && names[Token(i)] == key[i].0
    ensures forall k :: k in names ==> exists i :: 0 <= i < |key| && k == Token(i)
    ensures |names| == |key|
  {
    var parts: seq<string> := [];
    names := map[];
    var index := 0;
    while index < |key|
      invariant 0 <= index <= |key|
      invariant PartsCover(parts, index)
      invariant NamesCover(names, key, index)
    {
      var token := Token(index);
      NamesCoverStep(names, key, index);
      PartsCoverStep(parts, index);
      names := names[token := key[index].0];
      parts := parts + [Exists(token)];
      index := index + 1;
    }
    assert parts == seq(|key|, i requires 0 <= i < |key| => Exists(Token(i)));
    conditionExpression := JoinWith(parts, " AND ");
  }
}
