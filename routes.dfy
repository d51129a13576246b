/** The two POST endpoints: a summon on a banner, and a coin purchase. Each answers 401 without
    a signed-in user, creates the user's profile item when missing, reads the JSON body, checks
    its one field, runs the operation and turns its failure into an HTTP status. */
module Routes {
  import opened Common
  import opened Catalogue
  import opened Store
  import opened Bootstrap
  import opened ShopPacks
  import Summon
  import Shop

  const Unauthorized: string := "Unauthorized"
  const InvalidBody: string := "Invalid request body."
  const UnknownBanner: string := "Unknown banner selected."
  const SummonFailed: string := "Summon failed. Please try again."
  const InvalidPack: string := "Invalid coin pack selected."
  const ProfileNotFound: string := "User profile not found."
  const PurchaseFailed: string := "Purchase failed. Please try again."

  /** The request body: not JSON at all, the JSON `null`, or an object with the one field the
      route reads. */
  datatype RequestBody<T> = Unparsable | JsonNull | Parsed(field: T)

  /** What a reply carries: a message of the route, the message of a summon or shop error with
      its code, a summon result, a purchase result, or the server's own error page for an
      exception nobody catches. */
  datatype ReplyBody =
    | Message(text: string)
    | SummonErrorMessage(summonCode: Summon.SummonCode)
    | ShopErrorMessage(shopCode: Shop.ShopCode)
    | Summoned(result: Summon.SummonResult)
    | Purchased(addedCoins: int, coins: int)
    | ErrorPage

  datatype Reply = Reply(status: nat, body: ReplyBody)

  /** The summon route's catch: too few coins is 400, no configuration 500, no such user 404,
      and anything else 500 with a generic message. */
  function SummonFailureReply(f: Summon.SummonFailure): (r: Reply)
    ensures r.status == 400 <==> f == Summon.Coded(Summon.InsufficientCoins)
    ensures r.status == 404 <==> f == Summon.Coded(Summon.UserNotFound)
    ensures r.status == 500 <==> !(f == Summon.Coded(Summon.InsufficientCoins) || f == Summon.Coded(Summon.UserNotFound))
    ensures f.Coded? ==> r.body == SummonErrorMessage(f.code)
    ensures !f.Coded? ==> r.body == Message(SummonFailed)
  {
    match f
    case Coded(code) =>
      Reply(if code == Summon.InsufficientCoins then 400 else if code == Summon.DbConfigMissing then 500 else 404,
        SummonErrorMessage(code))
    case _ => Reply(500, Message(SummonFailed))
  }

  /** The purchase route's catch: no configuration 500, no such user 404, a raw failed
      condition 404, anything else 500 with a generic message. */
  function ShopFailureReply(f: Shop.ShopFailure): (r: Reply)
    ensures r.status == 404 <==> f == Shop.Coded(Shop.UserNotFound) || f == Shop.Thrown(ConditionalCheckFailed)
    ensures r.status == 500 <==> !(f == Shop.Coded(Shop.UserNotFound) || f == Shop.Thrown(ConditionalCheckFailed))
    ensures f.Coded? ==> r.body == ShopErrorMessage(f.code)
    ensures f == Shop.Thrown(ConditionalCheckFailed) ==> r.body == Message(ProfileNotFound)
    ensures f.Thrown? && f.error != ConditionalCheckFailed ==> r.body == Message(PurchaseFailed)
  {
    match f
    case Coded(code) => Reply(if code == Shop.DbConfigMissing then 500 else 404, ShopErrorMessage(code))
    case Thrown(e) => if e == ConditionalCheckFailed then Reply(404, Message(ProfileNotFound)) else Reply(500, Message(PurchaseFailed))
  }

  /** `!body.bannerId || !isBannerId(body.bannerId)` fails: the banner is missing, empty or
      unknown. */
  predicate BannerRejected(bannerId: Option<string>)
  {
    bannerId.None? || bannerId.value == "" || !Summon.IsBannerId(bannerId.value)
  }

  /** The same test with `isBannerId` as written. */
  predicate BannerRejectedAsWritten(bannerId: Option<string>)
  {
    bannerId.None? || bannerId.value == "" || !Summon.IsBannerIdAsWritten(bannerId.value)
  }

  /** As written, the body `{"bannerId": "toString"}` gets past the banner test and the summon
      then fails with a server error (500): no configuration, or the card `undefined` missing
      from the catalogue. With the banner test on the pool table's own keys, it is answered 400. */
  lemma InheritedBannerAnswers500(defs: seq<CardDef>, configured: bool, draw: Draw)
    requires ValidDraw(draw)
    ensures !BannerRejectedAsWritten(Some("toString")) && BannerRejected(Some("toString"))
    ensures var f := if configured then Summon.PickCardAsWritten(defs, "toString", draw).error
      else Summon.Coded(Summon.DbConfigMissing);
      SummonFailureReply(f).status == 500
  {
    Summon.InheritedNamePassesBannerCheck("toString");
  }

  /** The table after the profile item of `user` has been created when missing. */
  ghost function AfterBootstrap(t: Table, configured: bool, user: AuthUser, now: string): Table
  {
    Table(t.schema, BootstrapOutcome(t, configured, user, now).items, t.failing)
  }

  /** The summon route's `POST`. */
  method SummonPost(table: UsersTable, configured: bool, defs: seq<CardDef>, session: Option<AuthUser>,
    body: RequestBody<Option<string>>, draw: Draw, now: string) returns (reply: Reply)
    requires ValidDraw(draw)
    modifies table
    ensures table.schema == old(table.schema) && table.failing == old(table.failing)
    ensures session.None? || !HasSub(session.value) ==>
      reply == Reply(401, Message(Unauthorized)) && table.items == old(table.items)
    ensures (session.Some? && HasSub(session.value)
      && BootstrapOutcome(old(table.State()), configured, session.value, now).result.Err?) ==>
      reply == Reply(500, ErrorPage) && table.items == old(table.items)
    ensures (session.Some? && HasSub(session.value)
      && BootstrapOutcome(old(table.State()), configured, session.value, now).result.Ok?) ==>
      SummonAfterBootstrap(AfterBootstrap(old(table.State()), configured, session.value, now), table.items,
        configured, defs, session.value.sub.value, body, draw, now, reply)
  {
    if session.None? || !HasSub(session.value) {
      return Reply(401, Message(Unauthorized));
    }
    var user := session.value;
    var boot := BootstrapUserRecord(table, configured, user, now);
    if boot.Err? {
      return Reply(500, ErrorPage);
    }
    if body.Unparsable? {
      return Reply(400, Message(InvalidBody));
    }
    if body.JsonNull? {
      // Reading `bannerId` of `null` throws a TypeError that nothing catches.
      return Reply(500, ErrorPage);
    }
    var bannerId := body.field;
    if BannerRejected(bannerId) {
      return Reply(400, Message(UnknownBanner));
    }
    var result := Summon.RunSingleSummonForUser(table, configured, defs, user.sub.value, bannerId.value, draw, now);
    if result.Ok? {
      return Reply(200, Summoned(result.value));
    }
    reply := SummonFailureReply(result.error);
  }

  /** The summon route's answer to a summon: 200 with the result, or the reply of its failure. */
  function SummonReply(r: Result<Summon.SummonResult, Summon.SummonFailure>): (reply: Reply)
    ensures reply.status == 200 <==> r.Ok?
    ensures r.Ok? ==> reply.body == Summoned(r.value)
    ensures r.Err? ==> reply == SummonFailureReply(r.error)
  {
    if r.Ok? then Reply(200, Summoned(r.value)) else SummonFailureReply(r.error)
  }

  /** What the summon route answers once the profile item exists: 400 for a body that is not
      JSON or a rejected banner, 500 for a `null` body, all three without touching the table;
      otherwise the reply to a summon for the signed-in user, `userId`, that ran as
      `Summon.SummonRan` states. */
  ghost predicate SummonAfterBootstrap(t: Table, after: seq<Item>, configured: bool, defs: seq<CardDef>,
    userId: string, body: RequestBody<Option<string>>, draw: Draw, now: string, reply: Reply)
    requires ValidDraw(draw)
  {
    && (body.Unparsable? ==> reply == Reply(400, Message(InvalidBody)) && after == t.items)
    && (body.JsonNull? ==> reply == Reply(500, ErrorPage) && after == t.items)
    && (body.Parsed? && BannerRejected(body.field) ==> reply == Reply(400, Message(UnknownBanner)) && after == t.items)
    && (body.Parsed? && !BannerRejected(body.field) ==>
      exists r :: (Summon.SummonRan(t, after, configured, defs, userId, body.field.value, draw, now, r)
        && reply == SummonReply(r)))
  }

  /** `Number(body.amount)` when it is a finite whole number; `None` stands for every other
      value (`NaN`, an infinity, a fraction). */
  type Amount = Option<int>

  /** The amount test: a finite number that some pack credits. */
  predicate AmountAccepted(amount: Amount)
  {
    amount.Some? && amount.value in AllowedAmounts(CoinPacks)
  }

  /** The purchase route's `POST`. */
  method PurchasePost(table: UsersTable, configured: bool, session: Option<AuthUser>, body: RequestBody<Amount>,
    now: string) returns (reply: Reply)
    modifies table
    ensures table.schema == old(table.schema) && table.failing == old(table.failing)
    ensures session.None? || !HasSub(session.value) ==>
      reply == Reply(401, Message(Unauthorized)) && table.items == old(table.items)
    ensures (session.Some? && HasSub(session.value)
      && BootstrapOutcome(old(table.State()), configured, session.value, now).result.Err?) ==>
      reply == Reply(500, ErrorPage) && table.items == old(table.items)
    ensures (session.Some? && HasSub(session.value)
      && BootstrapOutcome(old(table.State()), configured, session.value, now).result.Ok?) ==>
      PurchaseAfterBootstrap(AfterBootstrap(old(table.State()), configured, session.value, now), table.items,
        configured, session.value.sub.value, body, now, reply)
  {
    if session.None? || !HasSub(session.value) {
      return Reply(401, Message(Unauthorized));
    }
    var user := session.value;
    var boot := BootstrapUserRecord(table, configured, user, now);
    if boot.Err? {
      return Reply(500, ErrorPage);
    }
    if body.Unparsable? {
      return Reply(400, Message(InvalidBody));
    }
    if body.JsonNull? {
      // Reading `amount` of `null` throws a TypeError that nothing catches.
      return Reply(500, ErrorPage);
    }
    var amount := body.field;
    if !AmountAccepted(amount) {
      return Reply(400, Message(InvalidPack));
    }
    var result := Shop.AddCoinsToUser(table, configured, user.sub.value, amount.value, now);
    if result.Ok? {
      return Reply(200, Purchased(amount.value, result.value));
    }
    reply := ShopFailureReply(result.error);
  }

  /** The purchase route's answer to a credit of `amount`: 200 with the amount and the new
      balance, or the reply of its failure. */
  function PurchaseReply(amount: int, r: Result<int, Shop.ShopFailure>): (reply: Reply)
    ensures reply.status == 200 <==> r.Ok?
    ensures r.Ok? ==> reply.body == Purchased(amount, r.value)
    ensures r.Err? ==> reply == ShopFailureReply(r.error)
  {
    if r.Ok? then Reply(200, Purchased(amount, r.value)) else ShopFailureReply(r.error)
  }

  /** What the purchase route answers once the profile item exists: 400 for a body that is not
      JSON or an amount no pack credits, 500 for a `null` body, all three without touching the
      table; otherwise the reply to a credit of the amount for the signed-in user, `userId`,
      that ran as `Shop.CreditRan` states. */
  ghost predicate PurchaseAfterBootstrap(t: Table, after: seq<Item>, configured: bool, userId: string,
    body: RequestBody<Amount>, now: string, reply: Reply)
  {
    && (body.Unparsable? ==> reply == Reply(400, Message(InvalidBody)) && after == t.items)
    && (body.JsonNull? ==> reply == Reply(500, ErrorPage) && after == t.items)
    && (body.Parsed? && !AmountAccepted(body.field) ==> reply == Reply(400, Message(InvalidPack)) && after == t.items)
    && (body.Parsed? && AmountAccepted(body.field) ==>
      exists r :: (Shop.CreditRan(t, after, configured, userId, body.field.value, now, r)
        && reply == PurchaseReply(body.field.value, r)))
  }
}
