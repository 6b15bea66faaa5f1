/**
 * The trade record: the creation request, its validation, its conversion
 * into a stored trade, and the trade's named column values.
 *
 * The wall clock and the UUID generator become parameters: `createdAt` and
 * `expiryClock` stand for the two clock readings, `id` for the fresh UUID.
 */
module TradeModel {
  import opened Wrappers
  import opened Values
  import QueryBuilder

  /** The table trades live in. */
  const TRADE_TABLE: string := "trading_post.trade"

  /** Every column of the trade table, in declaration order. */
  const TRADE_ALL_COLUMNS: seq<string> := [
    "id",
    "item_id",
    "item_name",
    "bid_price",
    "buyout_price",
    "created_by",
    "created_by_username",
    "created_at",
    "bought_by",
    "bought_by_username",
    "expired_at",
    "is_deleted"
  ]

  /** One calendar day of UTC time, in nanoseconds. */
  const ONE_DAY: Duration := 86_400_000_000_000

  /** A stored trade listing. */
  datatype Trade = Trade(
    id: Uuid,
    itemId: Uuid,
    itemName: string,
    bidPrice: I64,
    buyoutPrice: I64,
    createdBy: Uuid,
    createdByUsername: string,
    createdAt: Instant,
    boughtBy: Uuid,
    boughtByUsername: string,
    expiredAt: Instant,
    isDeleted: bool)

  /** A request to list an item. */
  datatype CreateTrade = CreateTrade(
    itemId: Uuid,
    itemName: string,
    bidPrice: I64,
    buyoutPrice: Option<I64>,
    createdBy: Uuid,
    createdByUsername: string,
    expireIn: Option<Duration>)

  /** A failed schema rule, identified by its error code. */
  datatype ValidationError = ValidationError(code: string)

  const BID_ABOVE_BUYOUT: string := "The bid can't be greater than the buyout price"

  // ---------------------------------------------------------------------------
  // Validation

  /** The cross-field rule: a bid may not exceed a positive buyout price. */
  function ValidateCreateTrade(c: CreateTrade): (r: Result<(), ValidationError>)
    ensures r.Err? <==>
      c.buyoutPrice.Some? && c.buyoutPrice.value > 0 && c.bidPrice > c.buyoutPrice.value
    ensures r.Err? ==> r.error.code == BID_ABOVE_BUYOUT
  {
    match c.buyoutPrice
    case Some(buyout) =>
      if buyout > 0 && c.bidPrice > buyout then Err(ValidationError(BID_ABOVE_BUYOUT))
      else Ok(())
    case None => Ok(())
  }

  /** The rules a creation request is checked against. */
  datatype Violation =
    | ItemNameEmpty
    | BidPriceNegative
    | CreatedByUsernameEmpty
    | BidAboveBuyout

  /**
   * Every violated rule: the field rules (names of at least one character,
   * a non-negative bid) and the cross-field rule, which runs even when a
   * field rule already failed.
   */
  function Validate(c: CreateTrade): (r: set<Violation>)
    ensures ItemNameEmpty in r <==> |c.itemName| < 1
    ensures BidPriceNegative in r <==> c.bidPrice < 0
    ensures CreatedByUsernameEmpty in r <==> |c.createdByUsername| < 1
    ensures BidAboveBuyout in r <==> ValidateCreateTrade(c).Err?
  {
    (if |c.itemName| < 1 then {ItemNameEmpty} else {})
    + (if c.bidPrice < 0 then {BidPriceNegative} else {})
    + (if |c.createdByUsername| < 1 then {CreatedByUsernameEmpty} else {})
    + (if ValidateCreateTrade(c).Err? then {BidAboveBuyout} else {})
  }

  /** A missing or non-positive buyout never trips the cross-field rule. */
  lemma NoPositiveBuyoutIsValid(c: CreateTrade)
    requires c.buyoutPrice.None? || c.buyoutPrice.value <= 0
    ensures ValidateCreateTrade(c) == Ok(())
    ensures BidAboveBuyout !in Validate(c)
  {
  }

  // ---------------------------------------------------------------------------
  // Conversion

  /**
   * The stored trade for a request. The buyout price defaults to 0; nobody
   * has bought it; with no expiry it is marked expired one day before it was
   * created.
   */
  function FromCreateTrade(c: CreateTrade, id: Uuid, createdAt: Instant, expiryClock: Instant): (t: Trade)
    ensures t.id == id && t.createdAt == createdAt
    ensures t.itemId == c.itemId && t.itemName == c.itemName && t.bidPrice == c.bidPrice
    ensures t.createdBy == c.createdBy && t.createdByUsername == c.createdByUsername
    ensures c.buyoutPrice.Some? ==> t.buyoutPrice == c.buyoutPrice.value
    ensures c.buyoutPrice.None? ==> t.buyoutPrice == 0
    ensures t.boughtBy == NIL_UUID && t.boughtByUsername == "" && !t.isDeleted
    ensures c.expireIn.None? ==> t.expiredAt == t.createdAt - ONE_DAY
    ensures c.expireIn.None? ==> t.expiredAt < t.createdAt
    ensures c.expireIn.Some? ==> t.expiredAt == expiryClock + c.expireIn.value
  {
    var buyout := match c.buyoutPrice
      case Some(value) => value
      case None => 0;
    var expiredAt := match c.expireIn
      case Some(duration) => expiryClock + duration
      case None => createdAt - ONE_DAY;
    Trade(id, c.itemId, c.itemName, c.bidPrice, buyout, c.createdBy, c.createdByUsername,
          createdAt, NIL_UUID, "", expiredAt, false)
  }

  function ItemId(t: Trade): Uuid { t.itemId }
  function CreatedBy(t: Trade): Uuid { t.createdBy }
  function BidPrice(t: Trade): I64 { t.bidPrice }
  function BuyoutPrice(t: Trade): I64 { t.buyoutPrice }

  /** What the getters of a freshly converted trade report. */
  lemma GettersAfterConversion(c: CreateTrade, id: Uuid, createdAt: Instant, expiryClock: Instant)
    ensures ItemId(FromCreateTrade(c, id, createdAt, expiryClock)) == c.itemId
    ensures CreatedBy(FromCreateTrade(c, id, createdAt, expiryClock)) == c.createdBy
    ensures BidPrice(FromCreateTrade(c, id, createdAt, expiryClock)) == c.bidPrice
    ensures BuyoutPrice(FromCreateTrade(c, id, createdAt, expiryClock)) == c.buyoutPrice.GetOr(0)
  {
  }

  /** The state every newly listed trade is in. */
  ghost predicate FreshListing(t: Trade) {
    && |t.itemName| >= 1
    && |t.createdByUsername| >= 1
    && t.bidPrice >= 0
    && (t.buyoutPrice > 0 ==> t.bidPrice <= t.buyoutPrice)
    && t.boughtBy == NIL_UUID
    && t.boughtByUsername == ""
    && !t.isDeleted
  }

  /** A request that passes validation converts into a fresh listing. */
  lemma ValidRequestMakesFreshListing(c: CreateTrade, id: Uuid, createdAt: Instant, expiryClock: Instant)
    requires Validate(c) == {}
    ensures FreshListing(FromCreateTrade(c, id, createdAt, expiryClock))
  {
  }

  // ---------------------------------------------------------------------------
  // Named values

  /** The names of a list of named values, in order. */
  function Names(pairs: seq<(string, Value)>): seq<string> {
    seq(|pairs|, i requires 0 <= i < |pairs| => pairs[i].0)
  }

  /**
   * The hash map the named-values macro fills: each pair inserted in
   * order, a later pair overwriting an earlier one of the same name.
   */
  function InsertAll(pairs: seq<(string, Value)>): (m: map<string, Value>)
    ensures m.Keys == set i | 0 <= i < |pairs| :: pairs[i].0
  {
    if |pairs| == 0 then map[]
    else InsertAll(pairs[..|pairs| - 1])[pairs[|pairs| - 1].0 := pairs[|pairs| - 1].1]
  }

  /** Names that occur once each. */
  predicate DistinctNames(names: seq<string>) {
    forall i, j :: 0 <= i < j < |names| ==> names[i] != names[j]
  }

  /** With distinct names, every pair survives the inserts. */
  lemma {:induction false} InsertAllLookup(pairs: seq<(string, Value)>, i: nat)
    requires DistinctNames(Names(pairs))
    requires i < |pairs|
    ensures pairs[i].0 in InsertAll(pairs)
    ensures InsertAll(pairs)[pairs[i].0] == pairs[i].1
  {
    var last := |pairs| - 1;
    if i < last {
      var init := pairs[..last];
      assert Names(init) == Names(pairs)[..last];
      InsertAllLookup(init, i);
      assert pairs[i].0 != pairs[last].0 by {
        assert Names(pairs)[i] != Names(pairs)[last];
      }
    }
  }

  /** The trade's column values, in the order the macro receives them. */
  function QueryValueArgs(t: Trade): seq<(string, Value)> {
    [
      ("id", UuidValue(t.id)),
      ("item_id", UuidValue(t.itemId)),
      ("item_name", TextValue(t.itemName)),
      ("bid_price", BigIntValue(t.bidPrice)),
      ("buyout_price", BigIntValue(t.buyoutPrice)),
      ("created_by", UuidValue(t.createdBy)),
      ("created_by_username", TextValue(t.createdByUsername)),
      ("created_at", TimestampValue(t.createdAt)),
      ("bought_by", UuidValue(t.boughtBy)),
      ("bought_by_username", TextValue(t.boughtByUsername)),
      ("expired_at", TimestampValue(t.expiredAt)),
      ("is_deleted", BooleanValue(t.isDeleted))
    ]
  }

  /** The trade as values keyed by column name. */
  function IntoQueryValues(t: Trade): QueryValues {
    NamedValues(InsertAll(QueryValueArgs(t)))
  }

  /** The value names are the table's columns, in the same order. */
  lemma QueryValueNamesAreColumns(t: Trade)
    ensures Names(QueryValueArgs(t)) == TRADE_ALL_COLUMNS
    ensures |QueryValueArgs(t)| == 12
  {
  }

  lemma ColumnsDistinct()
    ensures DistinctNames(TRADE_ALL_COLUMNS)
  {
  }

  /** Exactly twelve values, one under each column name. */
  lemma IntoQueryValuesCoversColumns(t: Trade)
    ensures IntoQueryValues(t).NamedValues?
    ensures IntoQueryValues(t).named.Keys == set c | c in TRADE_ALL_COLUMNS
    ensures |IntoQueryValues(t).named| == 12
  {
    var args := QueryValueArgs(t);
    QueryValueNamesAreColumns(t);
    ColumnsDistinct();
    var m := IntoQueryValues(t).named;
    assert m.Keys == set c | c in TRADE_ALL_COLUMNS by {
      forall c | c in m.Keys ensures c in TRADE_ALL_COLUMNS {
        var i :| 0 <= i < |args| && args[i].0 == c;
        assert Names(args)[i] == c;
      }
      forall c | c in TRADE_ALL_COLUMNS ensures c in m.Keys {
        var i :| 0 <= i < 12 && TRADE_ALL_COLUMNS[i] == c;
        assert args[i].0 == Names(args)[i];
      }
    }
    DistinctCardinality(TRADE_ALL_COLUMNS);
  }

  /** A list of distinct names has as many elements as its set. */
  lemma {:induction false} DistinctCardinality(names: seq<string>)
    requires DistinctNames(names)
    ensures |set c | c in names| == |names|
  {
    if |names| > 0 {
      var rest := names[1..];
      assert DistinctNames(rest);
      DistinctCardinality(rest);
      assert names[0] !in rest;
      assert (set c | c in names) == (set c | c in rest) + {names[0]};
    }
  }

  /** The trade read back from values keyed by column name, if they fit. */
  function FromNamedValues(m: map<string, Value>): Option<Trade> {
    if && "id" in m && m["id"].UuidValue?
       && "item_id" in m && m["item_id"].UuidValue?
       && "item_name" in m && m["item_name"].TextValue?
       && "bid_price" in m && m["bid_price"].BigIntValue?
       && "buyout_price" in m && m["buyout_price"].BigIntValue?
       && "created_by" in m && m["created_by"].UuidValue?
       && "created_by_username" in m && m["created_by_username"].TextValue?
       && "created_at" in m && m["created_at"].TimestampValue?
       && "bought_by" in m && m["bought_by"].UuidValue?
       && "bought_by_username" in m && m["bought_by_username"].TextValue?
       && "expired_at" in m && m["expired_at"].TimestampValue?
       && "is_deleted" in m && m["is_deleted"].BooleanValue?
    then Some(Trade(
      m["id"].uuid, m["item_id"].uuid, m["item_name"].text, m["bid_price"].bigint,
      m["buyout_price"].bigint, m["created_by"].uuid, m["created_by_username"].text,
      m["created_at"].instant, m["bought_by"].uuid, m["bought_by_username"].text,
      m["expired_at"].instant, m["is_deleted"].boolean))
    else None
  }

  /** The value stored under each column name. */
  lemma NamedValueLookups(t: Trade)
    ensures var m := IntoQueryValues(t).named;
      && "id" in m && m["id"] == UuidValue(t.id)
      && "item_id" in m && m["item_id"] == UuidValue(t.itemId)
      && "item_name" in m && m["item_name"] == TextValue(t.itemName)
      && "bid_price" in m && m["bid_price"] == BigIntValue(t.bidPrice)
      && "buyout_price" in m && m["buyout_price"] == BigIntValue(t.buyoutPrice)
      && "created_by" in m && m["created_by"] == UuidValue(t.createdBy)
      && "created_by_username" in m && m["created_by_username"] == TextValue(t.createdByUsername)
      && "created_at" in m && m["created_at"] == TimestampValue(t.createdAt)
      && "bought_by" in m && m["bought_by"] == UuidValue(t.boughtBy)
      && "bought_by_username" in m && m["bought_by_username"] == TextValue(t.boughtByUsername)
      && "expired_at" in m && m["expired_at"] == TimestampValue(t.expiredAt)
      && "is_deleted" in m && m["is_deleted"] == BooleanValue(t.isDeleted)
  {
    var args := QueryValueArgs(t);
    QueryValueNamesAreColumns(t);
    ColumnsDistinct();
    var m := InsertAll(args);
    InsertAllLookup(args, 0);
    InsertAllLookup(args, 1);
    InsertAllLookup(args, 2);
    InsertAllLookup(args, 3);
    InsertAllLookup(args, 4);
    InsertAllLookup(args, 5);
    InsertAllLookup(args, 6);
    InsertAllLookup(args, 7);
    InsertAllLookup(args, 8);
    InsertAllLookup(args, 9);
    InsertAllLookup(args, 10);
    InsertAllLookup(args, 11);
  }

  /** Reading a trade back from its named values yields the same trade. */
  lemma QueryValuesRoundTrip(t: Trade)
    ensures FromNamedValues(IntoQueryValues(t).named) == Some(t)
  {
    NamedValueLookups(t);
  }

  // ---------------------------------------------------------------------------
  // The insert statement

  /** The statement a new trade is written with. */
  function InsertStatement(): string {
    QueryBuilder.Build(QueryBuilder.WithColumns(
      QueryBuilder.WithQueryType(QueryBuilder.New(TRADE_TABLE), QueryBuilder.Insert),
      TRADE_ALL_COLUMNS))
  }

  /** No column name and not the table name holds a `?`. */
  lemma NamesHoldNoPlaceholder()
    ensures '?' !in TRADE_TABLE
    ensures forall i :: 0 <= i < |TRADE_ALL_COLUMNS| ==> '?' !in TRADE_ALL_COLUMNS[i]
  {
  }

  /**
   * The insert statement holds one placeholder per value a trade supplies,
   * and its columns are exactly the names of those values.
   */
  lemma InsertStatementMatchesValues(t: Trade)
    ensures QueryBuilder.Count('?', InsertStatement()) == |IntoQueryValues(t).named|
    ensures IntoQueryValues(t).named.Keys == set c | c in TRADE_ALL_COLUMNS
  {
    var b := QueryBuilder.Builder(QueryBuilder.Insert, TRADE_TABLE, TRADE_ALL_COLUMNS);
    assert InsertStatement() == QueryBuilder.Build(b);
    NamesHoldNoPlaceholder();
    QueryBuilder.InsertPlaceholders(b);
    IntoQueryValuesCoversColumns(t);
  }
}
