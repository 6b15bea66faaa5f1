# Trading-post data layer, modelled in Dafny

This project models the pure logic of the trading-post service's data layer:

- the **statement builder** that renders select and insert statements of the
  store's query dialect from a table, a column list and a statement kind
  (`query_builder.dfy`, module `QueryBuilder`);
- the **predicate value type**, a field name paired with the equality
  operator (`filter.dfy`, module `OrmFilter`);
- the **item-name filter factory** of the auction API, which turns an optional
  name into zero or one substring-match filter group
  (`auction_filters.dfy`, module `AuctionFilters`);
- the **address rewrite** of the connection-topology virtualiser, which maps an
  advertised IPv4 socket address onto the configured physical subnet
  (`session.dfy`, module `Session`);
- **pagination parameter normalisation** (`pagination.dfy`, module `Pagination`);
- the **trade record rules**: request validation, the conversion of a creation
  request into a stored trade, and the trade's named column values
  (`trade.dfy`, module `TradeModel`).

`wrappers.dfy` holds `Option`/`Result`; `values.dfy` holds the fixed-width
integer types, UUIDs, instants and the driver's bound-value collection.

Everything is an immutable datatype and a pure function. The clock and the
UUID generator are parameters of the trade conversion: `createdAt` and
`expiryClock` are the two clock readings the conversion takes, `id` is the
freshly generated UUID. The IPv6 panic of the rewrite is an error outcome,
`Err(Ipv6Unsupported)`.

The builder in `src/core/orm/query_builder.rs` renders select and insert
statements only; update renders the empty string, and there is no WHERE,
LIMIT or allow-filtering clause. `src/core/orm/filter.rs` has only the
equality operator. The listing handler at `src/api/auction.rs:28-38` calls
`allow_filtering`, `filter_by` and `get_paginated_entries`, which the builder
does not define; the model covers what the builder and filter files define.
The name filter uses a substring operator `LikeContains` and a
`CustomFilter` group that are not defined in `src/core/orm/filter.rs`; the
model declares them in `AuctionFilters` with just the fields the factory
fills, and keeps `OrmFilter.Operator` equality-only.

The trade's named values are built by the driver's `query_values!` macro,
which inserts each name/value pair into a hash map. The model keeps the
macro's ordered argument list (`QueryValueArgs`) and the map the inserts
produce (`InsertAll`): the order of the names is stated on the argument list,
the key set on the map.

## Model

| member | source | states |
|---|---|---|
| QueryBuilder.New | src/core/orm/query_builder.rs:12-18 | a new builder is a select over the given table with an empty column list |
| QueryBuilder.WithQueryType | src/core/orm/query_builder.rs:20-23 | sets the statement kind and leaves table and columns unchanged |
| QueryBuilder.WithColumns | src/core/orm/query_builder.rs:25-28 | sets the column list and leaves kind and table unchanged |
| QueryBuilder.Join | src/core/orm/query_builder.rs:41-45 | joining no parts gives the empty string; otherwise the length is the parts' total length plus one separator between each pair |
| QueryBuilder.Build | src/core/orm/query_builder.rs:30-61 | select renders `SELECT <cols joined by ", "> FROM <table>`, insert renders `INSERT INTO <table> (<cols>) VALUES (<one ? per column>)`, update renders the empty string whatever the table and columns |
| QueryBuilder.SelectText | src/core/orm/query_builder.rs:38-46 | the four space-joined select parts equal one flat concatenation with the column part between `SELECT ` and ` FROM ` |
| QueryBuilder.InsertText | src/core/orm/query_builder.rs:48-57 | the five space-joined insert parts equal one flat concatenation with columns and placeholders parenthesised |
| QueryBuilder.NewBuildsEmptySelect | src/core/orm/query_builder.rs:38-45 | a select with no columns renders `SELECT  FROM <table>`, two spaces, as the empty column part is still a joined part |
| QueryBuilder.KeywordInjective | src/core/orm/query_builder.rs:71-79 | the three statement keywords are pairwise different |
| QueryBuilder.SelectExample | src/core/orm/query_builder.rs:86-92 | columns `id, item_id, item_name` on `trading_post.trade` render `SELECT id, item_id, item_name FROM trading_post.trade` |
| QueryBuilder.InsertExample | src/core/orm/query_builder.rs:95-102 | an insert of `key, value` renders `INSERT INTO trading_post.trade (key, value) VALUES (?, ?)` |
| QueryBuilder.PlaceholderCount | src/core/orm/query_builder.rs:54 | the joined placeholder list for n columns holds exactly n question marks |
| QueryBuilder.InsertPlaceholders | src/core/orm/query_builder.rs:48-57 | when no column name or table name holds `?`, the insert statement holds exactly one `?` per column |
| QueryBuilder.SelectColumnsRoundTrip | src/core/orm/query_builder.rs:38-46 | reading the column part of a select statement back gives the builder's columns, for a non-empty list of comma-free names |
| OrmFilter.New | src/core/orm/filter.rs:9-14 | a filter holds the field name and operator it was built with |
| OrmFilter.GettersRoundTrip | src/core/orm/filter.rs:9-22 | the field-name and operator getters return what the constructor was given |
| OrmFilter.EveryFilterRendersEquals | src/core/orm/filter.rs:26-35 | equality is the only operator, so every filter's operator renders as the one-character `=` |
| AuctionFilters.NewItemNameFilter | src/api/auction/filters.rs:21-23 | the name filter holds the request parameters it was given |
| AuctionFilters.SearchPattern | src/api/auction/filters.rs:30 | the pattern is the name with one `%` on each side: two characters longer, starting and ending with `%` |
| AuctionFilters.SearchPatternRoundTrip | src/api/auction/filters.rs:30 | stripping the wildcards off the pattern gives the name back |
| AuctionFilters.IntoCustomFilter | src/api/auction/filters.rs:27-39 | no name gives no filter; a name gives one group of exactly one `item_name` substring match whose pattern wraps the name in `%`, with no bound values |
| AuctionFilters.OnlyNameMatters | src/api/auction/filters.rs:8-14 | two parameter sets with the same name give the same filter, whatever their price bounds |
| Session.Rewrite | src/core/orm/session.rs:114-133 | for IPv4, every masked bit of each octet comes from the real subnet and every unmasked bit from the virtual address, and the port is kept; IPv6 is always the unsupported-family error, never a pass-through |
| Session.MergeOctetUnique | src/core/orm/session.rs:122-125 | the merged octet is the only octet agreeing with the subnet on the masked bits and with the virtual octet on the others |
| Session.MergeOctetIdempotent | src/core/orm/session.rs:122-125 | merging a merged octet again with the same mask and subnet changes nothing |
| Session.ZeroMaskIsIdentity | src/core/orm/session.rs:116-128 | an all-zero mask returns the address unchanged |
| Session.FullMaskIsActual | src/core/orm/session.rs:116-128 | an all-ones mask returns the real subnet address with the original port |
| Session.RewriteIdempotent | src/core/orm/session.rs:114-133 | rewriting a rewritten address gives the same address |
| Session.ProxyMaskKeepsLastOctet | src/core/orm/session.rs:71 | under the configured mask 255.255.255.0 the first three octets come from the subnet and only the last octet of the virtual address survives |
| Session.ProxyExample | src/core/orm/session.rs:71-72 | `10.0.0.7:9042` with subnet `127.0.0.0` and mask 255.255.255.0 connects to `127.0.0.7:9042` |
| Session.RewriteIsWordTransform | src/core/orm/session.rs:99-106 | the octet-wise rewrite equals the whole-address transform: virtual AND NOT mask, OR subnet AND mask, on the 32-bit address |
| Pagination.New | src/core/pagination.rs:8-20 | a negative page or page size becomes 1, any other value (0 included) is kept, and both results are non-negative |
| Pagination.FieldsIndependent | src/core/pagination.rs:9-19 | the resulting page does not depend on the page size input, nor the page size on the page input |
| Pagination.NewIdempotent | src/core/pagination.rs:8-20 | normalising normalised parameters changes nothing |
| TradeModel.ValidateCreateTrade | src/models/trade.rs:70-80 | the request fails exactly when a buyout price is given, is positive and is below the bid, with the bid-above-buyout error code |
| TradeModel.NoPositiveBuyoutIsValid | src/models/trade.rs:71-72 | a missing or non-positive buyout never triggers the cross-field error |
| TradeModel.Validate | src/models/trade.rs:48-62 | a rule is reported exactly when it is broken: empty item name, negative bid, empty creator name, and the cross-field rule, which runs even after a field rule failed |
| TradeModel.FromCreateTrade | src/models/trade.rs:128-157 | copies item, bid and creator fields; buyout defaults to 0; nil buyer, empty buyer name, not deleted; with no expiry it expires one day before creation, strictly earlier, otherwise at the second clock reading plus the duration |
| TradeModel.GettersAfterConversion | src/models/trade.rs:93-108 | the getters of a converted trade report the request's item, creator and bid, and its buyout or 0 |
| TradeModel.ValidRequestMakesFreshListing | src/models/trade.rs:49-59 | a request that passes every rule converts into a trade with non-empty names, a non-negative bid not above a positive buyout, and no buyer |
| TradeModel.InsertAll | src/models/trade.rs:110-125 | the named-values map has exactly the argument names as keys |
| TradeModel.InsertAllLookup | src/models/trade.rs:110-125 | with distinct names, each name maps to the value given with it |
| TradeModel.QueryValueNamesAreColumns | src/models/trade.rs:110-125 | the twelve value names, in order, are the table's column list |
| TradeModel.ColumnsDistinct | src/models/trade.rs:14-27 | the twelve column names are pairwise different |
| TradeModel.IntoQueryValuesCoversColumns | src/models/trade.rs:110-125 | a trade yields exactly twelve named values, one under each column of the table |
| TradeModel.NamedValueLookups | src/models/trade.rs:111-124 | each column name maps to the value of the corresponding trade field |
| TradeModel.QueryValuesRoundTrip | src/models/trade.rs:110-125 | reading a trade back from its named values by column name yields the same trade, with instants carried unchanged |
| TradeModel.InsertStatementMatchesValues | src/api/auction.rs:52-56 | the trade insert statement has one placeholder per named value, and the values' names are exactly its columns |
| QueryBuilder.Keyword | src/core/orm/query_builder.rs:71-79 | `QueryType::to_string`: `SELECT`, `INSERT INTO` and `UPDATE` (KeywordValues), pairwise different (KeywordInjective); `SELECT` and `INSERT INTO` open the select and insert texts (SelectText, InsertText), while `UPDATE` is never rendered because update builds the empty string |
| QueryBuilder.KeywordValues | src/core/orm/query_builder.rs:71-79 | select maps to `SELECT`, insert to `INSERT INTO`, update to `UPDATE` |
| OrmFilter.OperatorText | src/core/orm/filter.rs:30-35 | equality renders as `=`; stated by EveryFilterRendersEquals |
| OrmFilter.GetFieldName | src/core/orm/filter.rs:16-18 | returns the field name the filter was built with; stated by GettersRoundTrip |
| OrmFilter.GetOperator | src/core/orm/filter.rs:20-22 | returns the operator the filter was built with; stated by GettersRoundTrip |
| TradeModel.ItemId | src/models/trade.rs:94-96 | the trade's item id; stated by GettersAfterConversion |
| TradeModel.CreatedBy | src/models/trade.rs:98-100 | the trade's creator; stated by GettersAfterConversion |
| TradeModel.BidPrice | src/models/trade.rs:102-104 | the trade's bid; stated by GettersAfterConversion |
| TradeModel.BuyoutPrice | src/models/trade.rs:106-108 | the trade's buyout price; stated by GettersAfterConversion |
| TradeModel.IntoQueryValues | src/models/trade.rs:110-125 | the trade as twelve values keyed by column name; stated by IntoQueryValuesCoversColumns, NamedValueLookups and QueryValuesRoundTrip |
| QueryBuilder.BuildSelect | src/core/orm/query_builder.rs:38-46 | the four parts `SELECT`, the comma-joined columns, `FROM` and the table, joined by spaces; its flat text is stated by SelectText and its column part is read back by SelectColumnsRoundTrip |
| QueryBuilder.BuildInsert | src/core/orm/query_builder.rs:48-57 | the five parts `INSERT INTO`, table, parenthesised columns, `VALUES` and parenthesised placeholders, joined by spaces; its flat text is stated by InsertText and its placeholder count by InsertPlaceholders |
| QueryBuilder.BuildUpdate | src/core/orm/query_builder.rs:59-61 | the empty string for every table and column list, as Build's update clause states |
| QueryBuilder.Placeholders | src/core/orm/query_builder.rs:54 | one `?` per column; PlaceholderCount states that their join holds exactly n question marks |
| Session.MergeOctet | src/core/orm/session.rs:122-125 | the octet expression; MergeOctetUnique states it is the only octet taking masked bits from the subnet and the rest from the virtual octet, MergeOctetIdempotent that merging again changes nothing |
| Pagination.Normalise | src/core/pagination.rs:9-17 | one field's match arms: negative becomes 1, the rest is kept, as New's contract states for each field |
| TradeModel.QueryValueArgs | src/models/trade.rs:111-124 | the macro's twelve name/value pairs; QueryValueNamesAreColumns states their names in order are the column list, NamedValueLookups which field each name carries |
| TradeModel.InsertStatement | src/api/auction.rs:52-55 | the trade insert statement; InsertStatementMatchesValues states it has one placeholder per named value and its columns are the values' names |
| TradeModel.FromNamedValues | src/models/trade.rs:31-46 | a by-name row decoder standing in for the derived one; QueryValuesRoundTrip states it inverts the named values |

## Left out

- Session construction (`create_cassandra_session`), the virtual cluster
  configuration, the virtual connection manager and the generic cluster
  configuration: driver, pooling and network plumbing. Only the pure rewrite is
  modelled.
- The HTTP and RPC handlers: framework glue. Most RPC bodies are `todo!()`;
  the others call `allow_filtering`, `filter_by`, `get_paginated_entries` and
  `insert`, which the builder does not define.
- WHERE, LIMIT and permissive-scan rendering, update rendering beyond the
  empty string, and paged execution: not implemented in the builder.
- `parse_expire_in`: it wraps a Go-style duration parser library; the model
  takes the parsed duration as given.
- The derive macros (`Validate`, `TryFromRow`, `IntoCdrsValue`) are library
  code. `Validate` models the rules they are configured with; the row decoder
  is replaced by `FromNamedValues`, a lookup by column name.
- TradeModel.FromCreateTrade: does not model chrono's panic when an instant
  plus or minus a span leaves chrono's date range; instants are unbounded
  integers of nanoseconds.
- TradeModel.IntoQueryValues: the driver's conversion of instants to
  millisecond timestamps is not modelled; a timestamp value carries the
  instant unchanged.
- UUID parsing, error-to-response formatting, the query placeholder type,
  process wiring, CLI parsing, code generation and the health endpoint: outside
  the data layer's logic.
- The name filter inlines the name into the pattern without escaping `%` or
  `_`; the model keeps that and states nothing about escaping.
