# Campus trading backend — a Dafny model of its request handling

The system is the backend of a campus trading platform. Students open shops and list
commodities with option groups. Buyers search, bookmark and order commodities, and each
order moves through a fixed lifecycle: ordered, paid, delivered, confirmed, commented, with
"closed" as the escape from "ordered". Users also post articles, like and bookmark them,
reply on numbered floors, ask to be verified as students, and administrators import users
from CSV files.

This project models the part of the code that decides things:

- **The generic list pipeline** (`trade/query_util.py`):
  - `query_filter` turns `field__lookup=value` query keys into a conjunction of clauses;
  - `query_order_by` checks `*`-separated order tokens against a whitelist;
  - `query_page` supplies the paging defaults;
  - `filter_order_and_list` runs filter, count, order, paginate and project, over Django's
    `Paginator` arithmetic.
- **The order lifecycle** (`trade/api/order.py`, `trade/api/comment.py`):
  - the price computation, the 88888888.88 price check, and the order's `Decimal(8, 2)` price column;
  - the code around the two database procedures;
  - the guarded status steps;
  - the commodity status flips.
- **The guarded handlers around them:**
  - the response helpers and decorators of `trade/util.py`;
  - adding and searching commodities, and bookmarks (`trade/api/commodity.py`);
  - likes, bookmarks and the content brief of articles (`trade/api/article.py`);
  - reply floors (`trade/api/reply.py`);
  - the CSV import validator (`trade/api/auth.py`);
  - shop administrators (`trade/api/shop.py`);
  - student verification (`trade/api/student_auth.py`).

Layout: one module per source file, plus small shared modules.

- `Models` (`models.dfy`) holds the record shapes and the `Database` class. Every table is a
  field of that class: a `map` keyed by id, or a `seq` in primary-key order where the code
  relies on `first()` or on insertion order.
- Each handler is a method with `modifies db`<table>``. It either answers a failure and
  leaves every table as it was, or makes exactly the update its `ensures` states.
- A handler's answer is `ApiResult`:
  - `Success(data)`;
  - `Failure(code, message)`, which `failed_api_response` turns into the response;
  - `Uncaught`, for an exception the code does not catch, which becomes a server error.
- The decorators that run before a handler are modelled once, in `Util`
  (`RequireKeys`, `RequireItemExist`) and `QueryUtil`. Each handler method starts where they
  have let the request through, so the row the URL names exists (a `requires`).

Inputs from outside the code are parameters of the model:

- the acting user;
- the time (`now`);
- the id auto-increment hands out next (`newId`);
- the answers of the two stored procedures;
- the ORM's lookup semantics and ordering (`Orm`);
- `ast.literal_eval` coercion and `int()` parsing;
- the email regular expression and the password hasher;
- the text of a database exception.

Money is integer cents.

Seven facts about the code that the model keeps as they are:

- `create_order` tests the sale count of the commodity object it loaded *before* the stock
  procedure ran (trade/api/order.py:45, 68). When it then closes the commodity, `save()` writes
  that stale object back over the procedure's sale count. `CreateOrder` states exactly this.
- The Python code of `close_order` sets neither the closed status nor the close time of the
  order. Only the `close_order` procedure touches the order row, and its effect is the
  parameter `procOrder`.
- `create_order` checks the price against 88888888.88 (trade/api/order.py:55), but the order's
  price column is `DecimalField(max_digits=8, decimal_places=2)` (trade/models/Order.py:30) and
  holds at most 999999.99. A price between the two passes the check, and the procedure's
  insertion of the order would then fail, given the procedure assumption listed under Left out;
  nothing catches that error. `CreateOrder` states this and
  `CeilingLooserThanColumn` exhibits such a price.
- The handlers write strings, decimals and integers without checking them against their
  columns. A value longer than its `CharField`, beyond its `Decimal(8, 2)`, or outside the
  signed 32-bit range of its `IntegerField` makes the write raise, and nothing catches it; the
  handlers answer `Uncaught`. `comment_order` saves the order as commented before it creates
  the comment (trade/api/comment.py:29-35), so an out-of-range grade leaves the order
  commented without a comment. No transaction wraps `add_commodity`
  (trade/api/commodity.py:54-60), so when a group or option does not fit, the commodity row and
  every group and option written before the fault stay stored. `AddCommodity` and
  `ExpandParaSets` state this.
- `register_shop` stores the shop type as sent (trade/api/shop.py:29-31), and the handlers
  test only for the personal type 0 (trade/api/shop.py:49, 75, 119). A shop of any other type
  that fits the column, 2 say, is treated as cooperative. The model keeps the type an integer.
- Nothing checks that a grade is one of the five `GRADES` (trade/models/Comment.py:26):
  `choices` is not enforced by `create()`, and `comment_order` stores any grade that fits the
  column. The average of stored grades can therefore lie outside 1 to 5;
  `AvgGradeInRange` states the bound only for data whose grades are all from 1 to 5.
- The handlers check authorization themselves: the buyer, the shop's owner or administrators,
  the reply's author. The model states those checks.

## Model

| member | source | states |
|---|---|---|
| Util.FromValue | trade/util.py:20-34 | `ErrorCode(v)`: a member is returned only when its value is `v`; `None` only when no member has value `v` |
| Util.FromName | trade/util.py:20-34 | `ErrorCode[name]`: a member is returned only when it is called `name`; `None` only when no member is |
| Util.ValueLookupRoundTrip | trade/util.py:20-34 | the values are unique: looking up a member's value gives back that member |
| Util.NameLookupRoundTrip | trade/util.py:20-34 | looking up a member's name gives back that member |
| Util.SuccessApiResponse | trade/util.py:40-48 | the response is successful; it carries the `{"success": True}` marker exactly when no data is given, else the data |
| Util.Fail | trade/util.py:62-74 | an unsuccessful response whose HTTP code is the detailed code's hundreds, whose detailed code names the member, and whose message is `str(code)` or `str(code) + ": " + msg` |
| Util.FailedApiResponse | trade/util.py:51-74 | a response exists exactly when the code argument resolves (a lookup that raises gives none), and then it is the response of the resolved member |
| Util.CodeFormsAgree | trade/util.py:58-61 | a member, its name and its value give the same response |
| Util.FailureStatus | trade/util.py:84-93 | the HTTP status of a failure is the code's value divided by 100: 400 for the three bad-request codes, 404 for the three not-found codes |
| Util.RequireKeys | trade/util.py:205-232 | the handler runs exactly when the body is an object holding every required key with a non-null value, or a non-object JSON value when no key is required; a body that is not JSON or is `null` gets the bare BAD_REQUEST response, an object missing a key the "缺少必要字段" one; a non-UTF-8 body, or a non-object JSON value looked up for a key, raises |
| Util.RequireItemExist | trade/util.py:170-176 | the handler runs exactly when the URL argument names an existing row; the argument is then removed from the keyword arguments and passed on as the id; otherwise ITEM_NOT_FOUND with "对象不存在" |
| Util.FilterData | trade/util.py:239-251 | the kept keys are exactly the original keys that are in the key set, each with its original value |
| Util.UpperKeysDomain | trade/util.py:261 | the upper-cased table has a key exactly when some entry upper-cases to it |
| Util.WrappedApi | trade/util.py:260-262 | the wrapper is built exactly when every upper-cased key is GET, POST, PUT or DELETE; it is then the upper-cased table, in which (`DispatchPicksLastEntry`) a method goes to the last entry naming it |
| Util.DispatchPicksLastEntry | trade/util.py:261-266 | a request goes to the handler of the last entry whose key upper-cases to its method |
| Util.DispatchRefusesUnlisted | trade/util.py:264-266 | a method no entry names is refused with 405 |
| Text.Split | trade/query_util.py:117 | `str.split` on one character: at least one piece, and no piece contains the separator |
| Text.JoinSplit | trade/query_util.py:117 | joining the pieces of a split with the separator gives back the string |
| Text.SplitJoin | trade/query_util.py:117 | splitting a join of separator-free pieces gives back the pieces |
| Text.StripLeftDropsLeadingSpace | trade/api/auth.py:94-97 | `lstrip` removes exactly the leading whitespace: the result is a suffix that does not start with whitespace, and everything dropped is whitespace |
| Text.StripRightDropsTrailingSpace | trade/api/auth.py:94-97 | `rstrip` removes exactly the trailing whitespace |
| Text.StripTrims | trade/api/auth.py:94-97 | `strip()` gives the contiguous piece of the string that follows its leading whitespace and is followed only by whitespace; it neither starts nor ends with whitespace, and is empty for an all-whitespace string |
| Text.StripKeepsTrimmed | trade/api/auth.py:94-97 | a string without whitespace at either end is left as it is |
| Text.StripIdempotent | trade/api/auth.py:94-97 | stripping twice is stripping once |
| Text.Upper | trade/util.py:261 | `upper()` on ASCII, which every method name in the dispatch table is: keeps the length, maps each letter a to z to its capital, and leaves every other character alone |
| Paginator.NumPages | trade/query_util.py:309-310 | Django's `num_pages` with no orphans and an allowed empty first page: at least 1, 1 for no items, else the fewest pages of the given size that hold every item |
| Paginator.PageSlice | trade/query_util.py:314 | `get_page(p).object_list` for a page in range: at most one page's worth of items, and never empty when there are items |
| Paginator.PageBounds | trade/query_util.py:314 | a page in range starts inside the list and spans at most one page size |
| Paginator.FirstPagesArePrefix | trade/query_util.py:309-314 | the first `k` pages together are the first `k * size` items |
| Paginator.PagesCoverList | trade/query_util.py:309-314 | all pages together, in order, are the whole list: paging loses and repeats nothing |
| Paginator.ThreePagesOfTen | trade/query_util.py:309-314 | 25 items, ten to a page, make three pages, the last holding five |
| QueryUtil.Get | trade/query_util.py:113-114 | `query_dict.get(key)`: `None` exactly when the key is absent, else a value sent under that key |
| QueryUtil.GetDistinct | trade/query_util.py:113-114 | in a query dictionary, whose keys are distinct, `get` gives the one value sent under the key |
| QueryUtil.FieldItems | trade/query_util.py:53-54 | the items for a declared field are exactly the query keys that start with its name and `__`, with their values; there are none exactly when no key starts that way |
| QueryUtil.ClauseFor | trade/query_util.py:68-71 | a key ending in `ne` becomes the negation of an exact match on the key without `ne` plus `exact`; any other key is used as the lookup as it is |
| QueryUtil.QueryFilter | trade/query_util.py:41-78 | the two nested loops compute the filter specification: every item's clause in order, or the first item whose value does not coerce |
| QueryUtil.FieldClauses | trade/query_util.py:55-72 | the inner loop over one field's items continues the filter specification exactly |
| QueryUtil.BuildAccepts | trade/query_util.py:55-72 | the build gives a filter exactly when every item's value coerces; the clauses are then one per item, in order, after the ones already built |
| QueryUtil.BuildRejects | trade/query_util.py:57-62 | a refused build names the first non-`str` item whose value raises ValueError; every earlier item was accepted |
| QueryUtil.ItemsAreDeclared | trade/query_util.py:50-54 | every item comes from a declared field with that field's type, and from a query key that starts with the field's name and `__` |
| QueryUtil.NoSelectedKeysMatchAll | trade/query_util.py:48-54 | when no query key starts with a declared field's name and `__`, the filter is the empty, match-all conjunction |
| QueryUtil.NoItems | trade/query_util.py:50-54 | such a query selects no items at all |
| QueryUtil.NeSuffixNegatesExact | trade/query_util.py:68-71 | `grade__ne` becomes "not `grade__exact`", while `grade__gte` stays a plain `grade__gte` clause |
| QueryUtil.ConjoinClauses | trade/query_util.py:72 | a row satisfies the conjunction of two clause lists exactly when it satisfies each |
| QueryUtil.AllowedOrderKeysMembers | trade/query_util.py:109-112 | the whitelist holds exactly the empty string, each declared field, and each declared field with a `-` prefix |
| QueryUtil.FirstRefused | trade/query_util.py:118-121 | no token is refused exactly when all are whitelisted; otherwise the first token outside the whitelist is named |
| QueryUtil.QueryOrderBy | trade/query_util.py:108-123 | the whitelist loop and the token scan compute the order-by specification: no ordering when `order_by` is absent, the first refused token, or the tokens |
| QueryUtil.OrderByIsSplit | trade/query_util.py:117-122 | accepted tokens come from a present `order_by`; joined with `*` they give it back, and every one is whitelisted |
| QueryUtil.OrderByRoundTrip | trade/query_util.py:117-122 | sending whitelisted tokens joined with `*` passes those very tokens on, in their order |
| QueryUtil.OrderRejectionIsUndeclared | trade/query_util.py:118-121 | a refused token is one of the sent tokens and is outside the whitelist |
| QueryUtil.QueryPage | trade/query_util.py:170-200 | page 1 and the default size unless given; size 10000000 when neither is given, the default when only `page` is; a parsed value is the one used; refused exactly when a given page or size is not an integer or not positive, with the page checked first |
| QueryUtil.PageCheckedFirst | trade/query_util.py:175-183 | a non-integer page is reported even when the page size is bad too |
| QueryUtil.FilterOrderAndList | trade/query_util.py:284-322 | an invalid-filter answer exactly when some lookup is unsupported; invalid order-by exactly when the ordering fails, with no tokens meaning `-id`; otherwise the count before and after filtering (the second at most the first), the page count and the page; the ordered rows are a rearrangement of the matching rows, and the data is the projection of page `page` of them, in order, or empty past the last page |
| QueryUtil.ListedRowsMatch | trade/query_util.py:309-314 | every listed item is the projection of a row of the input that satisfies every clause |
| QueryUtil.CatchListErrors | trade/api/student_auth.py:121-126 | the listing is the success; the two pipeline exceptions become "不合法的order_by" and "不合法的filter" |
| QueryUtil.ListEndpoint | trade/query_util.py:41-200 | a list handler behind the three decorators, applied in order: a refused filter value answers "Sorry, F should be T.", a coercion crash is uncaught, a refused order token answers "Sorry, it is not valid to order by t.", a refused page or page size answers the page message; after them the answer is the pipeline's listing for the built filter, the accepted tokens and the page, or "不合法的filter" / "不合法的order_by" |
| QueryUtil.ListEndpointRowsMatch | trade/query_util.py:292-314 | every item of a successful list is the projection of a scoped row satisfying the query's filter |
| Marks.MarkSets | trade/api/article.py:181 | after a row is added its key is marked |
| Marks.UnmarkClears | trade/api/article.py:196 | deleting a key's rows leaves no row with that key and keeps every other key marked or unmarked as before |
| Marks.MarkThenUnmark | trade/api/article.py:179-196 | adding an unmarked key and deleting it again restores the table exactly |
| Marks.MarkKeepsUnique | trade/api/article.py:179-181 | adding a row only when its key is unmarked keeps keys unique |
| Marks.UnmarkKeepsUnique | trade/api/article.py:196 | deleting keeps keys unique |
| Marks.UniqueKeyCount | trade/api/article.py:273-278 | with unique keys a key is held by at most one row, and by exactly one when it is marked |
| Marks.MarkCount | trade/api/article.py:273-278 | adding a row raises by one every count that includes it and leaves the others |
| Marks.UnmarkCount | trade/api/article.py:273-278 | with unique keys, deleting a marked key lowers by exactly one every count that includes its row |
| Marks.UnmarkFirst | trade/api/article.py:196 | with unique keys, deleting the key of the first row removes just that row |
| Marks.UnmarkCountOthers | trade/api/article.py:273-278 | deleting a key leaves unchanged every count that excludes its rows |
| ArticleApi.Brief | trade/api/article.py:244 | content under 200 characters is shown as it is; longer content as its first 198 characters followed by "..." (201 characters) |
| ArticleApi.BriefIsStable | trade/api/article.py:244 | no brief is longer than 201 characters, and a brief's brief is itself |
| ArticleApi.NewArticle | trade/api/article.py:26-31 | a commodity id naming no commodity is refused with "无效的商品id" and nothing is stored; a title longer than its 50-character column is uncaught and nothing is stored; otherwise the article is stored under the new id |
| ArticleApi.AddOp | trade/api/article.py:179-181 | an operation the user already has on the article is refused and nothing changes; otherwise exactly one row is appended |
| ArticleApi.RemoveOp | trade/api/article.py:194-196 | cancelling an operation the user does not have is refused; otherwise every such row is deleted |
| ArticleApi.StarArticle | trade/api/article.py:178-182 | a second like is refused with "你已经赞过了"; a first appends one like |
| ArticleApi.CancelStarArticle | trade/api/article.py:193-197 | cancelling a missing like is refused with "点赞状态出错"; otherwise the user's likes of the article go |
| ArticleApi.CollectArticle | trade/api/article.py:208-212 | a second bookmark is refused with "你已经收藏过了"; a first appends one bookmark |
| ArticleApi.CancelCollectArticle | trade/api/article.py:223-227 | cancelling a missing bookmark is refused with "收藏状态出错"; otherwise the user's bookmarks of the article go |
| ArticleApi.OpsOn | trade/api/article.py:273-278 | the counted rows are operations of that kind on that article, and every such row is counted |
| ArticleApi.AddOpCounts | trade/api/article.py:273-278 | an accepted like or bookmark raises that count of the article by one and leaves every other count |
| ArticleApi.RemoveOpCounts | trade/api/article.py:273-278 | an accepted cancellation lowers that count by one and leaves every other count, while each user holds an operation at most once |
| ArticleApi.OpsStayUnique | trade/api/article.py:179-181 | through these handlers a user holds each operation on an article at most once |
| ArticleApi.StarCancelRoundTrip | trade/api/article.py:179-196 | liking and then cancelling restores the table exactly |
| ArticleApi.CollectedArticleList | trade/api/article.py:255-269 | the count is the number of the user's bookmarks; the page count is the paginator's; the articles are the projections of page `page` of the user's bookmarks ordered latest first, in that order, and none past the last page |
| ArticleApi.CollectedPageIsNewestFirst | trade/api/article.py:255-263 | the rows behind a page are the user's own bookmarks, in the latest-first order |
| CommentApi.CommentOrder | trade/api/comment.py:24-38 | only the buyer, only a confirmed order, and a refusal changes nothing; a grade outside the 32-bit column is uncaught, with the order already commented and no comment stored; otherwise the order becomes commented and one comment is stored with the grade and the content; the images are linked in order up to the first id that names no file, where the handler raises, and a success links every image |
| CommentApi.FirstMissing | trade/api/comment.py:36-37 | how many images are linked before one raises: every id before it names a file, and the id at it, if any, does not |
| CommentApi.CommentIsLifecycleStep | trade/api/comment.py:27-29 | commenting is the lifecycle's last step, from confirmed to commented |
| CommentApi.AvgGrade | trade/api/comment.py:102-106 | `None` exactly when no comment belongs to an order of the commodity; otherwise the mean grade of those comments |
| CommentApi.SumGradesBounds | trade/api/comment.py:106 | grades from 1 to 5 add up to between one and five times their number |
| CommentApi.AvgGradeInRange | trade/api/comment.py:106 | when every grade is from 1 to 5, the average is between 1 and 5; the handlers do not check grades, so this holds only for such data |
| CommentApi.CommodityCommentList | trade/api/comment.py:88-99 | a successful list counts the comments on the commodity's orders |
| CommentApi.CommentListIsScoped | trade/api/comment.py:92-94 | every listed comment is the projection of a comment on an order of that commodity |
| OrderApi.Advance | trade/api/order.py:169-176 | a step is accepted exactly from its one source status, and then leads to a different status, its target |
| OrderApi.AdvanceMovesForward | trade/api/order.py:194-196 | an accepted step moves the order exactly one place along ordered, paid, delivered, confirmed, commented, and never from or to closed |
| OrderApi.StepNotRepeatable | trade/api/order.py:214-216 | the same step is refused right after it was accepted |
| OrderApi.TerminalStatuses | trade/api/order.py:172-173 | commented and closed orders accept no step |
| OrderApi.OneStepPerStatus | trade/api/order.py:172-173 | each status accepts at most one step, so the steps form a single chain |
| OrderApi.RunProgress | trade/api/order.py:169-220 | a series of calls never moves an order backwards, moves it at most one place per call, and never closes an open order nor reopens a closed one |
| OrderApi.CommentedNeedsFourCalls | trade/api/order.py:169-220 | an ordered order needs at least four calls to be commented |
| OrderApi.SumAddsAppend | trade/api/order.py:22-23 | the surcharges of two chosen lists together are the sum of each list's surcharges |
| OrderApi.CommParaPrice | trade/api/order.py:20-24 | the unit price is the price after the discount plus the surcharge of every chosen parameter, one per occurrence; a parameter id that names no parameter raises |
| OrderApi.CheckParas | trade/api/order.py:27-31 | true exactly when every chosen id names a parameter |
| OrderApi.StatusAfterCreate | trade/api/order.py:68-70 | the commodity ends closed exactly when it was closed or its sale count had reached its total; otherwise its status stays |
| OrderApi.StatusAfterClose | trade/api/order.py:154-156 | a closed commodity goes back on sale exactly when its sale count is below its total; any other status stays |
| OrderApi.CloseUndoesSoldOut | trade/api/order.py:154-156 | a commodity on sale that an order closed as sold out is put back on sale when an order is closed and the sale count is below the total again |
| OrderApi.CeilingLooserThanColumn | trade/api/order.py:54-56 | every non-negative price the 999999.99 column holds passes the 88888888.88 check, and 1000000.00 passes the check without fitting the column |
| OrderApi.CreateOrder | trade/api/order.py:44-71 | a missing parameter is uncaught; a price above 88888888.88 is refused as "非法订单" with no change; the procedure's sale count is kept; an answer of 0 is "sold out"; with a non-zero answer, a price that passes the check but not the price column, a quantity outside 32 bits or an address over 100 characters is uncaught with no change; else a new order of this buyer and commodity with the quantity, price, address and note is stored, with the chosen parameters attached, and the stale commodity is closed when it was sold out |
| OrderApi.Stamp | trade/api/order.py:174-176 | a step keeps the order's identity, buyer, commodity and price, sets the target status, and sets the step's own time stamp |
| OrderApi.ApplyStep | trade/api/order.py:169-176 | a caller without permission is refused with "非法访问！", a wrong status with "订单状态出出错", both without change; otherwise the step with its time stamp is stored |
| OrderApi.PayOrder | trade/api/order.py:169-178 | only the buyer, only from ordered: the order becomes paid with the payment time |
| OrderApi.DeliverOrder | trade/api/order.py:189-200 | only the shop's owner or one of its administrators, only from paid: the order becomes delivered with the delivery time |
| OrderApi.ConfirmOrder | trade/api/order.py:211-220 | only the buyer, only from delivered: the order becomes confirmed with the confirmation time |
| OrderApi.CloseOrder | trade/api/order.py:147-158 | only the buyer, only from ordered, else "订单关闭失败"; the procedure's row for the same order, buyer and commodity and its sale count are kept, and the commodity, read afterwards, goes back on sale when closed with stock left |
| OrderApi.UpdateOrderAddress | trade/api/order.py:125-135 | only the buyer; a database error answers its own text without change; otherwise only the address changes |
| CommodityApi.EveryEntryBecomesParaSet | trade/api/commodity.py:57-58 | each `para_set` entry becomes one option group of the new commodity with that entry's name, under consecutive ids; other groups stay |
| CommodityApi.GroupRows | trade/api/commodity.py:59-60 | one parameter per option, in order, with the option's description and surcharge, under consecutive ids |
| CommodityApi.EveryOptionBecomesParameter | trade/api/commodity.py:56-60 | option `m` of group `j` is the parameter after the options of the earlier groups, with its description, surcharge and group |
| CommodityApi.OptionRowsCount | trade/api/commodity.py:56-60 | the options of all groups make exactly as many parameters as there are options |
| CommodityApi.OptionsBeforePrefix | trade/api/commodity.py:56-60 | counting the options before a group does not depend on the groups after it |
| CommodityApi.StoreAppend | trade/api/commodity.py:56-60 | storing two runs of rows is storing the first, then the second |
| CommodityApi.StoreConsecutive | trade/api/commodity.py:59-60 | rows numbered consecutively land under their own ids, and every other parameter stays |
| CommodityApi.OptionRowIds | trade/api/commodity.py:56-60 | the parameters of a commodity are numbered consecutively |
| CommodityApi.AddedParameter | trade/api/commodity.py:56-60 | after the loops the parameter table grows by exactly the new ids, and each option is stored under its id with its description, surcharge and group |
| CommodityApi.CreateOptions | trade/api/commodity.py:59-60 | the inner loop stores one parameter per option, in order, up to the first option whose description or surcharge does not fit its column, and reports whether it got through all of them; nothing else changes |
| CommodityApi.GroupRowsStep | trade/api/commodity.py:59-60 | one more option adds one more parameter at the end |
| CommodityApi.CreateParaSet | trade/api/commodity.py:58-60 | one entry stores its group (when the name fits) and then its options up to the first that does not fit; it succeeds exactly when the group fits |
| CommodityApi.AddSetsStep | trade/api/commodity.py:57-58 | one more entry adds one more group |
| CommodityApi.OptionRowsStep | trade/api/commodity.py:57-60 | one more entry appends its options after the earlier ones |
| CommodityApi.StoreStep | trade/api/commodity.py:57-60 | one more entry stores its options right after the earlier ones, and the next free id moves past them |
| CommodityApi.ExpandParaSets | trade/api/commodity.py:56-60 | the nested loops succeed exactly when every group fits, and then store every group and every option, numbered in order, and nothing else; otherwise they stop at the first group that does not fit, leaving the groups before it, its own row if its name fits, and the options written before the fault |
| CommodityApi.OptionsFittingIsFirstFault | trade/api/commodity.py:59-60 | the options the inner loop stores before stopping all fit, and the one it stops at does not |
| CommodityApi.FitOrStop | trade/api/commodity.py:56-60 | either every group fits or there is exactly one first group that does not |
| CommodityApi.ExpandEntry | trade/api/commodity.py:57-60 | one pass of the outer loop either stores a fitting group and its options and moves on, or stops at this group with the rows written before the fault |
| CommodityApi.ContinuedPast | trade/api/commodity.py:57-60 | after a fitting group the stored parameters are those of all groups so far, and the next id follows them |
| CommodityApi.StoppedPast | trade/api/commodity.py:57-60 | after a failing group the stored parameters are those of the earlier groups followed by the ones the failing group wrote |
| CommodityApi.FittingGroupWritesAll | trade/api/commodity.py:58-60 | a group that fits writes all its options |
| CommodityApi.RowsWrittenArePrefix | trade/api/commodity.py:56-60 | the parameters written before a fault are a prefix of those a fully successful run writes |
| CommodityApi.AttachImages | trade/api/commodity.py:61-63 | the other images that exist are attached to the commodity; the ones that do not are skipped |
| CommodityApi.AddCommodity | trade/api/commodity.py:33-65 | only the owner or an administrator of the shop; no image raises; a missing first image is refused; an initial status other than not-effective, pre-sale or on-sale is refused; a name over 100 characters, a price or discount beyond `Decimal(8, 2)`, or a stock or trade method outside 32 bits is uncaught with no change; a group or option that does not fit its column is uncaught, with the commodity row and the rows written before the fault kept; otherwise the commodity, its groups, options and images are stored |
| CommodityApi.PassingAllIsSelected | trade/api/commodity.py:315-329 | passing the eight filters in turn is exactly being selected: keyword, price bounds after the discount, status, minimum sale, method, stock |
| CommodityApi.Narrow | trade/api/commodity.py:318-329 | applying one more filter to the rows kept so far keeps the rows passing one more filter |
| CommodityApi.Skip | trade/api/commodity.py:318-329 | a filter the body does not ask for changes nothing |
| CommodityApi.KeptAllIsFound | trade/api/commodity.py:315-329 | the filter chain starts with the whole table and ends with the found commodities |
| CommodityApi.SearchTokens | trade/api/commodity.py:330-334 | at least one token: `-sale` by default, else tokens that joined with `*` give the `order_by` sent |
| CommodityApi.Refine | trade/api/commodity.py:318-329 | one filter step keeps the rows passing one more filter, and never adds a row |
| CommodityApi.FilterCommodities | trade/api/commodity.py:315-329 | the filter chain finds exactly the selected commodities, in table order |
| CommodityApi.SearchCommodities | trade/api/commodity.py:292-350 | an order token naming no field is uncaught; otherwise the count is the number found, the page count is the paginator's, and the data is the page of the ordered results, empty past the last page; never a refusal |
| CommodityApi.SearchFindsOnlySelected | trade/api/commodity.py:335-343 | every commodity on a page passes all of the body's filters and lies in the search's scope |
| CommodityApi.CollectCommodity | trade/api/commodity.py:431-435 | a second bookmark is refused with "你已经收藏过了" and nothing changes; otherwise one record is appended |
| CommodityApi.CancelCollectCommodity | trade/api/commodity.py:446-450 | cancelling a missing bookmark is refused with "收藏状态出错"; otherwise every matching record is removed |
| CommodityApi.CollectCancelRoundTrip | trade/api/commodity.py:432-449 | bookmarking and then cancelling restores the table exactly |
| CommodityApi.CollectsStayUnique | trade/api/commodity.py:432-449 | through these handlers a user bookmarks a commodity at most once, and after a cancellation not at all |
| ReplyApi.NextFloor | trade/api/reply.py:12-15 | 1 for an article without replies; otherwise one above the highest floor of the article, which some reply holds |
| ReplyApi.FirstOnFloor | trade/api/reply.py:31-34 | `None` exactly when no reply of the article is on that floor; otherwise the first such reply in key order |
| ReplyApi.NewReply | trade/api/reply.py:27-41 | a quoted floor that has no reply is refused with "引用的楼层不存在"; a null `ref_floor` is uncaught; otherwise one reply is appended on the next floor, quoting the first reply on the quoted floor |
| ReplyApi.NewFloorIsFresh | trade/api/reply.py:37 | a new reply lands above every floor of its article, so no two replies of an article share a floor |
| ReplyApi.UpdateReply | trade/api/reply.py:63-86 | only the author or an administrator; then a body that is not a JSON object, or is not UTF-8, raises with no change; a missing quoted floor is refused; a database error answers its text; otherwise only the content and the quote change |
| ReplyApi.DeleteReply | trade/api/reply.py:109-114 | only the author or an administrator; the reply goes and the replies quoting it lose their quote |
| ReplyApi.DeleteLeavesNoDangling | trade/api/reply.py:113 | after a deletion no reply has the deleted id or quotes it |
| ReplyApi.DeleteKeepsOthers | trade/api/reply.py:113 | every other reply stays, unchanged except for a quote of the deleted one |
| AuthApi.CheckHeader | trade/api/auth.py:86-90 | the header is accepted exactly when its first four columns strip to username, password, nickname and email; a crash needs fewer than four columns |
| AuthApi.RefusalConditions | trade/api/auth.py:98-121 | each of the eight messages is given exactly when its check fails and every earlier check passes; a line is accepted exactly when all pass |
| AuthApi.CheckLine | trade/api/auth.py:93-128 | one pass of the loop body gives the entry of the line |
| AuthApi.ParseCsvFile | trade/api/auth.py:57-129 | an empty file or a short header crashes; a wrong header gives `None`; otherwise a line with fewer than four columns crashes, else one entry per line in order |
| AuthApi.LineEntriesStep | trade/api/auth.py:91-128 | one more line appends its entry |
| AuthApi.ParseLines | trade/api/auth.py:91-128 | the loop crashes exactly when some line has fewer than four columns; otherwise entry `k` comes from line `k + 1` |
| AuthApi.ParseNextLine | trade/api/auth.py:92-128 | a short line stops the loop; any other appends its entry |
| AuthApi.EntryShape | trade/api/auth.py:98-128 | a refused line names its own index; an account has the stripped, non-empty name, nickname and email with nothing left to strip, an untaken name, a valid email and the hash of a password of 6 to 25 characters |
| AuthApi.ParsedEntriesAreWellFormed | trade/api/auth.py:91-128 | in a parsed file every refused entry names its own line, and every account is well formed |
| AuthApi.HeaderAccepted | trade/api/auth.py:86-90 | four comma-free columns that strip to the four names are accepted, whatever whitespace surrounds them |
| AuthApi.HeaderWordsStrip | trade/api/auth.py:88-89 | the four column names strip to themselves, and the last one does so also with its line break |
| AuthApi.StandardHeaderAccepted | trade/api/auth.py:86-90 | the plain header is accepted with the line break `readlines` leaves on it |
| ShopApi.RegisterShop | trade/api/shop.py:25-33 | a user without a verified student is refused; a taken name, one longer than 30 characters, or a type outside 32 bits breaks the insertion with no change; otherwise the shop is stored with the type as given and without administrators; personal shops (type 0) never have administrators |
| ShopApi.LinkedUsers | trade/api/shop.py:53 | exactly the users linked to the student |
| ShopApi.GetLinkedUser | trade/api/shop.py:53 | `get` finds a user exactly when one user is linked, and reports none exactly when no user is |
| ShopApi.OwnerGate | trade/api/shop.py:47-50 | only the owner of a shop that is not personal passes; others get "你不是店主，没有权限操作", personal shops their own message |
| ShopApi.AddShopAdmin | trade/api/shop.py:45-59 | past the owner gate the linked user is added to the administrators; no linked user is ITEM_NOT_FOUND; several are uncaught |
| ShopApi.DeleteShopAdmin | trade/api/shop.py:71-87 | past the owner gate the linked user, who must be an administrator, is removed, and nobody else |
| ShopApi.InfoOf | trade/api/shop.py:88-95 | a user's id, nickname and student id; the real name is present exactly when the linked student exists, and is then that student's name |
| ShopApi.GetShopDetail | trade/api/shop.py:108-121 | the shop's fields; the owner is shown, as the owner user's info, whenever that user exists (and is that one user when keys are unique); the administrators, exactly those of the shop, are listed only when the shop is not personal |
| StudentAuthApi.FirstAdmin | trade/api/student_auth.py:34 | `None` exactly when no user is an administrator; otherwise the administrator with the lowest key |
| StudentAuthApi.CreateAuthReq | trade/api/student_auth.py:26-39 | a missing image and a taken student id are refused; without an administrator, with a student id over 12 or a name over 10 characters, or with a department, year or gender outside 32 bits, the insertion breaks with no change; otherwise a waiting request is stored, assigned to the first administrator |
| StudentAuthApi.StudentOf | trade/api/student_auth.py:181-182 | the student a passed request creates carries the request's id, name, department, year and gender |
| StudentAuthApi.LinkStudent | trade/api/student_auth.py:183-184 | the requester is linked to the student and every other user stays |
| StudentAuthApi.DecideAuthReq | trade/api/student_auth.py:174-190 | a comment over 200 characters is uncaught with no change; otherwise both outcomes record the time and the comment; a denial creates no student; a pass creates the student and links the requester, or is uncaught when the student id is taken, with the request already saved as passed |
| StudentAuthApi.PassLinksRequester | trade/api/student_auth.py:178-185 | after a pass every link still points at an existing student, and the requester points at the new one |
| StudentAuthApi.DecisionLeavesWaiting | trade/api/student_auth.py:176-189 | a decided request is no longer waiting, is passed exactly when passing, and differs from before only in status, time and comment |
| StudentAuthApi.AdminAuthReqList | trade/api/student_auth.py:115-127 | a successful list counts the requests assigned to the calling administrator |
| StudentAuthApi.AdminListIsScoped | trade/api/student_auth.py:120-122 | every listed request is assigned to the calling administrator |

## Left out

- Authentication: `require_jwt` and `get_user` are not modelled; the acting user is a parameter.
- The `Log` rows the handlers write are not modelled; they are audit records no decision reads.
- The two stored procedures `create_order` and `close_order` are not part of the repository. Their answers are parameters: the id they return, the sale count they leave, and the order row they leave. The model assumes the row `create_order` inserts is new and carries the arguments it is called with, that it inserts exactly when its answer is not 0, and that a failed insertion undoes the whole call. It assumes `close_order` leaves the order under its id, buyer and commodity.
- Concurrency, locking and the atomicity of the stock claim are not modelled: every handler runs alone.
- `trade/models/status.py` is not part of this model: statuses are constructors, so their numeric values and the order of `choices` are not modelled.
- Money is kept in integer cents. The `float()` of `get_comm_para_price` is not modelled, so neither is its rounding.
- CommentApi.AvgGrade: returns the exact mean as a real number, not the database's decimal or float result.
- The ORM is a parameter: which lookups exist, what a clause means for a row, and how `order_by` orders (any permutation).
- QueryUtil.FilterOrderAndList: whether a filter is accepted depends only on its lookup name. A lookup that exists but rejects its value (a non-numeric string for an integer `id`, say) makes the ORM raise ValueError or ValidationError, which nothing catches; the model does not have that case.
- The `custom` handlers of `query_filter` are not modelled: no endpoint of the core passes any.
- `query_distinct` and `default_distinct_helper` are not modelled.
- Util.FilterData: returns the filtered dictionary instead of removing keys from the caller's dictionary in place; no caller of the model shares the dictionary.
- `parse_data`'s JSON decoding is a parameter: the body is given already decoded, as one of the five cases `RequestBody` names.
- Email sending, CSV export, S3 files, the statistics charts and random passwords are not modelled: they are I/O and foreign libraries.
- The file read of `parse_csv_file` and the batch registration around it are not modelled; the file's lines are the input.
- The email regular expression and the password hasher are parameters.
- Handlers not modelled:
  - `login`, `register`;
  - `update_article`, `get_article_detail`, the article lists other than the bookmark list;
  - the comment detail and the administrators' comment list;
  - the order detail and the order lists;
  - `get_article_all_reply`;
  - the commodity detail, update and delete handlers;
  - the parameter and parameter-group handlers;
  - `update_shop_detail`, the shop lists and the shop grade;
  - `get_student_auth_reqs`, the request details and `check_student_id_exist`.

  They read or update one row without a decision worth stating beyond what the modelled handlers already show.
- ShopApi.GetShopDetail: leaves out the registration time, the grade and the image link of the answer.
- Text.Upper: maps only ASCII letters; Python's `str.upper` also maps other letters, and may change the length. It is applied only to HTTP method names.
- Timestamps are parameters (`now`): the model says which field is set, not to what clock value.
- Foreign keys are assumed to resolve: the handlers require the rows the URL and the order name to exist, as the decorators and the database guarantee.
- The result of `check_paras` in `create_order` is ignored, as in the code. A missing parameter then raises in the price computation.
- Several users may be linked to one student, as the schema allows. `get` then raises, and the model reports that as uncaught.
