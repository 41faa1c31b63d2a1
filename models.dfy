/** The rows of the platform's tables and the database holding them. Money is in integer
    cents (the decimal fields have two places); times are abstract instants; a foreign key is
    the referenced row's id, `None` where the column is nullable and empty. Only the columns
    the modelled operations read or write are kept. */
module Models {
  import opened Wrappers

  type Id = int
  type Cents = int
  type Instant = int

  /** The largest magnitude a `DecimalField(max_digits=8, decimal_places=2)` column holds
      (999999.99), in cents. Every price, discount and surcharge column is of that kind. */
  const Decimal82Max: Cents := 99999999

  predicate FitsDecimal82(c: Cents) {
    -Decimal82Max <= c <= Decimal82Max
  }

  /** The range of an `IntegerField` column, a signed 32-bit integer in the database. A value
      outside it makes the database refuse the write with an error nothing catches. */
  const IntegerMin: int := -0x8000_0000
  const IntegerMax: int := 0x7fff_ffff

  predicate FitsInteger(n: int) {
    IntegerMin <= n <= IntegerMax
  }

  /** The `max_length` of the `CharField` columns the handlers write, in characters. A longer
      value makes the database refuse the write with an error nothing catches. */
  const ArticleTitleMax: nat := 50
  const ShopNameMax: nat := 30
  const CommodityNameMax: nat := 100
  const ParaSetNameMax: nat := 50
  const ParameterDescriptionMax: nat := 50
  const OrderAddressMax: nat := 100
  const StudentIdMax: nat := 12
  const StudentNameMax: nat := 10
  const AuthCommentMax: nat := 200

  predicate FitsChars(s: string, max: nat) {
    |s| <= max
  }

  /** A nullable column: `NULL` always fits. */
  predicate FitsOptChars(s: Option<string>, max: nat) {
    s.None? || FitsChars(s.value, max)
  }

  datatype Role = AdminRole | NormalRole

  /** A user; `student` is the verified student identity, if any. */
  datatype User = User(id: Id, username: string, nickname: string, email: string, role: Role, student: Option<string>)

  datatype Student = Student(id: string, name: string, depart: int, attendanceYear: int, gender: int)

  /** The shop types of `Shop.TYPES`. The `type` column is a plain `IntegerField`; nothing
      holds it to these two values, and the handlers only ever test for the personal one. */
  const TypePersonal: int := 0
  const TypeCooperative: int := 1

  datatype Shop = Shop(id: Id, name: string, introduction: Option<string>, shopType: int, owner: Id, admins: set<Id>)

  /** Commodity statuses: not yet effective, pre-sale, on sale, taken off sale. */
  datatype CommStatus = Invalid | PreSell | OnSell | CommClosed

  /** A commodity; the buyer pays `price - discount` plus the surcharges of the chosen
      parameters. `sale` may exceed `total` for a pre-sale commodity. */
  datatype Commodity = Commodity(
    id: Id, name: string, introduction: Option<string>, status: CommStatus,
    total: int, sale: int, price: Cents, discount: Cents,
    shop: Id, tradeMethod: int, image: Id, images: set<Id>)

  /** A group of options for a commodity, such as a size. */
  datatype ParaSet = ParaSet(id: Id, commodity: Id, name: string)

  /** One option of a group with its surcharge. */
  datatype Parameter = Parameter(id: Id, description: string, paraSet: Id, add: Cents)

  /** Order statuses: ordered, paid, delivered, confirmed, commented, closed. */
  datatype OrderStatus = Ordered | Paid | Delivered | Confirmed | Commented | Closed

  datatype Order = Order(
    id: Id, user: Id, commodity: Id, status: OrderStatus, price: Cents, num: int,
    address: Option<string>, note: Option<string>,
    payTime: Option<Instant>, deliverTime: Option<Instant>, confirmTime: Option<Instant>,
    selectParas: set<Id>)

  datatype Comment = Comment(id: Id, order: Id, grade: int, content: Option<string>, images: set<Id>)

  datatype CollectRecord = CollectRecord(user: Id, commodity: Id, opTime: Instant)

  datatype Article = Article(id: Id, user: Id, title: string, content: string, commodity: Option<Id>)

  datatype OpKind = Good | Collect

  /** A like or a bookmark of an article by a user. */
  datatype ArticleOp = ArticleOp(op: OpKind, user: Id, article: Id, opTime: Instant)

  /** A reply on a floor of an article's thread, possibly quoting another reply. */
  datatype Reply = Reply(id: Id, user: Id, article: Id, floor: int, refer: Option<Id>, content: string)

  datatype AuthStatus = Waiting | Passed | Denied

  /** A request to verify a user as a student, assigned to an administrator. */
  datatype StuAuthReq = StuAuthReq(
    id: Id, user: Id, studentId: string, studentName: string, depart: int,
    attendanceYear: int, gender: int, image: Id, admin: Id, status: AuthStatus,
    reqTime: Instant, comment: Option<string>, dealTime: Option<Instant>)

  /** The tables. Tables read in primary-key order (`first()`) or holding rows without a
      meaningful key of their own are sequences in insertion order; the others map ids to rows. */
  class Database {
    var users: seq<User>
    var students: map<string, Student>
    var files: set<Id>
    var shops: map<Id, Shop>
    var commodities: map<Id, Commodity>
    var paraSets: map<Id, ParaSet>
    var parameters: map<Id, Parameter>
    var orders: map<Id, Order>
    var comments: seq<Comment>
    var commCollects: seq<CollectRecord>
    var articles: map<Id, Article>
    var articleOps: seq<ArticleOp>
    var replies: seq<Reply>
    var authReqs: map<Id, StuAuthReq>
  }
}
