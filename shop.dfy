/** Shops: opening one, and the owner's management of the administrators of a cooperative
    shop. */
module ShopApi {
  import opened Wrappers
  import opened Models
  import opened Util
  import opened Seqs

  const NeedStudentMsg: string := "需要先进行学生认证才能开店"
  const NotOwnerMsg: string := "你不是店主，没有权限操作"
  const PersonalNoAddMsg: string := "个人店铺不能增加管理员"
  const PersonalNoDeleteMsg: string := "个人店铺不能删除管理员"
  const NoSuchUserMsg: string := "用户不存在"
  const NotAdminMsg: string := "不存在这个店铺管理员"

  /** Whether some shop already has this name (the column is unique). */
  predicate NameTaken(shops: map<Id, Shop>, name: string) {
    exists id :: id in shops && shops[id].name == name
  }

  /** Personal shops have no administrators. */
  predicate AdminsOnlyNonPersonal(shops: map<Id, Shop>) {
    forall id :: id in shops && shops[id].shopType == TypePersonal ==> shops[id].admins == {}
  }

  /** Whether a new shop row can be inserted: its name is free and fits its column, and its
      type fits the 32-bit column. */
  predicate ShopRowFits(shops: map<Id, Shop>, name: string, shopType: int) {
    !NameTaken(shops, name) && FitsChars(name, ShopNameMax) && FitsInteger(shopType)
  }

  /** `register_shop`, after the body gate: only a verified student may open a shop, which
      starts without administrators. `newId` is the id auto-increment hands out; a name
      already in use or longer than its column, or a type outside the 32-bit column, breaks
      the insertion. Any other type is stored as given. */
  method RegisterShop(db: Database, user: User, name: string, introduction: Option<string>,
                      shopType: int, newId: Id) returns (r: ApiResult<Id>)
    modifies db`shops
    ensures AdminsOnlyNonPersonal(old(db.shops)) ==> AdminsOnlyNonPersonal(db.shops)
    ensures user.student.None? ==> r == Failure(InvalidRequestArgs, NeedStudentMsg) && db.shops == old(db.shops)
    ensures user.student.Some? && !ShopRowFits(old(db.shops), name, shopType) ==> r == Uncaught && db.shops == old(db.shops)
    ensures user.student.Some? && ShopRowFits(old(db.shops), name, shopType) ==> (r == Success(newId)
      && db.shops == old(db.shops)[newId := Shop(newId, name, introduction, shopType, user.id, {})])
  {
    if user.student.None? {
      return Failure(InvalidRequestArgs, NeedStudentMsg);
    }
    if !ShopRowFits(db.shops, name, shopType) {
      return Uncaught;
    }
    db.shops := db.shops[newId := Shop(newId, name, introduction, shopType, user.id, {})];
    return Success(newId);
  }

  /** The users linked to the student with this id (`User.objects.filter(student_id=...)`;
      the link is a plain foreign key, so several users may share one student). */
  function LinkedUsers(users: seq<User>, studentId: string): (r: seq<User>)
    ensures forall i :: 0 <= i < |r| ==> r[i] in users && r[i].student == Some(studentId)
    ensures forall u :: u in users && u.student == Some(studentId) ==> u in r
  {
    Where(users, (u: User) => u.student == Some(studentId))
  }

  /** The outcome of `User.objects.get(student_id=...)`: the one user, or the exception. */
  datatype Lookup = Found(user: User) | NoneFound | SeveralFound

  function GetLinkedUser(users: seq<User>, studentId: string): (r: Lookup)
    ensures r.Found? <==> |LinkedUsers(users, studentId)| == 1
    ensures r.Found? ==> r.user in users && r.user.student == Some(studentId)
    ensures r.NoneFound? <==> forall u :: u in users ==> u.student != Some(studentId)
  {
    var found := LinkedUsers(users, studentId);
    if |found| == 0 then NoneFound else if |found| == 1 then Found(found[0]) else SeveralFound
  }

  /** The owner's check and the shop-type check that open both administrator handlers. */
  function OwnerGate(shop: Shop, user: Id, personalMsg: string): (r: Option<ApiResult<()>>)
    ensures r.None? <==> shop.owner == user && shop.shopType != TypePersonal
    ensures shop.owner != user ==> r == Some(Failure(InvalidRequestArgs, NotOwnerMsg))
    ensures shop.owner == user && shop.shopType == TypePersonal ==> r == Some(Failure(InvalidRequestArgs, personalMsg))
  {
    if shop.owner != user then Some(Failure(InvalidRequestArgs, NotOwnerMsg))
    else if shop.shopType == TypePersonal then Some(Failure(InvalidRequestArgs, personalMsg))
    else None
  }

  /** `add_shop_admin`, after the body gate and the shop check: the owner of a cooperative shop
      adds the user linked to the student. */
  method AddShopAdmin(db: Database, user: Id, shopId: Id, studentId: string) returns (r: ApiResult<()>)
    requires shopId in db.shops
    modifies db`shops
    ensures AdminsOnlyNonPersonal(old(db.shops)) ==> AdminsOnlyNonPersonal(db.shops)
    ensures var shop := old(db.shops[shopId]);
      var lookup := GetLinkedUser(db.users, studentId);
      && (OwnerGate(shop, user, PersonalNoAddMsg).Some? ==> r == OwnerGate(shop, user, PersonalNoAddMsg).value && db.shops == old(db.shops))
      && (OwnerGate(shop, user, PersonalNoAddMsg).None? && lookup.NoneFound? ==> (
            r == Failure(ItemNotFoundError, NoSuchUserMsg) && db.shops == old(db.shops)))
      && (OwnerGate(shop, user, PersonalNoAddMsg).None? && lookup.SeveralFound? ==> r == Uncaught && db.shops == old(db.shops))
      && (OwnerGate(shop, user, PersonalNoAddMsg).None? && lookup.Found? ==> (r == Success(())
            && db.shops == old(db.shops)[shopId := shop.(admins := shop.admins + {lookup.user.id})]))
  {
    var shop := db.shops[shopId];
    var gate := OwnerGate(shop, user, PersonalNoAddMsg);
    if gate.Some? {
      return gate.value;
    }
    var lookup := GetLinkedUser(db.users, studentId);
    if lookup.NoneFound? {
      return Failure(ItemNotFoundError, NoSuchUserMsg);
    }
    if lookup.SeveralFound? {
      return Uncaught;
    }
    shop := shop.(admins := shop.admins + {lookup.user.id});
    db.shops := db.shops[shopId := shop];
    return Success(());
  }

  /** `delete_shop_admin`, after the body gate and the shop check: the owner of a cooperative
      shop removes the user linked to the student, who must be one of its administrators. */
  method DeleteShopAdmin(db: Database, user: Id, shopId: Id, studentId: string) returns (r: ApiResult<()>)
    requires shopId in db.shops
    modifies db`shops
    ensures AdminsOnlyNonPersonal(old(db.shops)) ==> AdminsOnlyNonPersonal(db.shops)
    ensures var shop := old(db.shops[shopId]);
      var lookup := GetLinkedUser(db.users, studentId);
      && (OwnerGate(shop, user, PersonalNoDeleteMsg).Some? ==> (
            r == OwnerGate(shop, user, PersonalNoDeleteMsg).value && db.shops == old(db.shops)))
      && (OwnerGate(shop, user, PersonalNoDeleteMsg).None? && lookup.NoneFound? ==> (
            r == Failure(ItemNotFoundError, NoSuchUserMsg) && db.shops == old(db.shops)))
      && (OwnerGate(shop, user, PersonalNoDeleteMsg).None? && lookup.SeveralFound? ==> r == Uncaught && db.shops == old(db.shops))
      && (OwnerGate(shop, user, PersonalNoDeleteMsg).None? && lookup.Found? && lookup.user.id !in shop.admins ==> (
            r == Failure(InvalidRequestArgs, NotAdminMsg) && db.shops == old(db.shops)))
      && (OwnerGate(shop, user, PersonalNoDeleteMsg).None? && lookup.Found? && lookup.user.id in shop.admins ==> (
            r == Success(()) && db.shops == old(db.shops)[shopId := shop.(admins := shop.admins - {lookup.user.id})]))
  {
    var shop := db.shops[shopId];
    var gate := OwnerGate(shop, user, PersonalNoDeleteMsg);
    if gate.Some? {
      return gate.value;
    }
    var lookup := GetLinkedUser(db.users, studentId);
    if lookup.NoneFound? {
      return Failure(ItemNotFoundError, NoSuchUserMsg);
    }
    if lookup.SeveralFound? {
      return Uncaught;
    }
    if lookup.user.id !in shop.admins {
      return Failure(InvalidRequestArgs, NotAdminMsg);
    }
    shop := shop.(admins := shop.admins - {lookup.user.id});
    db.shops := db.shops[shopId := shop];
    return Success(());
  }

  /** The fields of a user that shop pages show (`user_info_to_dict`). */
  datatype UserInfo = UserInfo(id: Id, nickname: string, studentId: Option<string>, realName: Option<string>)

  function InfoOf(u: User, students: map<string, Student>): (r: UserInfo)
    ensures r.id == u.id && r.nickname == u.nickname && r.studentId == u.student
    ensures r.realName.Some? ==> u.student.Some? && u.student.value in students && r.realName.value == students[u.student.value].name
    ensures u.student.Some? && u.student.value in students ==> r.realName == Some(students[u.student.value].name)
    ensures u.student.None? ==> r.realName.None?
  {
    UserInfo(u.id, u.nickname, u.student,
             if u.student.Some? && u.student.value in students then Some(students[u.student.value].name) else None)
  }

  /** No two users share a key. */
  predicate UniqueUserIds(users: seq<User>) {
    forall i, j :: 0 <= i < |users| && 0 <= j < |users| && users[i].id == users[j].id ==> i == j
  }

  /** What `get_shop_detail` shows, without the registration time, the grade and the image. */
  datatype ShopDetail = ShopDetail(id: Id, name: string, introduction: Option<string>, shopType: int,
                                   owner: Option<UserInfo>, admins: Option<set<UserInfo>>)

  /** `get_shop_detail`, after the shop check: the administrators are listed only for a shop
      that is not personal. */
  function GetShopDetail(shop: Shop, users: seq<User>, students: map<string, Student>): (r: ShopDetail)
    ensures r.id == shop.id && r.name == shop.name && r.introduction == shop.introduction && r.shopType == shop.shopType
    ensures r.admins.Some? <==> shop.shopType != TypePersonal
    ensures r.admins.Some? ==> forall info :: info in r.admins.value <==>
      exists u :: u in users && u.id in shop.admins && info == InfoOf(u, students)
    ensures r.owner.Some? ==> r.owner.value.id == shop.owner
    ensures r.owner.None? <==> forall u :: u in users ==> u.id != shop.owner
    ensures r.owner.Some? ==> exists u :: u in users && u.id == shop.owner && r.owner.value == InfoOf(u, students)
    ensures UniqueUserIds(users) ==> forall u :: u in users && u.id == shop.owner ==> r.owner == Some(InfoOf(u, students))
  {
    var owners := Where(users, (u: User) => u.id == shop.owner);
    var owner := if |owners| > 0 then Some(InfoOf(owners[0], students)) else None;
    var admins := set u | u in users && u.id in shop.admins :: InfoOf(u, students);
    ShopDetail(shop.id, shop.name, shop.introduction, shop.shopType, owner,
               if shop.shopType != TypePersonal then Some(admins) else None)
  }
}
