/** Student verification: a user asks to be recognised as a student, an administrator passes
    or denies the request, and a passed request creates the student and links it to the user. */
module StudentAuthApi {
  import opened Wrappers
  import opened Models
  import opened Util
  import opened Seqs
  import opened QueryUtil

  const ImageMissingMsg: string := "没有找到相应的图片"
  const StudentExistsMsg: string := "该学号已存在"

  /** The fields of a request as the body gives them. */
  datatype AuthBody = AuthBody(studentId: string, studentName: string, depart: int, attendanceYear: int,
                               gender: int, imageId: Id)

  /** `User.objects.filter(role=ROLE_ADMIN).first()`: the administrator with the lowest key. */
  function FirstAdmin(users: seq<User>): (r: Option<User>)
    ensures r.None? <==> forall i :: 0 <= i < |users| ==> users[i].role != AdminRole
    ensures r.Some? ==> exists i :: (0 <= i < |users| && users[i] == r.value && r.value.role == AdminRole
      && forall j :: 0 <= j < i ==> users[j].role != AdminRole)
    decreases |users|
  {
    if |users| == 0 then None
    else if users[0].role == AdminRole then Some(users[0])
    else
      var rest := FirstAdmin(users[1..]);
      assert forall i :: 1 <= i < |users| ==> users[i] == users[1..][i - 1];
      if rest.Some? then
        var i :| 0 <= i < |users[1..]| && users[1..][i] == rest.value
          && forall j :: 0 <= j < i ==> users[1..][j].role != AdminRole;
        assert users[i + 1] == rest.value;
        rest
      else rest
  }

  /** Whether the request row can be inserted: an administrator to send it to, and the
      student id and name within their columns. */
  predicate InsertableReq(body: AuthBody, users: seq<User>) {
    && FirstAdmin(users).Some? && FitsChars(body.studentId, StudentIdMax) && FitsChars(body.studentName, StudentNameMax)
    && FitsInteger(body.depart) && FitsInteger(body.attendanceYear) && FitsInteger(body.gender)
  }

  /** `create_student_auth_req`, after the body gate: the image must exist and the student id
      must be new. The request waits on the first administrator; without one, with a student
      id or name longer than its column, or with a department, year or gender outside the
      32-bit column, the row cannot be inserted. `newId` is the id auto-increment hands out and
      `now` the request time. */
  method CreateAuthReq(db: Database, user: Id, body: AuthBody, now: Instant, newId: Id) returns (r: ApiResult<Id>)
    modifies db`authReqs
    ensures body.imageId !in db.files ==> r == Failure(InvalidRequestArgs, ImageMissingMsg) && db.authReqs == old(db.authReqs)
    ensures body.imageId in db.files && body.studentId in db.students ==> (
      r == Failure(BadRequestError, StudentExistsMsg) && db.authReqs == old(db.authReqs))
    ensures body.imageId in db.files && body.studentId !in db.students && !InsertableReq(body, db.users) ==> (
      r == Uncaught && db.authReqs == old(db.authReqs))
    ensures body.imageId in db.files && body.studentId !in db.students && InsertableReq(body, db.users) ==> (
      r == Success(newId)
      && db.authReqs == old(db.authReqs)[newId := StuAuthReq(newId, user, body.studentId, body.studentName, body.depart,
           body.attendanceYear, body.gender, body.imageId, FirstAdmin(db.users).value.id, Waiting, now, None, None)])
  {
    if body.imageId !in db.files {
      return Failure(InvalidRequestArgs, ImageMissingMsg);
    }
    if body.studentId in db.students {
      return Failure(BadRequestError, StudentExistsMsg);
    }
    var admin := FirstAdmin(db.users);
    if !InsertableReq(body, db.users) {
      return Uncaught;
    }
    db.authReqs := db.authReqs[newId := StuAuthReq(newId, user, body.studentId, body.studentName, body.depart,
      body.attendanceYear, body.gender, body.imageId, admin.value.id, Waiting, now, None, None)];
    return Success(newId);
  }

  /** The student a passed request creates. */
  function StudentOf(req: StuAuthReq): (s: Student)
    ensures s.id == req.studentId && s.name == req.studentName && s.depart == req.depart
    ensures s.attendanceYear == req.attendanceYear && s.gender == req.gender
  {
    Student(req.studentId, req.studentName, req.depart, req.attendanceYear, req.gender)
  }

  /** The user with key `id` linked to the student; every other user as before. */
  function LinkStudent(users: seq<User>, id: Id, studentId: string): (r: seq<User>)
    ensures |r| == |users|
    ensures forall i :: 0 <= i < |users| ==>
      r[i] == (if users[i].id == id then users[i].(student := Some(studentId)) else users[i])
  {
    MapSeq((u: User) => if u.id == id then u.(student := Some(studentId)) else u, users)
  }

  /** `admin_update_student_auth_req_status`, after the request check and the body gate. Both
      outcomes record the time and the comment. Passing saves the request before the student
      row is inserted, so a student id taken in the meantime leaves the request passed and
      breaks the insertion. A comment longer than its column makes the first `save()` raise,
      before anything is written. */
  method DecideAuthReq(db: Database, reqId: Id, pass: bool, comment: Option<string>, now: Instant)
    returns (r: ApiResult<()>)
    requires reqId in db.authReqs
    modifies db`authReqs, db`students, db`users
    ensures !FitsOptChars(comment, AuthCommentMax) ==> (r == Uncaught && db.authReqs == old(db.authReqs)
      && db.students == old(db.students) && db.users == old(db.users))
    ensures FitsOptChars(comment, AuthCommentMax) ==> var req := old(db.authReqs[reqId]);
      var decided := req.(dealTime := Some(now), comment := comment, status := if pass then Passed else Denied);
      && db.authReqs == old(db.authReqs)[reqId := decided]
      && (!pass ==> r == Success(()) && db.students == old(db.students) && db.users == old(db.users))
      && (pass && req.studentId in old(db.students) ==> (
            r == Uncaught && db.students == old(db.students) && db.users == old(db.users)))
      && (pass && req.studentId !in old(db.students) ==> (r == Success(())
            && db.students == old(db.students)[req.studentId := StudentOf(req)]
            && db.users == LinkStudent(old(db.users), req.user, req.studentId)))
  {
    if !FitsOptChars(comment, AuthCommentMax) {
      return Uncaught;
    }
    var req := db.authReqs[reqId];
    req := req.(dealTime := Some(now), comment := comment);
    if pass {
      req := req.(status := Passed);
      db.authReqs := db.authReqs[reqId := req];
      if req.studentId in db.students {
        return Uncaught;
      }
      var student := StudentOf(req);
      db.students := db.students[student.id := student];
      db.users := LinkStudent(db.users, req.user, student.id);
    } else {
      req := req.(status := Denied);
      db.authReqs := db.authReqs[reqId := req];
    }
    return Success(());
  }

  /** Whether every user linked to a student points at a student that exists. */
  predicate LinksResolve(users: seq<User>, students: map<string, Student>) {
    forall i :: 0 <= i < |users| && users[i].student.Some? ==> users[i].student.value in students
  }

  /** A pass keeps every user's link pointing at an existing student, and the requester (when
      registered) ends up linked to the new student, whose fields are the request's. */
  lemma PassLinksRequester(users: seq<User>, students: map<string, Student>, req: StuAuthReq, i: int)
    requires LinksResolve(users, students)
    requires 0 <= i < |users| && users[i].id == req.user
    ensures var users' := LinkStudent(users, req.user, req.studentId);
      var students' := students[req.studentId := StudentOf(req)];
      && LinksResolve(users', students')
      && users'[i].student == Some(req.studentId)
      && students'[users'[i].student.value] == Student(req.studentId, req.studentName, req.depart, req.attendanceYear, req.gender)
  {
  }

  /** A decided request is no longer waiting, whichever way it went. */
  lemma DecisionLeavesWaiting(req: StuAuthReq, pass: bool, comment: Option<string>, now: Instant)
    ensures var decided := req.(dealTime := Some(now), comment := comment, status := if pass then Passed else Denied);
      && decided.status != Waiting && decided.dealTime.Some? && decided.comment == comment
      && (decided.status == Passed <==> pass)
      && decided.(dealTime := req.dealTime, comment := req.comment, status := req.status) == req
  {
  }

  const AdminReqFilterFields: seq<(string, FieldType)> := [("id", IntType), ("user_id", IntType), ("user__nickname", StrType),
    ("status", IntType), ("req_time", StrType), ("student_id", StrType), ("student_name", StrType)]
  const AdminReqOrderFields: seq<string> := ["req_time", "id", "student_id", "user_id"]

  /** `StuAuthReq.objects.filter(admin=user)`, over the table in key order. */
  function AssignedTo(reqs: seq<StuAuthReq>, admin: Id): seq<StuAuthReq> {
    Where(reqs, (q: StuAuthReq) => q.admin == admin)
  }

  /** `get_admin_student_auth_reqs`: the requests assigned to the calling administrator,
      through the listing decorators (page size 10 by default) and the pipeline. */
  function AdminAuthReqList<V, P>(q: QueryDict, reqs: seq<StuAuthReq>, admin: Id,
                                  coerce: (FieldType, string) -> Coercion<V>, parseInt: string -> Option<int>,
                                  orm: Orm<StuAuthReq, V>, project: StuAuthReq -> P): (r: ApiResult<Listing<P>>)
    requires Reorders(orm)
    ensures r.Success? ==> r.data.Listing? && r.data.totCount == |AssignedTo(reqs, admin)|
  {
    ListEndpoint(q, AdminReqFilterFields, AdminReqOrderFields, 10, coerce, parseInt, AssignedTo(reqs, admin), orm, project)
  }

  /** The administrator's list shows only requests assigned to that administrator. */
  lemma AdminListIsScoped<V, P>(q: QueryDict, reqs: seq<StuAuthReq>, admin: Id,
                                coerce: (FieldType, string) -> Coercion<V>, parseInt: string -> Option<int>,
                                orm: Orm<StuAuthReq, V>, project: StuAuthReq -> P, i: int)
    requires Reorders(orm)
    requires AdminAuthReqList(q, reqs, admin, coerce, parseInt, orm, project).Success?
    requires 0 <= i < |AdminAuthReqList(q, reqs, admin, coerce, parseInt, orm, project).data.data|
    ensures exists x :: (x in reqs && x.admin == admin
      && AdminAuthReqList(q, reqs, admin, coerce, parseInt, orm, project).data.data[i] == project(x))
  {
    var rows := AssignedTo(reqs, admin);
    ListEndpointRowsMatch(q, AdminReqFilterFields, AdminReqOrderFields, 10, coerce, parseInt, rows, orm, project, i);
  }
}
