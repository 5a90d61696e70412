/**
 * The account and report routes of server/routers/users.py over the in-memory
 * tables: the cascading deletion of an account and everything that refers to
 * it, the self-service account deletion, the per-user risk history, and the
 * read and delete of one health report.
 */
module Users {
  import opened Wrappers
  import opened Strings
  import opened Lists
  import opened Tables
  import opened Authentication
  import opened Sorting

  /**
   * `_to_float` applied to a Numeric column: the stored value, or 0.0 for NULL
   * (`float(None)` raises and the handler returns 0.0).
   */
  function ToFloat(v: Option<real>): real {
    if v.Some? then v.value else 0.0
  }

  // ---------------------------------------------------------------------
  // Cascading deletion

  /** The HealthDataIDs of the user's HealthData rows, in table order. */
  function HealthIdsOf(health: seq<HealthRecord>, userId: int): (ids: seq<int>)
    ensures forall i :: 0 <= i < |health| && health[i].userId == userId ==> health[i].healthDataId in ids
    ensures forall id :: id in ids ==> exists h :: h in health && h.userId == userId && h.healthDataId == id
  {
    if |health| == 0 then []
    else
      var rest := HealthIdsOf(health[1..], userId);
      assert forall h :: h in health[1..] ==> h in health;
      if health[0].userId == userId then [health[0].healthDataId] + rest else rest
  }

  /** The row filters of the cascade's DELETE statements. */
  function RecommendationOn(ids: seq<int>): RecommendationRow -> bool {
    (c: RecommendationRow) => c.healthDataId in ids
  }

  function PredictionOn(ids: seq<int>): PredictionRow -> bool {
    (p: PredictionRow) => p.healthDataId in ids
  }

  function HealthOf(userId: int): HealthRecord -> bool {
    (h: HealthRecord) => h.userId == userId
  }

  function TokenOf(userId: int): ValidationToken -> bool {
    (t: ValidationToken) => t.userId == userId
  }

  function MappingOf(userId: int): UserRole -> bool {
    (m: UserRole) => m.userId == userId
  }

  function AccountWithId(userId: int): UserAccount -> bool {
    (u: UserAccount) => u.userId == userId
  }

  /** The number of DELETE statements the cascade issues. */
  const CascadeSteps := 6

  /**
   * The tables after the first k DELETE statements of `_delete_user_data`, in
   * the order the code issues them: the recommendations and then the
   * predictions on the user's health records, the user's HealthData rows (these
   * three only when the user has health data), the validation tokens, the role
   * mappings, and last the account itself.
   */
  function Stage(db: Db, userId: int, ids: seq<int>, k: nat): Db
    requires k <= CascadeSteps
    decreases k
  {
    if k == 0 then db
    else
      var d := Stage(db, userId, ids, k - 1);
      if k == 1 then (if ids == [] then d else d.(recommendations := Remove(d.recommendations, RecommendationOn(ids))))
      else if k == 2 then (if ids == [] then d else d.(predictions := Remove(d.predictions, PredictionOn(ids))))
      else if k == 3 then (if ids == [] then d else d.(health := Remove(d.health, HealthOf(userId))))
      else if k == 4 then d.(tokens := Remove(d.tokens, TokenOf(userId)))
      else if k == 5 then d.(userRoles := Remove(d.userRoles, MappingOf(userId)))
      else d.(users := Remove(d.users, AccountWithId(userId)))
  }

  /** The tables once the whole cascade for the account has been committed. */
  function Cascade(db: Db, userId: int): Db {
    Stage(db, userId, HealthIdsOf(db.health, userId), CascadeSteps)
  }

  /** The deletion report: table counts in the order the dictionary is filled. */
  type Report = seq<(string, int)>

  function DeletionReport(db: Db, userId: int): Report {
    HealthReport(db, userId) + AccountReport(db, userId)
  }

  /** The counts of the first three DELETE statements, present only when the account has health data. */
  function HealthReport(db: Db, userId: int): Report {
    var ids := HealthIdsOf(db.health, userId);
    if ids == [] then []
    else [("recommendations_deleted", Count(db.recommendations, RecommendationOn(ids))),
          ("predictions_deleted", Count(db.predictions, PredictionOn(ids))),
          ("health_data_deleted", Count(db.health, HealthOf(userId)))]
  }

  function AccountReport(db: Db, userId: int): Report {
    [("validation_tokens_deleted", Count(db.tokens, TokenOf(userId))),
     ("user_roles_deleted", Count(db.userRoles, MappingOf(userId))),
     ("users_deleted", 1)]
  }

  /**
   * The "User not found." raised inside the try block is caught by the generic
   * handler and surfaces as a 500 carrying its text.
   */
  const DeleteUserNotFound := HttpError(500, "Failed to delete user data: 404: User not found.")

  /**
   * The first three DELETE statements of `_delete_user_data`, issued only when
   * the account has health data; the report gains their counts.
   */
  method DeleteHealthRows(db: Database, userId: int, ids: seq<int>) returns (report: Report)
    requires ids == HealthIdsOf(db.health, userId)
    modifies db
    ensures db.State() == Stage(old(db.State()), userId, ids, 3)
    ensures report == HealthReport(old(db.State()), userId)
    ensures db.users == old(db.users) && db.tokens == old(db.tokens) && db.userRoles == old(db.userRoles)
    ensures db.nextId == old(db.nextId)
  {
    ghost var before := db.State();
    report := [];
    if ids != [] {
      var recs := Count(db.recommendations, RecommendationOn(ids));
      db.recommendations := Remove(db.recommendations, RecommendationOn(ids));
      report := report + [("recommendations_deleted", recs)];
      assert db.State() == Stage(before, userId, ids, 1);
      var preds := Count(db.predictions, PredictionOn(ids));
      db.predictions := Remove(db.predictions, PredictionOn(ids));
      report := report + [("predictions_deleted", preds)];
      assert db.State() == Stage(before, userId, ids, 2);
      var healthRows := Count(db.health, HealthOf(userId));
      db.health := Remove(db.health, HealthOf(userId));
      report := report + [("health_data_deleted", healthRows)];
    } else {
      assert db.State() == Stage(before, userId, ids, 2);
    }
  }

  /**
   * `_delete_user_data`: an unknown account is a 500 and nothing changes;
   * otherwise the DELETE statements run in cascade order and the report counts
   * the rows each one removed.
   */
  method DeleteUserData(db: Database, userId: int) returns (r: Result<Report, HttpError>)
    modifies db
    ensures UserById(old(db.users), userId).None? ==>
      r == Err(DeleteUserNotFound) && db.State() == old(db.State())
    ensures UserById(old(db.users), userId).Some? ==>
      r == Ok(DeletionReport(old(db.State()), userId)) && db.State() == Cascade(old(db.State()), userId)
    ensures db.nextId == old(db.nextId)
  {
    var user := UserById(db.users, userId);
    if user.None? {
      return Err(DeleteUserNotFound);
    }
    ghost var before := db.State();
    var ids := HealthIdsOf(db.health, userId);
    var report := DeleteHealthRows(db, userId, ids);
    var tokens := Count(db.tokens, TokenOf(userId));
    db.tokens := Remove(db.tokens, TokenOf(userId));
    report := report + [("validation_tokens_deleted", tokens)];
    assert db.State() == Stage(before, userId, ids, 4);
    var mappings := Count(db.userRoles, MappingOf(userId));
    db.userRoles := Remove(db.userRoles, MappingOf(userId));
    report := report + [("user_roles_deleted", mappings)];
    assert db.State() == Stage(before, userId, ids, 5);
    db.users := Remove(db.users, AccountWithId(userId));
    report := report + [("users_deleted", 1)];
    assert report == HealthReport(before, userId) + AccountReport(before, userId);
    assert db.State() == Stage(before, userId, ids, 6);
    return Ok(report);
  }

  /** Each table after k steps: removed by its own step once that step has run, untouched before. */
  lemma {:induction false} StageShape(db: Db, userId: int, ids: seq<int>, k: nat)
    requires k <= CascadeSteps
    ensures var d := Stage(db, userId, ids, k);
      d.roles == db.roles &&
      d.recommendations == (if k >= 1 && ids != [] then Remove(db.recommendations, RecommendationOn(ids)) else db.recommendations) &&
      d.predictions == (if k >= 2 && ids != [] then Remove(db.predictions, PredictionOn(ids)) else db.predictions) &&
      d.health == (if k >= 3 && ids != [] then Remove(db.health, HealthOf(userId)) else db.health) &&
      d.tokens == (if k >= 4 then Remove(db.tokens, TokenOf(userId)) else db.tokens) &&
      d.userRoles == (if k >= 5 then Remove(db.userRoles, MappingOf(userId)) else db.userRoles) &&
      d.users == (if k >= 6 then Remove(db.users, AccountWithId(userId)) else db.users)
    decreases k
  {
    if k > 0 {
      StageShape(db, userId, ids, k - 1);
    }
  }

  /** The rows each table holds after k steps: those of the original that no step run so far has deleted. */
  lemma StageMembers(db: Db, userId: int, k: nat)
    requires k <= CascadeSteps
    ensures var ids := HealthIdsOf(db.health, userId);
      var d := Stage(db, userId, ids, k);
      d.roles == db.roles &&
      (forall c :: c in d.recommendations <==> c in db.recommendations && !(k >= 1 && c.healthDataId in ids)) &&
      (forall p :: p in d.predictions <==> p in db.predictions && !(k >= 2 && p.healthDataId in ids)) &&
      (forall h :: h in d.health <==> h in db.health && !(k >= 3 && h.userId == userId)) &&
      (forall t :: t in d.tokens <==> t in db.tokens && !(k >= 4 && t.userId == userId)) &&
      (forall m :: m in d.userRoles <==> m in db.userRoles && !(k >= 5 && m.userId == userId)) &&
      (forall u :: u in d.users <==> u in db.users && !(k >= 6 && u.userId == userId))
  {
    var ids := HealthIdsOf(db.health, userId);
    StageShape(db, userId, ids, k);
    RemoveMembers(db.recommendations, RecommendationOn(ids));
    RemoveMembers(db.predictions, PredictionOn(ids));
    RemoveMembers(db.health, HealthOf(userId));
    RemoveMembers(db.tokens, TokenOf(userId));
    RemoveMembers(db.userRoles, MappingOf(userId));
    RemoveMembers(db.users, AccountWithId(userId));
    if ids == [] {
      forall h | h in db.health ensures h.userId != userId {
        var i :| 0 <= i < |db.health| && db.health[i] == h;
      }
    }
  }

  /**
   * Every step of the cascade leaves the foreign keys valid: dependent rows
   * always go before the rows they refer to.
   */
  lemma StageConsistent(db: Db, userId: int, k: nat)
    requires Consistent(db) && k <= CascadeSteps
    ensures Consistent(Stage(db, userId, HealthIdsOf(db.health, userId), k))
  {
    var ids := HealthIdsOf(db.health, userId);
    var d := Stage(db, userId, ids, k);
    StageMembers(db, userId, k);
    forall p | p in d.predictions ensures exists h :: h in d.health && h.healthDataId == p.healthDataId {
      var h :| h in db.health && h.healthDataId == p.healthDataId;
      if h.userId == userId {
        var i :| 0 <= i < |db.health| && db.health[i] == h;
      }
      assert h in d.health;
    }
    forall c | c in d.recommendations ensures exists h :: h in d.health && h.healthDataId == c.healthDataId {
      var h :| h in db.health && h.healthDataId == c.healthDataId;
      if h.userId == userId {
        var i :| 0 <= i < |db.health| && db.health[i] == h;
      }
      assert h in d.health;
    }
    forall x | x in d.health ensures exists u :: u in d.users && u.userId == x.userId {
      var u :| u in db.users && u.userId == x.userId;
      assert u in d.users;
    }
    forall t | t in d.tokens ensures exists u :: u in d.users && u.userId == t.userId {
      var u :| u in db.users && u.userId == t.userId;
      assert u in d.users;
    }
    forall m | m in d.userRoles ensures exists u :: u in d.users && u.userId == m.userId {
      var u :| u in db.users && u.userId == m.userId;
      assert u in d.users;
    }
  }

  /** The whole cascade keeps every foreign key valid. */
  lemma CascadeConsistent(db: Db, userId: int)
    requires Consistent(db)
    ensures Consistent(Cascade(db, userId))
  {
    StageConsistent(db, userId, CascadeSteps);
  }

  /**
   * Nothing of the account remains: no account row with its id, no token, role
   * mapping or HealthData row of it, and no prediction or recommendation on one
   * of its health records.
   */
  lemma CascadeRemovesUser(db: Db, userId: int)
    ensures var d := Cascade(db, userId);
      (forall u :: u in d.users ==> u.userId != userId) &&
      (forall t :: t in d.tokens ==> t.userId != userId) &&
      (forall m :: m in d.userRoles ==> m.userId != userId) &&
      (forall h :: h in d.health ==> h.userId != userId) &&
      (forall p, h :: p in d.predictions && h in db.health && h.userId == userId ==> p.healthDataId != h.healthDataId) &&
      (forall c, h :: c in d.recommendations && h in db.health && h.userId == userId ==> c.healthDataId != h.healthDataId)
  {
    var ids := HealthIdsOf(db.health, userId);
    StageMembers(db, userId, CascadeSteps);
    forall h | h in db.health && h.userId == userId ensures h.healthDataId in ids {
      var i :| 0 <= i < |db.health| && db.health[i] == h;
    }
  }

  /**
   * Other accounts are untouched: the roles table is unchanged, every row of
   * another account stays, as does every prediction and recommendation on a
   * health record the account does not own, and no row is added.
   */
  lemma CascadeKeepsOthers(db: Db, userId: int)
    ensures var d := Cascade(db, userId);
      d.roles == db.roles &&
      (forall u :: u in db.users && u.userId != userId ==> u in d.users) &&
      (forall t :: t in db.tokens && t.userId != userId ==> t in d.tokens) &&
      (forall m :: m in db.userRoles && m.userId != userId ==> m in d.userRoles) &&
      (forall h :: h in db.health && h.userId != userId ==> h in d.health) &&
      (forall p :: p in db.predictions && (forall h :: h in db.health && h.healthDataId == p.healthDataId ==> h.userId != userId)
         ==> p in d.predictions) &&
      (forall c :: c in db.recommendations && (forall h :: h in db.health && h.healthDataId == c.healthDataId ==> h.userId != userId)
         ==> c in d.recommendations) &&
      (forall u :: u in d.users ==> u in db.users) &&
      (forall t :: t in d.tokens ==> t in db.tokens) &&
      (forall m :: m in d.userRoles ==> m in db.userRoles) &&
      (forall h :: h in d.health ==> h in db.health) &&
      (forall p :: p in d.predictions ==> p in db.predictions) &&
      (forall c :: c in d.recommendations ==> c in db.recommendations)
  {
    var ids := HealthIdsOf(db.health, userId);
    StageMembers(db, userId, CascadeSteps);
    forall p | p in db.predictions && (forall h :: h in db.health && h.healthDataId == p.healthDataId ==> h.userId != userId)
      ensures p.healthDataId !in ids
    {
    }
    forall c | c in db.recommendations && (forall h :: h in db.health && h.healthDataId == c.healthDataId ==> h.userId != userId)
      ensures c.healthDataId !in ids
    {
    }
  }

  /** The account has HealthData rows exactly when their id list is non-empty. */
  lemma HasHealthData(health: seq<HealthRecord>, userId: int)
    ensures HealthIdsOf(health, userId) != [] <==> exists h :: h in health && h.userId == userId
  {
    var ids := HealthIdsOf(health, userId);
    if exists h :: h in health && h.userId == userId {
      var h :| h in health && h.userId == userId;
      var i :| 0 <= i < |health| && health[i] == h;
      assert h.healthDataId in ids;
    }
    if ids != [] {
      assert ids[0] in ids;
    }
  }

  /**
   * The report carries the three health counts exactly when the account had
   * health data, and each is the number of rows its table lost.
   */
  lemma HealthReportCounts(db: Db, userId: int)
    ensures var rep := HealthReport(db, userId);
      var d := Cascade(db, userId);
      (rep != [] <==> exists h :: h in db.health && h.userId == userId) &&
      (rep != [] ==>
        rep == [("recommendations_deleted", |db.recommendations| - |d.recommendations|),
                ("predictions_deleted", |db.predictions| - |d.predictions|),
                ("health_data_deleted", |db.health| - |d.health|)])
  {
    var ids := HealthIdsOf(db.health, userId);
    HasHealthData(db.health, userId);
    if ids != [] {
      var d := Cascade(db, userId);
      StageShape(db, userId, ids, CascadeSteps);
      RemoveCount(db.recommendations, RecommendationOn(ids));
      RemoveCount(db.predictions, PredictionOn(ids));
      RemoveCount(db.health, HealthOf(userId));
      assert Count(db.recommendations, RecommendationOn(ids)) == |db.recommendations| - |d.recommendations|;
      assert Count(db.predictions, PredictionOn(ids)) == |db.predictions| - |d.predictions|;
      assert Count(db.health, HealthOf(userId)) == |db.health| - |d.health|;
    }
  }

  /**
   * The report always ends with the token and role-mapping counts, each the
   * number of rows its table lost, and users_deleted = 1.
   */
  lemma AccountReportCounts(db: Db, userId: int)
    ensures var d := Cascade(db, userId);
      AccountReport(db, userId) ==
        [("validation_tokens_deleted", |db.tokens| - |d.tokens|),
         ("user_roles_deleted", |db.userRoles| - |d.userRoles|),
         ("users_deleted", 1)]
  {
    StageShape(db, userId, HealthIdsOf(db.health, userId), CascadeSteps);
    RemoveCount(db.tokens, TokenOf(userId));
    RemoveCount(db.userRoles, MappingOf(userId));
  }

  /**
   * `delete_user`: the session must be valid (401 otherwise) and carry a
   * non-blank email (401 "Invalid credentials"); the account it names is then
   * deleted with everything that refers to it. The 404 for an unknown account
   * cannot be reached, because a valid session names an existing account.
   */
  method DeleteUser(db: Database, cookie: Cookie, host: string) returns (r: Result<string, HttpError>)
    modifies db
    ensures CurrentUser(old(db.State()), cookie, host).Err? ==>
      r == Err(CredentialsError) && db.State() == old(db.State())
    ensures CurrentUser(old(db.State()), cookie, host).Ok? && Strip(cookie.claims.email) == "" ==>
      r == Err(HttpError(401, "Invalid credentials")) && db.State() == old(db.State())
    ensures r.Ok? <==> CurrentUser(old(db.State()), cookie, host).Ok? && Strip(cookie.claims.email) != ""
    ensures r.Ok? ==>
      r.value == "User and all related data deleted successfully" &&
      db.State() == Cascade(old(db.State()), UserByEmail(old(db.users), cookie.claims.email).value.userId)
  {
    var current := CurrentUser(db.State(), cookie, host);
    if current.Err? {
      return Err(current.error);
    }
    if Strip(current.value.email) == "" {
      return Err(HttpError(401, "Invalid credentials"));
    }
    var user := UserByEmail(db.users, current.value.email).value;
    var _ := DeleteUserData(db, user.userId);
    return Ok("User and all related data deleted successfully");
  }

  // ---------------------------------------------------------------------
  // Risk history

  /** One entry of the analytics answer; the creation time is kept as a timestamp. */
  datatype HealthMetric = HealthMetric(
    date: int,
    strokeProbability: real,
    cardioProbability: real,
    diabetesProbability: real)

  /** The join condition: the prediction is on one of the user's HealthData rows. */
  function OwnedBy(health: seq<HealthRecord>, userId: int): PredictionRow -> bool {
    (p: PredictionRow) => exists h :: h in health && h.healthDataId == p.healthDataId && h.userId == userId
  }

  function PredictionTime(p: PredictionRow): int {
    p.createdAt
  }

  function MetricOf(p: PredictionRow): HealthMetric {
    HealthMetric(p.createdAt, ToFloat(p.strokeChance), ToFloat(p.cvdChance), ToFloat(p.diabetesChance))
  }

  /** The user's predictions ordered by creation time, each turned into a metric. */
  function HealthAnalytics(db: Db, userId: int): seq<HealthMetric> {
    var rows := SortBy(Filter(db.predictions, OwnedBy(db.health, userId)), PredictionTime);
    seq(|rows|, i requires 0 <= i < |rows| => MetricOf(rows[i]))
  }

  /** `get_health_analytics`: a valid session is required; the answer is the session user's history. */
  function GetHealthAnalytics(db: Db, cookie: Cookie, host: string): (r: Result<seq<HealthMetric>, HttpError>)
    ensures r.Err? <==> CurrentUser(db, cookie, host).Err?
    ensures r.Err? ==> r.error == CredentialsError
    ensures r.Ok? ==> r.value == HealthAnalytics(db, UserByEmail(db.users, cookie.claims.email).value.userId)
  {
    var current := CurrentUser(db, cookie, host);
    if current.Err? then Err(current.error)
    else Ok(HealthAnalytics(db, UserByEmail(db.users, current.value.email).value.userId))
  }

  /** The history is in ascending order of prediction time. */
  lemma AnalyticsAscending(db: Db, userId: int)
    ensures var r := HealthAnalytics(db, userId);
      forall i, j :: 0 <= i < j < |r| ==> r[i].date <= r[j].date
  {
    SortBySorted(Filter(db.predictions, OwnedBy(db.health, userId)), PredictionTime);
  }

  /**
   * One entry per prediction of the user: every such prediction appears, with
   * its chances (NULL read as 0.0), and every entry comes from one.
   */
  lemma AnalyticsOnePerPrediction(db: Db, userId: int)
    ensures var r := HealthAnalytics(db, userId);
      var owned := OwnedBy(db.health, userId);
      |r| == |Filter(db.predictions, owned)| &&
      (forall p :: p in db.predictions && owned(p) ==> MetricOf(p) in r) &&
      (forall i :: 0 <= i < |r| ==> (exists p :: p in db.predictions && owned(p) && r[i] == MetricOf(p)))
  {
    var owned := Filter(db.predictions, OwnedBy(db.health, userId));
    var rows := SortBy(owned, PredictionTime);
    var r := HealthAnalytics(db, userId);
    FilterMembers(db.predictions, OwnedBy(db.health, userId));
    forall p | p in db.predictions && OwnedBy(db.health, userId)(p) ensures MetricOf(p) in r {
      assert p in multiset(rows);
      var j :| 0 <= j < |rows| && rows[j] == p;
      assert r[j] == MetricOf(p);
    }
    forall i | 0 <= i < |r|
      ensures exists p :: p in db.predictions && OwnedBy(db.health, userId)(p) && r[i] == MetricOf(p)
    {
      assert rows[i] in multiset(owned);
      assert rows[i] in owned;
    }
  }

  // ---------------------------------------------------------------------
  // One health report

  /** The Report model of `get_report_data`. */
  datatype ReportData = ReportData(
    age: int,
    weight: real,
    height: real,
    gender: int,
    bloodGlucose: real,
    apHi: real,
    apLo: real,
    highCholesterol: int,
    hyperTension: int,
    heartDisease: int,
    diabetes: int,
    alcohol: int,
    smoker: int,
    maritalStatus: int,
    workingStatus: int,
    strokeChance: real,
    cvdChance: real,
    diabetesChance: real,
    exercise: Option<string>,
    diet: Option<string>,
    lifestyle: Option<string>,
    dietToAvoid: Option<string>)

  /** `int(x or 0)` on an Integer column. */
  function IntOrZero(v: Option<int>): int {
    if v.Some? then v.value else 0
  }

  /** `int(1 if bool(x or False) else 0)` on a Boolean column. */
  function Bit(v: Option<bool>): (b: int)
    ensures b == 0 || b == 1
    ensures b == 1 <==> v == Some(true)
  {
    if v == Some(true) then 1 else 0
  }

  /**
   * The recommendation `order_by(CreatedAt.desc()).first()` returns: one on the
   * record with the latest creation time (the first in table order among
   * equals), or none.
   */
  function LatestRecommendation(recs: seq<RecommendationRow>, healthDataId: int): (r: Option<RecommendationRow>)
    ensures r.None? <==> forall c :: c in recs ==> c.healthDataId != healthDataId
    ensures r.Some? ==>
      r.value in recs && r.value.healthDataId == healthDataId &&
      forall c :: c in recs && c.healthDataId == healthDataId ==> c.createdAt <= r.value.createdAt
  {
    if |recs| == 0 then None
    else
      var rest := LatestRecommendation(recs[1..], healthDataId);
      assert forall c :: c in recs ==> c == recs[0] || c in recs[1..];
      if recs[0].healthDataId != healthDataId then rest
      else if rest.Some? && rest.value.createdAt > recs[0].createdAt then rest
      else Some(recs[0])
  }

  /** x is what `float(v or 0)` reads from a Numeric column: the stored value, or 0 for NULL. */
  predicate ReadsReal(x: real, v: Option<real>) {
    (v.Some? ==> x == v.value) && (v.None? ==> x == 0.0)
  }

  /** x is what `int(v or 0)` reads from an Integer column: the stored value, or 0 for NULL. */
  predicate ReadsInt(x: int, v: Option<int>) {
    (v.Some? ==> x == v.value) && (v.None? ==> x == 0)
  }

  /** b is what `int(1 if bool(v or False) else 0)` reads from a Boolean column. */
  predicate ReadsBit(b: int, v: Option<bool>) {
    (b == 0 || b == 1) && (b == 1 <==> v == Some(true))
  }

  const ReportDataNotFound := HttpError(404, "Report data not found")

  /**
   * `get_report_data`: 404 for an unknown record. Otherwise NULL numbers read
   * as 0, every yes/no column becomes 0 or 1, the chances come from the
   * record's prediction (0 without one) and the advice from its latest
   * recommendation (all None without one).
   */
  function GetReportData(db: Db, healthDataId: int): (r: Result<ReportData, HttpError>)
    ensures r.Err? <==> HealthById(db.health, healthDataId).None?
    ensures r.Err? ==> r.error == ReportDataNotFound
    ensures r.Ok? ==>
      var h := HealthById(db.health, healthDataId).value;
      var rep := r.value;
      ReadsInt(rep.age, h.age) && ReadsReal(rep.weight, h.weight) && ReadsReal(rep.height, h.height) &&
      ReadsReal(rep.bloodGlucose, h.bloodGlucose) && ReadsReal(rep.apHi, h.apHigh) && ReadsReal(rep.apLo, h.apLow) &&
      ReadsBit(rep.gender, h.gender) && ReadsBit(rep.highCholesterol, h.highCholesterol) &&
      ReadsBit(rep.hyperTension, h.hyperTension) && ReadsBit(rep.heartDisease, h.heartDisease) &&
      ReadsBit(rep.diabetes, h.diabetes) && ReadsBit(rep.alcohol, h.alcohol) &&
      ReadsInt(rep.smoker, h.smokingStatus) && ReadsInt(rep.maritalStatus, h.maritalStatus) &&
      ReadsInt(rep.workingStatus, h.workingStatus) &&
      (PredictionFor(db.predictions, healthDataId).None? ==>
         rep.strokeChance == 0.0 && rep.cvdChance == 0.0 && rep.diabetesChance == 0.0) &&
      (PredictionFor(db.predictions, healthDataId).Some? ==>
         var p := PredictionFor(db.predictions, healthDataId).value;
         ReadsReal(rep.strokeChance, p.strokeChance) && ReadsReal(rep.cvdChance, p.cvdChance) &&
         ReadsReal(rep.diabetesChance, p.diabetesChance)) &&
      (LatestRecommendation(db.recommendations, healthDataId).None? ==>
         rep.exercise.None? && rep.diet.None? && rep.lifestyle.None? && rep.dietToAvoid.None?) &&
      (LatestRecommendation(db.recommendations, healthDataId).Some? ==>
         var c := LatestRecommendation(db.recommendations, healthDataId).value;
         rep.exercise == c.exercise && rep.diet == c.diet && rep.lifestyle == c.lifestyle &&
         rep.dietToAvoid == c.dietToAvoid)
  {
    var found := HealthById(db.health, healthDataId);
    if found.None? then Err(ReportDataNotFound)
    else
      var h := found.value;
      var p := PredictionFor(db.predictions, healthDataId);
      var c := LatestRecommendation(db.recommendations, healthDataId);
      Ok(ReportData(
        IntOrZero(h.age), ToFloat(h.weight), ToFloat(h.height), Bit(h.gender),
        ToFloat(h.bloodGlucose), ToFloat(h.apHigh), ToFloat(h.apLow),
        Bit(h.highCholesterol), Bit(h.hyperTension), Bit(h.heartDisease), Bit(h.diabetes), Bit(h.alcohol),
        IntOrZero(h.smokingStatus), IntOrZero(h.maritalStatus), IntOrZero(h.workingStatus),
        if p.Some? then ToFloat(p.value.strokeChance) else 0.0,
        if p.Some? then ToFloat(p.value.cvdChance) else 0.0,
        if p.Some? then ToFloat(p.value.diabetesChance) else 0.0,
        if c.Some? then c.value.exercise else None,
        if c.Some? then c.value.diet else None,
        if c.Some? then c.value.lifestyle else None,
        if c.Some? then c.value.dietToAvoid else None))
  }

  function HealthWithId(healthDataId: int): HealthRecord -> bool {
    (h: HealthRecord) => h.healthDataId == healthDataId
  }

  /** The tables after the three DELETE statements of `delete_report_data`. */
  function WithoutReport(db: Db, healthDataId: int): Db {
    db.(recommendations := Remove(db.recommendations, RecommendationOn([healthDataId])),
        predictions := Remove(db.predictions, PredictionOn([healthDataId])),
        health := Remove(db.health, HealthWithId(healthDataId)))
  }

  const ReportNotFound := HttpError(404, "Health report not found")

  /**
   * `delete_report_data`: 404 for an unknown record and nothing changes;
   * otherwise the record's recommendations, then its predictions, then the
   * record itself are deleted.
   */
  method DeleteReportData(db: Database, healthDataId: int) returns (r: Result<string, HttpError>)
    modifies db
    ensures HealthById(old(db.health), healthDataId).None? ==>
      r == Err(ReportNotFound) && db.State() == old(db.State())
    ensures HealthById(old(db.health), healthDataId).Some? ==>
      r == Ok("Health report data successfully deleted") &&
      db.State() == WithoutReport(old(db.State()), healthDataId)
    ensures db.nextId == old(db.nextId)
  {
    var found := HealthById(db.health, healthDataId);
    if found.None? {
      return Err(ReportNotFound);
    }
    db.recommendations := Remove(db.recommendations, RecommendationOn([healthDataId]));
    db.predictions := Remove(db.predictions, PredictionOn([healthDataId]));
    db.health := Remove(db.health, HealthWithId(healthDataId));
    return Ok("Health report data successfully deleted");
  }

  /**
   * Only that record goes: nothing with its id remains, every other health
   * record, prediction and recommendation stays, and the account tables are
   * unchanged.
   */
  lemma ReportRemoved(db: Db, healthDataId: int)
    ensures var d := WithoutReport(db, healthDataId);
      d.users == db.users && d.roles == db.roles && d.userRoles == db.userRoles && d.tokens == db.tokens &&
      HealthById(d.health, healthDataId).None? &&
      PredictionFor(d.predictions, healthDataId).None? &&
      LatestRecommendation(d.recommendations, healthDataId).None? &&
      (forall h :: h in d.health <==> h in db.health && h.healthDataId != healthDataId) &&
      (forall p :: p in d.predictions <==> p in db.predictions && p.healthDataId != healthDataId) &&
      (forall c :: c in d.recommendations <==> c in db.recommendations && c.healthDataId != healthDataId)
  {
    var d := WithoutReport(db, healthDataId);
    RemoveMembers(db.recommendations, RecommendationOn([healthDataId]));
    RemoveMembers(db.predictions, PredictionOn([healthDataId]));
    RemoveMembers(db.health, HealthWithId(healthDataId));
  }

  /** Deleting a report keeps every foreign key valid. */
  lemma ReportRemovalConsistent(db: Db, healthDataId: int)
    requires Consistent(db)
    ensures Consistent(WithoutReport(db, healthDataId))
  {
    var d := WithoutReport(db, healthDataId);
    ReportRemoved(db, healthDataId);
    forall p | p in d.predictions ensures exists h :: h in d.health && h.healthDataId == p.healthDataId {
      var h :| h in db.health && h.healthDataId == p.healthDataId;
      assert h in d.health;
    }
    forall c | c in d.recommendations ensures exists h :: h in d.health && h.healthDataId == c.healthDataId {
      var h :| h in db.health && h.healthDataId == c.healthDataId;
      assert h in d.health;
    }
  }
}
