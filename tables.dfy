/**
 * The server's relational tables (server/models/dbmodels.py) held in memory:
 * one record type per table, one sequence per table in a Database object, and
 * the lookups the routers make through SQLAlchemy. A query's `.first()` is the
 * first matching row in table order. Timestamps are integers supplied by the
 * caller; auto-increment keys come from a counter.
 */
module Tables {
  import opened Wrappers
  import opened Lists

  /** An HTTPException: a status code and its detail text. */
  datatype HttpError = HttpError(status: int, detail: string)

  /**
   * An Argon2 digest. Hashing and verification are library behaviour; the model
   * keeps only that a digest verifies exactly the password it was made from
   * (salting and one-wayness are not modelled).
   */
  datatype Digest = Argon2Of(secret: string)

  function Hash(password: string): Digest {
    Argon2Of(password)
  }

  predicate Verifies(password: string, d: Digest) {
    d == Hash(password)
  }

  datatype UserAccount = UserAccount(
    userId: int,
    fullName: string,
    email: string,
    passwordHash: Digest,
    phoneNumber: string,
    createdAt: int,
    isValidated: bool,
    tokenVersion: int)

  datatype AccountRole = AccountRole(roleId: int, roleName: string)

  /** UserAccountRole: the mapping of a user to a role. */
  datatype UserRole = UserRole(roleId: int, userId: int)

  datatype ValidationToken = ValidationToken(userId: int, token: string, expiresAt: int)

  /** A HealthData row; every column but the keys may be NULL (None). */
  datatype HealthRecord = HealthRecord(
    healthDataId: int,
    userId: int,
    age: Option<int>,
    weight: Option<real>,
    height: Option<real>,
    gender: Option<bool>,
    bloodGlucose: Option<real>,
    apHigh: Option<real>,
    apLow: Option<real>,
    highCholesterol: Option<bool>,
    hyperTension: Option<bool>,
    heartDisease: Option<bool>,
    diabetes: Option<bool>,
    alcohol: Option<bool>,
    smokingStatus: Option<int>,
    maritalStatus: Option<int>,
    workingStatus: Option<int>,
    createdAt: int,
    merchantId: Option<int>)

  /** A Prediction row: the three chances are percentages. */
  datatype PredictionRow = PredictionRow(
    predictionId: int,
    healthDataId: int,
    strokeChance: Option<real>,
    diabetesChance: Option<real>,
    cvdChance: Option<real>,
    createdAt: int)

  datatype RecommendationRow = RecommendationRow(
    recommendationId: int,
    healthDataId: int,
    exercise: Option<string>,
    diet: Option<string>,
    lifestyle: Option<string>,
    dietToAvoid: Option<string>,
    createdAt: int)

  /** The contents of every table at one moment. */
  datatype Db = Db(
    users: seq<UserAccount>,
    roles: seq<AccountRole>,
    userRoles: seq<UserRole>,
    tokens: seq<ValidationToken>,
    health: seq<HealthRecord>,
    predictions: seq<PredictionRow>,
    recommendations: seq<RecommendationRow>)

  /** The roles the seed migration inserts. */
  const AdminRoleId := 1901881405
  const StandardUserRoleId := 331928555
  const MerchantRoleId := 62809281
  const SeedRoles := [
    AccountRole(AdminRoleId, "admin"),
    AccountRole(StandardUserRoleId, "standard_user"),
    AccountRole(MerchantRoleId, "merchant")]

  class Database {
    var users: seq<UserAccount>
    var roles: seq<AccountRole>
    var userRoles: seq<UserRole>
    var tokens: seq<ValidationToken>
    var health: seq<HealthRecord>
    var predictions: seq<PredictionRow>
    var recommendations: seq<RecommendationRow>
    /** The next auto-increment key. */
    var nextId: int

    /** A database holding only the seeded roles. */
    constructor ()
      ensures State() == Db([], SeedRoles, [], [], [], [], [])
    {
      users, roles, userRoles, tokens := [], SeedRoles, [], [];
      health, predictions, recommendations := [], [], [];
      nextId := 1;
    }

    function State(): Db
      reads this
    {
      Db(users, roles, userRoles, tokens, health, predictions, recommendations)
    }

    /** Allocates an auto-increment key; no table changes. */
    method NewId() returns (id: int)
      modifies this
      ensures id == old(nextId) && nextId == id + 1
      ensures State() == old(State())
    {
      id := nextId;
      nextId := nextId + 1;
    }
  }

  /** Every foreign key refers to an existing row. */
  ghost predicate Consistent(db: Db) {
    (forall r :: r in db.userRoles ==>
       (exists u :: u in db.users && u.userId == r.userId) &&
       (exists a :: a in db.roles && a.roleId == r.roleId)) &&
    (forall t :: t in db.tokens ==> exists u :: u in db.users && u.userId == t.userId) &&
    (forall h :: h in db.health ==> exists u :: u in db.users && u.userId == h.userId) &&
    (forall p :: p in db.predictions ==> exists h :: h in db.health && h.healthDataId == p.healthDataId) &&
    (forall c :: c in db.recommendations ==> exists h :: h in db.health && h.healthDataId == c.healthDataId)
  }

  /** `query(UserAccount).filter_by(Email=email).first()`. */
  function UserByEmail(users: seq<UserAccount>, email: string): (r: Option<UserAccount>)
    ensures r.None? <==> forall u :: u in users ==> u.email != email
    ensures r.Some? ==> r.value in users && r.value.email == email
  {
    var i := FirstIndex(users, (u: UserAccount) => u.email == email);
    if i == -1 then None else Some(users[i])
  }

  /** `query(UserAccount).filter(UserID == id).first()`. */
  function UserById(users: seq<UserAccount>, id: int): (r: Option<UserAccount>)
    ensures r.None? <==> forall u :: u in users ==> u.userId != id
    ensures r.Some? ==> r.value in users && r.value.userId == id
  {
    var i := FirstIndex(users, (u: UserAccount) => u.userId == id);
    if i == -1 then None else Some(users[i])
  }

  function RoleById(roles: seq<AccountRole>, id: int): (r: Option<AccountRole>)
    ensures r.None? <==> forall a :: a in roles ==> a.roleId != id
    ensures r.Some? ==> r.value in roles && r.value.roleId == id
  {
    var i := FirstIndex(roles, (a: AccountRole) => a.roleId == id);
    if i == -1 then None else Some(roles[i])
  }

  function HealthById(health: seq<HealthRecord>, id: int): (r: Option<HealthRecord>)
    ensures r.None? <==> forall h :: h in health ==> h.healthDataId != id
    ensures r.Some? ==> r.value in health && r.value.healthDataId == id
  {
    var i := FirstIndex(health, (h: HealthRecord) => h.healthDataId == id);
    if i == -1 then None else Some(health[i])
  }

  function PredictionFor(predictions: seq<PredictionRow>, healthDataId: int): (r: Option<PredictionRow>)
    ensures r.None? <==> forall p :: p in predictions ==> p.healthDataId != healthDataId
    ensures r.Some? ==> r.value in predictions && r.value.healthDataId == healthDataId
  {
    var i := FirstIndex(predictions, (p: PredictionRow) => p.healthDataId == healthDataId);
    if i == -1 then None else Some(predictions[i])
  }

  /**
   * The role reached by joining AccountRole with the user's mappings, first
   * match: the join in get_user_role and in delete_user_by_admin.
   */
  function RoleOfUser(db: Db, userId: int): (r: Option<AccountRole>)
    ensures r.None? <==> forall m :: m in db.userRoles && m.userId == userId ==> RoleById(db.roles, m.roleId).None?
    ensures r.Some? ==>
      r.value in db.roles && exists m :: m in db.userRoles && m.userId == userId && m.roleId == r.value.roleId
  {
    var i := FirstIndex(db.userRoles, (m: UserRole) => m.userId == userId && RoleById(db.roles, m.roleId).Some?);
    if i == -1 then None
    else
      assert db.userRoles[i] in db.userRoles;
      RoleById(db.roles, db.userRoles[i].roleId)
  }
}
