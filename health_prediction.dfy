/**
 * The prediction endpoint and the merchant CSV upload
 * (server/routers/health_prediction.py).
 *
 * `predict` validates the submitted measurements, stores them as a HealthData
 * row, runs the three risk models, stores their chances as a Prediction row,
 * asks the recommendation service for advice and stores it when there is some.
 * `upload_csv` turns every row of a merchant's CSV file into such a submission
 * for the account named in the row.
 *
 * The trained models are opaque: each is a function from its feature vector to
 * a probability, passed in. The reply of the language model is an input as in
 * the recommendation service. CSV parsing and Python's `int`/`float` text
 * conversions are inputs too: a row is a map from column name to cell text.
 */
module HealthPrediction {
  import opened Wrappers
  import opened Strings
  import opened Lists
  import opened Tables
  import opened Authentication
  import opened HealthRecommendation

  /** The encodings of the categorical answers stored in HealthData. */
  const GenderMap: map<string, int> := map["Male" := 1, "Female" := 0]
  const SmokerMap: map<string, int> := map["No" := 0, "Yes" := 1, "Former smoker" := 2]
  const MaritalMap: map<string, int> := map["Divorced" := 0, "Single" := 0, "Married" := 1, "Widow" := 2]
  const WorkingMap: map<string, int> := map[
    "Homemaker" := 0, "Unemployed" := 0, "Retired" := 0,
    "Private" := 1, "Self-employed" := 1, "Student" := 2,
    "Working" := 3, "Public" := 4]

  /** HealthDataInput: the body of a prediction request. */
  datatype HealthInput = HealthInput(
    age: int,
    weight: real,
    height: real,
    gender: string,
    bloodGlucose: real,
    apHi: real,
    apLo: real,
    highCholesterol: int,
    hyperTension: int,
    heartDisease: int,
    diabetes: int,
    alcohol: int,
    smoker: string,
    maritalStatus: string,
    workingStatus: string,
    merchantId: Option<int>)

  // ---------------------------------------------------------------------
  // Input rules (all bounds inclusive)

  predicate IsAgeValid(age: int) { 0 <= age <= 100 }
  predicate IsWeightValid(weight: real) { 0.0 <= weight <= 200.0 }
  predicate IsHeightValid(height: real) { 0.0 <= height <= 300.0 }
  predicate IsBloodGlucoseValid(glucose: real) { 0.0 <= glucose <= 20.0 }
  predicate IsPressureValid(ap: real) { 0.0 <= ap <= 200.0 }
  /** A yes/no answer is 0 or 1. */
  predicate IsFlagValid(flag: int) { flag == 0 || flag == 1 }

  /** validate_all_input: every one of the fifteen checks passes. */
  predicate ValidateAllInput(d: HealthInput) {
    IsAgeValid(d.age) && IsWeightValid(d.weight) && IsHeightValid(d.height) &&
    d.gender in GenderMap && IsBloodGlucoseValid(d.bloodGlucose) &&
    IsPressureValid(d.apHi) && IsPressureValid(d.apLo) &&
    IsFlagValid(d.highCholesterol) && IsFlagValid(d.hyperTension) &&
    IsFlagValid(d.heartDisease) && IsFlagValid(d.diabetes) && IsFlagValid(d.alcohol) &&
    d.smoker in SmokerMap && d.maritalStatus in MaritalMap && d.workingStatus in WorkingMap
  }

  // ---------------------------------------------------------------------
  // Encoding

  /** A valid submission with every text answer replaced by its code. */
  datatype Encoded = Encoded(
    age: int,
    weight: real,
    height: real,
    gender: int,
    bloodGlucose: real,
    apHi: real,
    apLo: real,
    highCholesterol: int,
    hyperTension: int,
    heartDisease: int,
    diabetes: int,
    alcohol: int,
    smoker: int,
    maritalStatus: int,
    workingStatus: int,
    merchantId: Option<int>)

  /** The map lookups `predict` makes; the measurements and flags pass through. */
  function Encode(d: HealthInput): (e: Encoded)
    requires ValidateAllInput(d)
    ensures e.gender == GenderMap[d.gender] && e.smoker == SmokerMap[d.smoker]
    ensures e.maritalStatus == MaritalMap[d.maritalStatus] && e.workingStatus == WorkingMap[d.workingStatus]
    ensures e.age == d.age && e.weight == d.weight && e.height == d.height && e.merchantId == d.merchantId
  {
    Encoded(d.age, d.weight, d.height, GenderMap[d.gender], d.bloodGlucose, d.apHi, d.apLo,
      d.highCholesterol, d.hyperTension, d.heartDisease, d.diabetes, d.alcohol,
      SmokerMap[d.smoker], MaritalMap[d.maritalStatus], WorkingMap[d.workingStatus], d.merchantId)
  }

  /** Gender and smoking answers are encoded injectively: they can be read back. */
  lemma EncodingRecoverable(d: HealthInput, d': HealthInput)
    requires ValidateAllInput(d) && ValidateAllInput(d')
    requires Encode(d).gender == Encode(d').gender && Encode(d).smoker == Encode(d').smoker
    ensures d.gender == d'.gender && d.smoker == d'.smoker
  {
    assert d.gender == "Male" || d.gender == "Female";
    assert d'.gender == "Male" || d'.gender == "Female";
    assert d.smoker == "No" || d.smoker == "Yes" || d.smoker == "Former smoker";
    assert d'.smoker == "No" || d'.smoker == "Yes" || d'.smoker == "Former smoker";
  }

  /** Marital and working answers are not: different answers share a code. */
  lemma EncodingLossy(d: HealthInput)
    requires ValidateAllInput(d) && d.maritalStatus == "Divorced" && d.workingStatus == "Retired"
    ensures var e := d.(maritalStatus := "Single", workingStatus := "Unemployed");
      ValidateAllInput(e) && e != d && Encode(e) == Encode(d)
  {
  }

  // ---------------------------------------------------------------------
  // Storage

  /**
   * The HealthData row a submission is stored as: the yes/no answers and the
   * gender code in Boolean columns, the other codes as numbers.
   */
  function StoredRecord(e: Encoded, userId: int, healthDataId: int, now: int): (h: HealthRecord)
    ensures h.healthDataId == healthDataId && h.userId == userId && h.merchantId == e.merchantId
    ensures h.age == Some(e.age) && h.weight == Some(e.weight) && h.height == Some(e.height)
    ensures h.gender == Some(e.gender != 0) && h.alcohol == Some(e.alcohol != 0)
    ensures h.smokingStatus == Some(e.smoker) && h.maritalStatus == Some(e.maritalStatus)
    ensures h.workingStatus == Some(e.workingStatus)
  {
    HealthRecord(healthDataId, userId, Some(e.age), Some(e.weight), Some(e.height),
      Some(e.gender != 0), Some(e.bloodGlucose), Some(e.apHi), Some(e.apLo),
      Some(e.highCholesterol != 0), Some(e.hyperTension != 0), Some(e.heartDisease != 0),
      Some(e.diabetes != 0), Some(e.alcohol != 0),
      Some(e.smoker), Some(e.maritalStatus), Some(e.workingStatus), now, e.merchantId)
  }

  /**
   * For a valid submission nothing is lost by the Boolean columns: each yes/no
   * answer and the gender can be read back from the stored row.
   */
  lemma StoredAnswersRecoverable(d: HealthInput, userId: int, healthDataId: int, now: int)
    requires ValidateAllInput(d)
    ensures var h := StoredRecord(Encode(d), userId, healthDataId, now);
      (if h.gender.value then "Male" else "Female") == d.gender &&
      (if h.highCholesterol.value then 1 else 0) == d.highCholesterol &&
      (if h.hyperTension.value then 1 else 0) == d.hyperTension &&
      (if h.heartDisease.value then 1 else 0) == d.heartDisease &&
      (if h.diabetes.value then 1 else 0) == d.diabetes &&
      (if h.alcohol.value then 1 else 0) == d.alcohol
  {
    assert d.gender == "Male" || d.gender == "Female";
  }

  // ---------------------------------------------------------------------
  // The risk models

  /** Weight over height in metres squared; 0 when no height was given. */
  function Bmi(weight: real, height: real): real {
    if height == 0.0 then 0.0 else weight / ((height / 100.0) * (height / 100.0))
  }

  /** A trained classifier: the probability of the positive class for a feature vector. */
  datatype Models = Models(
    cardio: seq<real> -> real,
    stroke: seq<real> -> real,
    diabetes: seq<real> -> real)

  /** The cardiovascular model's ten features, in training order. */
  function CardioFeatures(e: Encoded): (f: seq<real>)
    ensures |f| == 10 && f[2] == Bmi(e.weight, e.height)
  {
    [e.age as real, e.gender as real, Bmi(e.weight, e.height), e.height,
     e.apHi, e.apLo, e.highCholesterol as real, e.bloodGlucose,
     e.smoker as real, e.alcohol as real]
  }

  /** The stroke model's ten features, in training order. */
  function StrokeFeatures(e: Encoded): (f: seq<real>)
    ensures |f| == 10 && f[8] == Bmi(e.weight, e.height)
  {
    [e.gender as real, e.age as real, e.heartDisease as real,
     e.maritalStatus as real, e.workingStatus as real,
     e.bloodGlucose, e.weight, e.height, Bmi(e.weight, e.height), e.smoker as real]
  }

  /** The diabetes model's eight features, in training order. */
  function DiabetesFeatures(e: Encoded): (f: seq<real>)
    ensures |f| == 8 && f[6] == Bmi(e.weight, e.height)
  {
    [e.gender as real, e.age as real, e.heartDisease as real,
     e.smoker as real, e.weight, e.height, Bmi(e.weight, e.height), e.bloodGlucose]
  }

  /**
   * The stroke model cannot tell a divorced retiree from a single unemployed
   * person with the same other answers.
   */
  lemma StrokeFeaturesLossy(d: HealthInput)
    requires ValidateAllInput(d) && d.maritalStatus == "Divorced" && d.workingStatus == "Retired"
    ensures StrokeFeatures(Encode(d.(maritalStatus := "Single", workingStatus := "Unemployed"))) ==
            StrokeFeatures(Encode(d))
  {
    EncodingLossy(d);
  }

  /** A probability as the percentage that is stored and returned. */
  function Percent(p: real): real { p * 100.0 }

  /** The Prediction row for a stored submission. */
  function PredictedRow(e: Encoded, m: Models, predictionId: int, healthDataId: int, now: int): (p: PredictionRow)
    ensures p.healthDataId == healthDataId
    ensures p.strokeChance == Some(Percent(m.stroke(StrokeFeatures(e))))
    ensures p.diabetesChance == Some(Percent(m.diabetes(DiabetesFeatures(e))))
    ensures p.cvdChance == Some(Percent(m.cardio(CardioFeatures(e))))
  {
    PredictionRow(predictionId, healthDataId,
      Some(Percent(m.stroke(StrokeFeatures(e)))),
      Some(Percent(m.diabetes(DiabetesFeatures(e)))),
      Some(Percent(m.cardio(CardioFeatures(e)))), now)
  }

  /** The tables once the HealthData row and its Prediction row are committed. */
  function WithPrediction(db: Db, h: HealthRecord, p: PredictionRow): (r: Db)
    ensures r.users == db.users && r.roles == db.roles && r.userRoles == db.userRoles
    ensures r.tokens == db.tokens && r.recommendations == db.recommendations
    ensures r.health == db.health + [h] && r.predictions == db.predictions + [p]
  {
    db.(health := db.health + [h], predictions := db.predictions + [p])
  }

  /**
   * Once both rows are committed the recommendation service always finds them,
   * so `predict` never takes the path where its advice variables stay unset.
   */
  lemma RecommendationAlwaysFound(db: Db, h: HealthRecord, p: PredictionRow, reply: Option<Advice>)
    requires p.healthDataId == h.healthDataId
    ensures GetHealthRecommendations(WithPrediction(db, h, p), h.healthDataId, reply).Ok?
  {
    var after := WithPrediction(db, h, p);
    assert after.health[|after.health| - 1] == h;
    assert after.predictions[|after.predictions| - 1] == p;
  }

  /**
   * When the new key is fresh, the fallback advice is computed from exactly the
   * rows just committed.
   */
  lemma FallbackUsesNewRows(db: Db, h: HealthRecord, p: PredictionRow)
    requires p.healthDataId == h.healthDataId
    requires forall x :: x in db.health ==> x.healthDataId != h.healthDataId
    requires forall x :: x in db.predictions ==> x.healthDataId != h.healthDataId
    ensures GetHealthRecommendations(WithPrediction(db, h, p), h.healthDataId, None) ==
            Ok(Fallback(BuildContext(h, p)))
  {
    var after := WithPrediction(db, h, p);
    var hi := FirstIndex(after.health, (x: HealthRecord) => x.healthDataId == h.healthDataId);
    var pi := FirstIndex(after.predictions, (x: PredictionRow) => x.healthDataId == h.healthDataId);
    assert after.health[|db.health|] == h;
    assert after.predictions[|db.predictions|] == p;
    assert hi == |db.health|;
    assert pi == |db.predictions|;
  }

  /** The stored advice; each text column holds the service's text. */
  function AdviceRow(a: Advice, recommendationId: int, healthDataId: int, now: int): (c: RecommendationRow)
    ensures c.healthDataId == healthDataId
    ensures c.exercise == Some(a.exercise) && c.diet == Some(a.diet)
    ensures c.lifestyle == Some(a.lifestyle) && c.dietToAvoid == Some(a.dietToAvoid)
  {
    RecommendationRow(recommendationId, healthDataId, Some(a.exercise), Some(a.diet),
      Some(a.lifestyle), Some(a.dietToAvoid), now)
  }

  /** The owner of a submission: the CSV row's account, else the signed-in user. */
  function Owner(db: Db, cookie: Cookie, host: string, csvUserId: Option<int>): int
    requires CurrentUser(db, cookie, host).Ok?
  {
    if csvUserId.Some? then csvUserId.value
    else UserByEmail(db.users, cookie.claims.email).value.userId
  }

  /**
   * The advice the service gives for the two rows committed under key hd: the
   * reply when there is one, else the fallback.
   */
  function AdviceFor(db: Db, e: Encoded, userId: int, hd: int, m: Models, reply: Option<Advice>, now: int): (a: Advice)
    ensures reply.Some? ==> a == reply.value
  {
    var h := StoredRecord(e, userId, hd, now);
    var p := PredictedRow(e, m, hd + 1, hd, now);
    RecommendationAlwaysFound(db, h, p, reply);
    GetHealthRecommendations(WithPrediction(db, h, p), hd, reply).value
  }

  /** The three rows of a submission committed under keys hd, hd + 1 and hd + 2. */
  function Stored(db: Db, e: Encoded, userId: int, hd: int, m: Models, a: Advice, now: int): (r: Db)
    ensures r.users == db.users && r.roles == db.roles && r.userRoles == db.userRoles && r.tokens == db.tokens
    ensures r.health == db.health + [StoredRecord(e, userId, hd, now)]
    ensures r.predictions == db.predictions + [PredictedRow(e, m, hd + 1, hd, now)]
    ensures r.recommendations == db.recommendations + [AdviceRow(a, hd + 2, hd, now)]
  {
    WithPrediction(db, StoredRecord(e, userId, hd, now), PredictedRow(e, m, hd + 1, hd, now))
      .(recommendations := db.recommendations + [AdviceRow(a, hd + 2, hd, now)])
  }

  /** The whole effect of a successful prediction on the tables. */
  function Predicted(db: Db, e: Encoded, userId: int, hd: int, m: Models, reply: Option<Advice>, now: int): Db {
    Stored(db, e, userId, hd, m, AdviceFor(db, e, userId, hd, m, reply, now), now)
  }

  /** Storing a submission for an existing account keeps every reference intact. */
  lemma StoredConsistent(db: Db, e: Encoded, userId: int, hd: int, m: Models, a: Advice, now: int)
    requires Consistent(db)
    requires exists u :: u in db.users && u.userId == userId
    ensures Consistent(Stored(db, e, userId, hd, m, a, now))
  {
    var r := Stored(db, e, userId, hd, m, a, now);
    var h := StoredRecord(e, userId, hd, now);
    assert r.health[|db.health|] == h;
    assert forall x :: x in r.health ==> x in db.health || x == h;
    assert forall x :: x in r.predictions ==> x in db.predictions || x.healthDataId == hd;
    assert forall x :: x in r.recommendations ==> x in db.recommendations || x.healthDataId == hd;
  }

  /** The response of a successful prediction. */
  datatype PredictResponse = PredictResponse(
    cardioProbability: real,
    strokeProbability: real,
    diabetesProbability: real,
    recommendations: Advice)

  /**
   * predict: invalid input is refused with 422 and an unauthenticated request
   * with 401, both before anything is stored; otherwise the submission, its
   * prediction and its advice are stored under three new keys.
   */
  method Predict(db: Database, d: HealthInput, cookie: Cookie, host: string, csvUserId: Option<int>,
                 m: Models, reply: Option<Advice>, now: int)
    returns (r: Result<PredictResponse, HttpError>)
    modifies db
    ensures !ValidateAllInput(d) ==> r == Err(Unprocessable) && db.State() == old(db.State())
    ensures ValidateAllInput(d) && CurrentUser(old(db.State()), cookie, host).Err? ==>
      r == Err(CredentialsError) && db.State() == old(db.State())
    ensures r.Ok? <==> ValidateAllInput(d) && CurrentUser(old(db.State()), cookie, host).Ok?
    ensures r.Ok? ==>
      db.State() == Predicted(old(db.State()), Encode(d), Owner(old(db.State()), cookie, host, csvUserId),
                              old(db.nextId), m, reply, now)
    ensures r.Ok? ==> db.nextId == old(db.nextId) + 3
    ensures r.Ok? ==>
      r.value.cardioProbability == Percent(m.cardio(CardioFeatures(Encode(d)))) &&
      r.value.strokeProbability == Percent(m.stroke(StrokeFeatures(Encode(d)))) &&
      r.value.diabetesProbability == Percent(m.diabetes(DiabetesFeatures(Encode(d))))
    ensures r.Ok? && reply.Some? ==> r.value.recommendations == reply.value
  {
    if !ValidateAllInput(d) {
      return Err(Unprocessable);
    }
    var current := CurrentUser(db.State(), cookie, host);
    if current.Err? {
      return Err(current.error);
    }
    var userId := Owner(db.State(), cookie, host, csvUserId);
    var e := Encode(d);
    // The service reads back the two rows about to be committed: AdviceFor is that query.
    var advice := AdviceFor(db.State(), e, userId, db.nextId, m, reply, now);
    Store(db, e, userId, m, advice, now);
    r := Ok(PredictResponse(Percent(m.cardio(CardioFeatures(e))), Percent(m.stroke(StrokeFeatures(e))),
                            Percent(m.diabetes(DiabetesFeatures(e))), advice));
  }

  /** Commits the three rows of a submission under three new keys. */
  method Store(db: Database, e: Encoded, userId: int, m: Models, advice: Advice, now: int)
    modifies db
    ensures db.State() == Stored(old(db.State()), e, userId, old(db.nextId), m, advice, now)
    ensures db.nextId == old(db.nextId) + 3
  {
    var hd := db.NewId();
    db.health := db.health + [StoredRecord(e, userId, hd, now)];
    var pid := db.NewId();
    db.predictions := db.predictions + [PredictedRow(e, m, pid, hd, now)];
    var rid := db.NewId();
    db.recommendations := db.recommendations + [AdviceRow(advice, rid, hd, now)];
  }

  // ---------------------------------------------------------------------
  // CSV upload

  /** A CSV row: the cells of one line, by column name. */
  type CsvRow = map<string, string>

  /** `row.get(column)` is truthy: the column exists and its cell is not empty. */
  predicate Filled(row: CsvRow, column: string) {
    column in row && row[column] != ""
  }

  /** Python's `int(text)` and `float(text)`: None where they raise. */
  datatype Parsers = Parsers(toInt: string -> Option<int>, toReal: string -> Option<real>)

  /** A whole-number column: 0 when blank, else the parsed value. */
  function IntCell(row: CsvRow, column: string, parse: Parsers): Option<int> {
    if Filled(row, column) then parse.toInt(row[column]) else Some(0)
  }

  /** A decimal column: 0 when blank, else the parsed value. */
  function RealCell(row: CsvRow, column: string, parse: Parsers): Option<real> {
    if Filled(row, column) then parse.toReal(row[column]) else Some(0.0)
  }

  /**
   * A text column: the cell when filled; a blank cell yields the number 0,
   * which the input model does not accept as text, so the row cannot be built.
   */
  function TextCell(row: CsvRow, column: string): Option<string> {
    if Filled(row, column) then Some(row[column]) else None
  }

  /**
   * The Gender column as written: the cell is looked up in the gender map
   * first (a missing, blank or unknown cell raises KeyError), and a cell whose
   * code is 0 ("Female") yields the number 0 instead of the text.
   */
  function GenderCellAsWritten(row: CsvRow): (r: Option<string>)
    ensures r.Some? ==> r.value == "Male"
  {
    if "Gender" !in row || row["Gender"] !in GenderMap then None
    else if GenderMap[row["Gender"]] != 0 then Some(row["Gender"])
    else None
  }

  /**
   * A row whose gender is "Female" can never be built as written, so the whole
   * upload ends at it; as intended it is built like any other row.
   */
  lemma FemaleRowRejected(row: CsvRow, merchantId: int, parse: Parsers)
    requires "Gender" in row && row["Gender"] == "Female"
    ensures RowToInputAsWritten(row, merchantId, parse).None?
    ensures RowToInput(row, merchantId, parse).Some? ==> RowToInput(row, merchantId, parse).value.gender == "Female"
    ensures TextCell(row, "Gender") == Some("Female")
  {
  }

  /** Builds the submission for one CSV row, the Gender column as written. */
  function RowToInputAsWritten(row: CsvRow, merchantId: int, parse: Parsers): (r: Option<HealthInput>)
    ensures r.Some? ==> r.value.gender == "Male"
  {
    RowToInputWith(row, GenderCellAsWritten(row), merchantId, parse)
  }

  /** Builds the submission for one CSV row, Gender read like the other text columns. */
  function RowToInput(row: CsvRow, merchantId: int, parse: Parsers): (r: Option<HealthInput>)
    ensures r.Some? ==> Filled(row, "Gender") && r.value.gender == row["Gender"]
    ensures r.Some? ==> r.value.merchantId == Some(merchantId)
  {
    RowToInputWith(row, TextCell(row, "Gender"), merchantId, parse)
  }

  function RowToInputWith(row: CsvRow, gender: Option<string>, merchantId: int, parse: Parsers): (r: Option<HealthInput>)
    ensures r.Some? ==> gender.Some? && r.value.gender == gender.value && r.value.merchantId == Some(merchantId)
  {
    var age := IntCell(row, "Age", parse);
    var weight := RealCell(row, "WeightKilograms", parse);
    var height := RealCell(row, "HeightCentimetres", parse);
    var glucose := RealCell(row, "BloodGlucose", parse);
    var apHi := RealCell(row, "APHigh", parse);
    var apLo := RealCell(row, "APLow", parse);
    var cholesterol := IntCell(row, "HighCholesterol", parse);
    var tension := IntCell(row, "HyperTension", parse);
    var heart := IntCell(row, "HeartDisease", parse);
    var diabetes := IntCell(row, "Diabetes", parse);
    var alcohol := IntCell(row, "Alcohol", parse);
    var smoker := TextCell(row, "SmokingStatus");
    var marital := TextCell(row, "MaritalStatus");
    var working := TextCell(row, "WorkingStatus");
    if gender.None? || age.None? || weight.None? || height.None? || glucose.None? ||
       apHi.None? || apLo.None? || cholesterol.None? || tension.None? || heart.None? ||
       diabetes.None? || alcohol.None? || smoker.None? || marital.None? || working.None?
    then None
    else Some(HealthInput(age.value, weight.value, height.value, gender.value, glucose.value,
      apHi.value, apLo.value, cholesterol.value, tension.value, heart.value, diabetes.value,
      alcohol.value, smoker.value, marital.value, working.value, Some(merchantId)))
  }

  /**
   * A row can be built exactly when it has a gender, every number column is
   * blank or parses, and every other text column is filled.
   */
  lemma RowConversion(row: CsvRow, gender: Option<string>, merchantId: int, parse: Parsers)
    ensures RowToInputWith(row, gender, merchantId, parse).Some? <==>
      gender.Some? && IntCell(row, "Age", parse).Some? &&
      RealCell(row, "WeightKilograms", parse).Some? && RealCell(row, "HeightCentimetres", parse).Some? &&
      RealCell(row, "BloodGlucose", parse).Some? && RealCell(row, "APHigh", parse).Some? &&
      RealCell(row, "APLow", parse).Some? && IntCell(row, "HighCholesterol", parse).Some? &&
      IntCell(row, "HyperTension", parse).Some? && IntCell(row, "HeartDisease", parse).Some? &&
      IntCell(row, "Diabetes", parse).Some? && IntCell(row, "Alcohol", parse).Some? &&
      TextCell(row, "SmokingStatus").Some? && TextCell(row, "MaritalStatus").Some? &&
      TextCell(row, "WorkingStatus").Some?
  {
  }

  /** A row is skipped when it names no email, or no account has the stripped email. */
  predicate Skipped(users: seq<UserAccount>, row: CsvRow) {
    !Filled(row, "Email") || UserByEmail(users, Strip(row["Email"])).None?
  }

  /** A row the upload gets past: skipped, or built and valid. */
  predicate RowAccepted(users: seq<UserAccount>, row: CsvRow, merchantId: int, parse: Parsers) {
    Skipped(users, row) ||
    (RowToInput(row, merchantId, parse).Some? && ValidateAllInput(RowToInput(row, merchantId, parse).value))
  }

  /** Every row is accepted, checked from the last row back. */
  predicate AllAccepted(users: seq<UserAccount>, rows: seq<CsvRow>, merchantId: int, parse: Parsers)
    decreases |rows|
  {
    |rows| == 0 ||
    (AllAccepted(users, rows[..|rows| - 1], merchantId, parse) && RowAccepted(users, rows[|rows| - 1], merchantId, parse))
  }

  lemma {:induction false} AllAcceptedMeans(users: seq<UserAccount>, rows: seq<CsvRow>, merchantId: int, parse: Parsers)
    ensures AllAccepted(users, rows, merchantId, parse) <==>
            forall i :: 0 <= i < |rows| ==> RowAccepted(users, rows[i], merchantId, parse)
    decreases |rows|
  {
    if |rows| > 0 {
      var init := rows[..|rows| - 1];
      AllAcceptedMeans(users, init, merchantId, parse);
      assert forall i :: 0 <= i < |init| ==> init[i] == rows[i];
    }
  }

  /** Extending the rows seen by one. */
  lemma PrefixStep(users: seq<UserAccount>, rows: seq<CsvRow>, i: int, merchantId: int, parse: Parsers)
    requires 0 <= i < |rows|
    ensures AllAccepted(users, rows[..i + 1], merchantId, parse) <==>
            AllAccepted(users, rows[..i], merchantId, parse) && RowAccepted(users, rows[i], merchantId, parse)
    ensures SkippedCount(users, rows[..i + 1]) ==
            SkippedCount(users, rows[..i]) + (if Skipped(users, rows[i]) then 1 else 0)
  {
    assert rows[..i + 1][..i] == rows[..i];
  }

  /** The number of rows that are skipped. */
  function SkippedCount(users: seq<UserAccount>, rows: seq<CsvRow>): nat
    decreases |rows|
  {
    if |rows| == 0 then 0
    else SkippedCount(users, rows[..|rows| - 1]) + (if Skipped(users, rows[|rows| - 1]) then 1 else 0)
  }

  predicate IsCsvName(filename: string) {
    EndsWith(ToLower(filename), ".csv")
  }

  const UnsupportedMedia := HttpError(415, "Only .csv file type is supported.")
  /** A row whose cells cannot be converted ends the request with a server error. */
  const ConversionFailed := HttpError(500, "Internal Server Error")

  datatype UploadSummary = UploadSummary(message: string, processed: nat, skipped: nat)

  /** The account of the signed-in merchant. */
  function Merchant(db: Db, cookie: Cookie, host: string): (u: UserAccount)
    requires CurrentUser(db, cookie, host).Ok?
    ensures u in db.users
  {
    UserByEmail(db.users, cookie.claims.email).value
  }

  /** The checks that use only the session depend only on the account tables. */
  lemma CurrentUserFrame(a: Db, b: Db, cookie: Cookie, host: string)
    requires a.users == b.users && a.roles == b.roles && a.userRoles == b.userRoles
    ensures CurrentUser(a, cookie, host) == CurrentUser(b, cookie, host)
  {
    if cookie.Decoded? {
      var u := UserByEmail(a.users, cookie.claims.email);
      if u.Some? {
        assert RoleOfUser(a, u.value.userId) == RoleOfUser(b, u.value.userId);
      }
    }
  }

  /** What one CSV row came to. */
  datatype RowOutcome = RowSkipped | RowStored | RowFailed(error: HttpError)

  /**
   * One pass of the upload loop: skip a row without a known email, otherwise
   * build the row's submission and predict for the row's account. A row that
   * cannot be built or fails validation stores nothing.
   */
  method ProcessRow(db: Database, row: CsvRow, merchantId: int, cookie: Cookie, host: string,
                    parse: Parsers, m: Models, reply: Option<Advice>, now: int)
    returns (outcome: RowOutcome)
    requires CurrentUser(db.State(), cookie, host).Ok?
    modifies db
    ensures db.users == old(db.users) && db.roles == old(db.roles) && db.userRoles == old(db.userRoles)
    ensures outcome.RowSkipped? <==> Skipped(old(db.users), row)
    ensures outcome.RowStored? <==> RowAccepted(old(db.users), row, merchantId, parse) && !Skipped(old(db.users), row)
    ensures !outcome.RowStored? ==> db.State() == old(db.State())
    ensures outcome.RowStored? ==> |db.health| == |old(db.health)| + 1
    ensures outcome.RowStored? ==>
      var input := RowToInput(row, merchantId, parse).value;
      var account := UserByEmail(old(db.users), Strip(row["Email"])).value;
      db.health[|old(db.health)|] == StoredRecord(Encode(input), account.userId, old(db.nextId), now)
  {
    if Skipped(db.users, row) {
      return RowSkipped;
    }
    var account := UserByEmail(db.users, Strip(row["Email"])).value;
    var input := RowToInput(row, merchantId, parse);
    if input.None? {
      return RowFailed(ConversionFailed);
    }
    var res := Predict(db, input.value, cookie, host, Some(account.userId), m, reply, now);
    if res.Err? {
      return RowFailed(res.error);
    }
    return RowStored;
  }

  /**
   * The loop of upload_csv over the rows, for the signed-in merchant: the
   * counts returned are the rows stored and the rows skipped, which add up to
   * all rows. A row that cannot be built or fails validation ends the loop with
   * an error, the rows before it staying stored.
   */
  method ProcessRows(db: Database, rows: seq<CsvRow>, merchantId: int, cookie: Cookie, host: string,
                     parse: Parsers, m: Models, replies: seq<Option<Advice>>, now: int)
    returns (r: Result<(nat, nat), HttpError>)
    requires |replies| == |rows|
    requires CurrentUser(db.State(), cookie, host).Ok?
    modifies db
    ensures db.users == old(db.users) && db.roles == old(db.roles) && db.userRoles == old(db.userRoles)
    ensures r.Ok? <==> forall i :: 0 <= i < |rows| ==> RowAccepted(old(db.users), rows[i], merchantId, parse)
    ensures r.Ok? ==>
      r.value.1 == SkippedCount(old(db.users), rows) &&
      r.value.0 + r.value.1 == |rows| &&
      |db.health| == |old(db.health)| + r.value.0
  {
    ghost var start := db.State();
    var users := db.users;
    var processed, skipped := 0, 0;
    for i := 0 to |rows|
      invariant db.users == users && db.roles == start.roles && db.userRoles == start.userRoles
      invariant processed + skipped == i
      invariant skipped == SkippedCount(users, rows[..i])
      invariant |db.health| == |start.health| + processed
      invariant AllAccepted(users, rows[..i], merchantId, parse)
    {
      PrefixStep(users, rows, i, merchantId, parse);
      CurrentUserFrame(db.State(), start, cookie, host);
      var outcome := ProcessRow(db, rows[i], merchantId, cookie, host, parse, m, replies[i], now);
      if outcome.RowFailed? {
        AllAcceptedMeans(users, rows, merchantId, parse);
        return Err(outcome.error);
      }
      if outcome.RowSkipped? {
        skipped := skipped + 1;
      } else {
        processed := processed + 1;
      }
    }
    assert rows[..|rows|] == rows;
    AllAcceptedMeans(users, rows, merchantId, parse);
    return Ok((processed, skipped));
  }

  /**
   * upload_csv: the file name must end in ".csv" (415) and the request must
   * come from a signed-in account; then every row with a known email becomes a
   * prediction for that account, attributed to the merchant.
   */
  method UploadCsv(db: Database, filename: string, cookie: Cookie, host: string, rows: seq<CsvRow>,
                   parse: Parsers, m: Models, replies: seq<Option<Advice>>, now: int)
    returns (r: Result<UploadSummary, HttpError>)
    requires |replies| == |rows|
    modifies db
    ensures !IsCsvName(filename) ==> r == Err(UnsupportedMedia) && db.State() == old(db.State())
    ensures IsCsvName(filename) && CurrentUser(old(db.State()), cookie, host).Err? ==>
      r == Err(CredentialsError) && db.State() == old(db.State())
    ensures r.Ok? <==>
      IsCsvName(filename) && CurrentUser(old(db.State()), cookie, host).Ok? &&
      forall i :: 0 <= i < |rows| ==>
        RowAccepted(old(db.users), rows[i], Merchant(old(db.State()), cookie, host).userId, parse)
    ensures db.users == old(db.users) && db.roles == old(db.roles) && db.userRoles == old(db.userRoles)
    ensures r.Ok? ==>
      r.value.message == "Upload successful." &&
      r.value.skipped == SkippedCount(old(db.users), rows) &&
      r.value.processed + r.value.skipped == |rows| &&
      |db.health| == |old(db.health)| + r.value.processed
  {
    if !IsCsvName(filename) {
      return Err(UnsupportedMedia);
    }
    var current := CurrentUser(db.State(), cookie, host);
    if current.Err? {
      return Err(current.error);
    }
    var merchant := Merchant(db.State(), cookie, host);
    var counts := ProcessRows(db, rows, merchant.userId, cookie, host, parse, m, replies, now);
    if counts.Err? {
      return Err(counts.error);
    }
    return Ok(UploadSummary("Upload successful.", counts.value.0, counts.value.1));
  }
}
