/**
 * The rule-based part of the recommendation service
 * (server/services/health_recommendation_service.py): the health context built
 * from a stored HealthData row and its Prediction, the fallback advice derived
 * from it by threshold rules, and the early returns of
 * get_health_recommendations. The language-model call is not modelled: its
 * reply is an input, None when no client is configured or the call failed
 * (both fall back to the rules).
 */
module HealthRecommendation {
  import opened Wrappers
  import opened Strings
  import opened Tables

  /** The context handed to the model; probabilities are fractions of one. */
  datatype HealthContext = HealthContext(
    age: int,
    sex: string,
    heightCm: real,
    weightKg: real,
    conditions: seq<string>,
    activityLevel: string,
    cardio: real,
    stroke: real,
    diabetes: real)

  /** The four recommendation texts. */
  datatype Advice = Advice(exercise: string, diet: string, lifestyle: string, dietToAvoid: string)

  /** `bool(x or False)` on a nullable Boolean column. */
  function Truthy(flag: Option<bool>): bool {
    flag.Some? && flag.value
  }

  /** `x or 0` on a nullable numeric column. */
  function RealOrZero(v: Option<real>): (r: real)
    ensures v.None? ==> r == 0.0
    ensures v.Some? ==> r == v.value
  {
    if v.Some? then v.value else 0.0
  }

  function IntOrZero(v: Option<int>): (r: int)
    ensures v.None? ==> r == 0
    ensures v.Some? ==> r == v.value
  {
    if v.Some? then v.value else 0
  }

  /** One condition name when its flag holds, none otherwise. */
  function When(flag: bool, name: string): seq<string> {
    if flag then [name] else []
  }

  /**
   * The conditions in their fixed order. SmokingStatus is an integer code
   * (0 no, 1 yes, 2 former smoker), so any non-zero code counts as smoking.
   */
  function Conditions(h: HealthRecord): (cs: seq<string>)
    ensures |cs| <= 6
  {
    When(Truthy(h.highCholesterol), "High Cholesterol") +
    When(Truthy(h.hyperTension), "Hypertension") +
    When(Truthy(h.heartDisease), "Heart Disease") +
    When(Truthy(h.diabetes), "Diabetes") +
    When(Truthy(h.alcohol), "Alcohol Use") +
    When(IntOrZero(h.smokingStatus) != 0, "Smoking")
  }

  /**
   * _build_health_context. The height column is multiplied by 100 as the
   * code does; rounding height and weight to one decimal is not modelled.
   * HealthData has no Exercise column, so the activity level of a stored row
   * is always "sedentary".
   */
  function BuildContext(h: HealthRecord, p: PredictionRow): (ctx: HealthContext)
    ensures ctx.activityLevel == "sedentary"
    ensures ctx.sex == (if Truthy(h.gender) then "Male" else "Female")
    ensures ctx.cardio == RealOrZero(p.cvdChance) / 100.0
    ensures ctx.stroke == RealOrZero(p.strokeChance) / 100.0
    ensures ctx.diabetes == RealOrZero(p.diabetesChance) / 100.0
  {
    HealthContext(
      IntOrZero(h.age),
      if Truthy(h.gender) then "Male" else "Female",
      RealOrZero(h.height) * 100.0,
      RealOrZero(h.weight),
      Conditions(h),
      "sedentary",
      RealOrZero(p.cvdChance) / 100.0,
      RealOrZero(p.strokeChance) / 100.0,
      RealOrZero(p.diabetesChance) / 100.0)
  }

  // ---------------------------------------------------------------------
  // The rule-based fallback. The first word of each opening sentence is
  // written apart so that the verifier sees its first letter directly.

  const ExerciseBase := "Aim" + " for 150 minutes/week of moderate-intensity activity (e.g., brisk walking) split across 3\U{2013}5 days."
  const ExerciseLowImpact := "Prioritize low-impact cardio and add 2 strength sessions/week; start gradually if currently sedentary."
  const ExerciseSmoking := "Avoid high-intensity bouts initially; focus on consistency while pursuing smoking cessation."
  const DietBase := "Adopt" + " a balanced plate: 1/2 non-starchy vegetables, 1/4 lean protein, 1/4 whole grains. Limit processed foods and sugary drinks."
  const DietLowGlycemic := "Prefer low-glycemic carbs, distribute carbs evenly across meals, and monitor portion sizes."
  const DietFibre := "Increase soluble fiber (oats, legumes) and healthy fats (olive oil, nuts); reduce saturated fats."
  const LifestyleBase := "Sleep" + " 7\U{2013}9 hours nightly, manage stress with short daily breathing or mindfulness. Hydrate adequately."
  const LifestyleCessation := "Begin a smoking cessation plan (nicotine replacement or counseling)."
  const LifestyleAlcohol := "Limit alcohol (\U{2264}2 standard drinks/day for men, \U{2264}1 for women; aim for several alcohol-free days/week)."
  const DietToAvoid := "Limit" + " ultra-processed foods, high-sugar desserts, and trans-fat containing snacks. Minimize high-sodium processed meats."

  /** Whether a condition is present, compared in lower case. */
  predicate HasCondition(ctx: HealthContext, lowered: string) {
    exists i :: 0 <= i < |ctx.conditions| && ToLower(ctx.conditions[i]) == lowered
  }

  /** A sentence followed by the space the code appends to it. */
  function Spaced(s: string): string {
    s + " "
  }

  function Optional(cond: bool, s: string): string {
    if cond then Spaced(s) else ""
  }

  function FallbackExercise(ctx: HealthContext): (r: string)
    ensures r == Join([ExerciseBase] + (if ctx.cardio > 0.5 || ctx.stroke > 0.4 then [ExerciseLowImpact] else [])
                                     + (if HasCondition(ctx, "smoking") then [ExerciseSmoking] else []), " ")
  {
    var c1 := ctx.cardio > 0.5 || ctx.stroke > 0.4;
    var c2 := HasCondition(ctx, "smoking");
    StripSentences(ExerciseBase, c1, ExerciseLowImpact, c2, ExerciseSmoking);
    Strip(Spaced(ExerciseBase) + Optional(c1, ExerciseLowImpact) + Optional(c2, ExerciseSmoking))
  }

  function FallbackDiet(ctx: HealthContext): (r: string)
    ensures r == Join([DietBase] + (if ctx.diabetes > 0.4 then [DietLowGlycemic] else [])
                                 + (if HasCondition(ctx, "high cholesterol") then [DietFibre] else []), " ")
  {
    var c1 := ctx.diabetes > 0.4;
    var c2 := HasCondition(ctx, "high cholesterol");
    StripSentences(DietBase, c1, DietLowGlycemic, c2, DietFibre);
    Strip(Spaced(DietBase) + Optional(c1, DietLowGlycemic) + Optional(c2, DietFibre))
  }

  function FallbackLifestyle(ctx: HealthContext): (r: string)
    ensures r == Join([LifestyleBase] + (if HasCondition(ctx, "smoking") then [LifestyleCessation] else [])
                                      + (if HasCondition(ctx, "alcohol use") then [LifestyleAlcohol] else []), " ")
  {
    var c1 := HasCondition(ctx, "smoking");
    var c2 := HasCondition(ctx, "alcohol use");
    StripSentences(LifestyleBase, c1, LifestyleCessation, c2, LifestyleAlcohol);
    Strip(Spaced(LifestyleBase) + Optional(c1, LifestyleCessation) + Optional(c2, LifestyleAlcohol))
  }

  /** _fallback_recommendations: every field whitespace-stripped. */
  function Fallback(ctx: HealthContext): (a: Advice)
    ensures a.dietToAvoid == DietToAvoid
    ensures |a.exercise| > 0 && !IsSpace(a.exercise[|a.exercise| - 1])
    ensures |a.diet| > 0 && !IsSpace(a.diet[|a.diet| - 1])
    ensures |a.lifestyle| > 0 && !IsSpace(a.lifestyle[|a.lifestyle| - 1])
  {
    StripUnspaced(DietToAvoid);
    Advice(FallbackExercise(ctx), FallbackDiet(ctx), FallbackLifestyle(ctx), Strip(DietToAvoid))
  }

  /** Stripping leaves a text that starts and ends with a non-space unchanged. */
  lemma StripUnspaced(t: string)
    requires |t| > 0 && !IsSpace(t[0]) && !IsSpace(t[|t| - 1])
    ensures Strip(t) == t
  {
  }

  /** Stripping removes exactly the one trailing space after the last sentence. */
  lemma StripTrailingSpace(t: string)
    requires |t| > 0 && !IsSpace(t[0]) && !IsSpace(t[|t| - 1])
    ensures Strip(t + " ") == t
  {
    var s := t + " ";
    assert s[0] == t[0];
    assert s[..|s| - 1] == t;
  }

  /** Sentences that each begin and end with a full stop or letter are joined by single spaces. */
  lemma StripSentences(base: string, c1: bool, s1: string, c2: bool, s2: string)
    requires |base| > 0 && !IsSpace(base[0]) && !IsSpace(base[|base| - 1])
    requires |s1| > 0 && !IsSpace(s1[|s1| - 1])
    requires |s2| > 0 && !IsSpace(s2[|s2| - 1])
    ensures Strip(Spaced(base) + Optional(c1, s1) + Optional(c2, s2))
         == Join([base] + (if c1 then [s1] else []) + (if c2 then [s2] else []), " ")
  {
    var parts := [base] + (if c1 then [s1] else []) + (if c2 then [s2] else []);
    var t := Join(parts, " ");
    JoinShape(parts);
    assert Spaced(base) + Optional(c1, s1) + Optional(c2, s2) == t + " " by {
      if c1 && c2 {
        assert parts == [base, s1, s2];
        assert Join(parts, " ") == base + " " + Join([s1, s2], " ");
        assert Join([s1, s2], " ") == s1 + " " + Join([s2], " ");
      } else if c1 {
        assert parts == [base, s1];
        assert Join(parts, " ") == base + " " + Join([s1], " ");
      } else if c2 {
        assert parts == [base, s2];
        assert Join(parts, " ") == base + " " + Join([s2], " ");
      } else {
        assert parts == [base];
      }
    }
    StripTrailingSpace(t);
  }

  /** A join of sentences starts with the first and ends with the last. */
  lemma JoinShape(parts: seq<string>)
    requires |parts| > 0 && forall i :: 0 <= i < |parts| ==> |parts[i]| > 0
    ensures |Join(parts, " ")| > 0
    ensures Join(parts, " ")[0] == parts[0][0]
    ensures var j := Join(parts, " "); var l := parts[|parts| - 1]; j[|j| - 1] == l[|l| - 1]
    decreases |parts|
  {
    if |parts| > 1 {
      JoinShape(parts[1..]);
    }
  }

  /** Every listed condition is one of the six names, with its flag set. */
  lemma ConditionNames(h: HealthRecord, i: int)
    requires 0 <= i < |Conditions(h)|
    ensures var c := Conditions(h)[i];
      (c == "High Cholesterol" && Truthy(h.highCholesterol)) ||
      (c == "Hypertension" && Truthy(h.hyperTension)) ||
      (c == "Heart Disease" && Truthy(h.heartDisease)) ||
      (c == "Diabetes" && Truthy(h.diabetes)) ||
      (c == "Alcohol Use" && Truthy(h.alcohol)) ||
      (c == "Smoking" && IntOrZero(h.smokingStatus) != 0)
  {
  }

  /** The smoking rules apply exactly when the stored smoking code is non-zero. */
  lemma SmokingRecognised(h: HealthRecord, p: PredictionRow)
    ensures HasCondition(BuildContext(h, p), "smoking") <==> IntOrZero(h.smokingStatus) != 0
  {
    var cs := Conditions(h);
    assert ToLower("Smoking") == "smoking";
    if IntOrZero(h.smokingStatus) != 0 {
      assert cs[|cs| - 1] == "Smoking";
    }
    forall i | 0 <= i < |cs| && ToLower(cs[i]) == "smoking" ensures IntOrZero(h.smokingStatus) != 0 {
      ConditionNames(h, i);
      assert |cs[i]| == 7;
    }
  }

  lemma LowerHighCholesterol(s: string)
    requires s == "High Cholesterol"
    ensures ToLower(s) == "high cholesterol"
  {
    var t := ToLower(s);
    forall i | 0 <= i < 16 ensures t[i] == "high cholesterol"[i] {
    }
  }

  lemma LowerAlcoholUse(s: string)
    requires s == "Alcohol Use"
    ensures ToLower(s) == "alcohol use"
  {
    var t := ToLower(s);
    forall i | 0 <= i < 11 ensures t[i] == "alcohol use"[i] {
    }
  }

  /** The fibre rule applies exactly when the high-cholesterol flag is set. */
  lemma CholesterolRecognised(h: HealthRecord, p: PredictionRow)
    ensures HasCondition(BuildContext(h, p), "high cholesterol") <==> Truthy(h.highCholesterol)
  {
    var cs := Conditions(h);
    LowerHighCholesterol("High Cholesterol");
    if Truthy(h.highCholesterol) {
      assert cs[0] == "High Cholesterol";
    }
    forall i | 0 <= i < |cs| && ToLower(cs[i]) == "high cholesterol" ensures Truthy(h.highCholesterol) {
      ConditionNames(h, i);
      assert |cs[i]| == 16;
    }
  }

  lemma AlcoholListed(h: HealthRecord) returns (k: int)
    requires Truthy(h.alcohol)
    ensures 0 <= k < |Conditions(h)| && Conditions(h)[k] == "Alcohol Use"
  {
    var pre := When(Truthy(h.highCholesterol), "High Cholesterol") +
      When(Truthy(h.hyperTension), "Hypertension") +
      When(Truthy(h.heartDisease), "Heart Disease") +
      When(Truthy(h.diabetes), "Diabetes");
    assert Conditions(h) == pre + ["Alcohol Use"] + When(IntOrZero(h.smokingStatus) != 0, "Smoking");
    k := |pre|;
  }

  /** The alcohol rule applies exactly when the alcohol flag is set. */
  lemma AlcoholRecognised(h: HealthRecord, p: PredictionRow)
    ensures HasCondition(BuildContext(h, p), "alcohol use") <==> Truthy(h.alcohol)
  {
    var cs := Conditions(h);
    LowerAlcoholUse("Alcohol Use");
    if Truthy(h.alcohol) {
      var k := AlcoholListed(h);
    }
    forall i | 0 <= i < |cs| && ToLower(cs[i]) == "alcohol use" ensures Truthy(h.alcohol) {
      ConditionNames(h, i);
      assert |cs[i]| == 11;
    }
  }

  // ---------------------------------------------------------------------
  // get_health_recommendations

  const MissingRowsError := "Health or prediction data not found."

  /**
   * An error when the health record or its prediction is missing; otherwise
   * the model's reply when there is one, else the rule-based advice.
   */
  function GetHealthRecommendations(db: Db, healthDataId: int, reply: Option<Advice>): (r: Result<Advice, string>)
    ensures r.Err? <==> HealthById(db.health, healthDataId).None? || PredictionFor(db.predictions, healthDataId).None?
    ensures r.Err? ==> r.error == MissingRowsError
    ensures r.Ok? && reply.Some? ==> r.value == reply.value
    ensures r.Ok? && reply.None? ==>
      r.value == Fallback(BuildContext(HealthById(db.health, healthDataId).value,
                                       PredictionFor(db.predictions, healthDataId).value))
  {
    var h := HealthById(db.health, healthDataId);
    var p := PredictionFor(db.predictions, healthDataId);
    if h.None? || p.None? then Err(MissingRowsError)
    else if reply.Some? then Ok(reply.value)
    else Ok(Fallback(BuildContext(h.value, p.value)))
  }
}
