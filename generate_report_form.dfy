/**
 * client/src/components/GenerateReportForm.js: the fifteen answers of the
 * health form, their alert flags, and the guard that decides whether the
 * form is posted to /healthPrediction.
 */
module GenerateReportForm {
  import opened Wrappers
  import HealthPrediction

  /**
   * What one of the form's `type="text"` inputs holds: the text typed, what
   * JavaScript's number conversion makes of it (None for NaN; the empty or
   * blank text reads as 0 and "0x10" as 16), and what the server's number
   * parsing of the posted text gives (None when it refuses the text, as it
   * refuses "", "  " and "0x10"). Both conversions are inputs.
   */
  datatype TextInput = TextInput(text: string, asNumber: Option<real>, serverReads: Option<real>)

  /** The server reads the text as the browser does. */
  predicate ReadAlike(t: TextInput) {
    t.serverReads == t.asNumber
  }

  /** The numeric answers other than age, each checked against an inclusive range. */
  datatype Measure = Weight | Height | BloodGlucose | ApLow | ApHigh

  /** The answers chosen with radio buttons. */
  datatype Choice = Gender | HyperTension | HeartDisease | Diabetes | HighCholesterol | Alcohol | Smoker | MaritalStatus | WorkingStatus

  /** A form field, each with its own alert flag. */
  datatype Field = AgeField | MeasureField(m: Measure) | ChoiceField(c: Choice)

  const AllFields: set<Field> := {
    AgeField,
    MeasureField(Weight), MeasureField(Height), MeasureField(BloodGlucose), MeasureField(ApLow), MeasureField(ApHigh),
    ChoiceField(Gender), ChoiceField(HyperTension), ChoiceField(HeartDisease), ChoiceField(Diabetes),
    ChoiceField(HighCholesterol), ChoiceField(Alcohol), ChoiceField(Smoker), ChoiceField(MaritalStatus),
    ChoiceField(WorkingStatus)}

  lemma InAllFields(f: Field)
    ensures f in AllFields
  {
    match f
    case AgeField =>
    case MeasureField(m) => match m { case Weight => case Height => case BloodGlucose => case ApLow => case ApHigh => }
    case ChoiceField(c) =>
      match c {
        case Gender => case HyperTension => case HeartDisease => case Diabetes => case HighCholesterol =>
        case Alcohol => case Smoker => case MaritalStatus => case WorkingStatus =>
      }
  }

  /** The largest accepted value of each measure; every lower bound is 0. */
  function UpperBound(m: Measure): real {
    match m
    case Weight => 200.0
    case Height => 300.0
    case BloodGlucose => 20.0
    case ApLow => 200.0
    case ApHigh => 200.0
  }

  /**
   * The validity test of `updateWeight`, `updateHeight`, `updateBloodGlucose`,
   * `updateApLow` and `updateApHigh`: the raw text is not "", and the
   * comparisons, which convert it to a number, place it in the range (NaN
   * fails both).
   */
  predicate MeasureValid(m: Measure, t: TextInput) {
    t.text != "" && t.asNumber.Some? && 0.0 <= t.asNumber.value <= UpperBound(m)
  }

  /** The server's rule for a measure, applied to the number it reads from the posted text. */
  predicate ServerMeasureValid(m: Measure, t: TextInput) {
    t.serverReads.Some? &&
    var v := t.serverReads.value;
    match m
    case Weight => HealthPrediction.IsWeightValid(v)
    case Height => HealthPrediction.IsHeightValid(v)
    case BloodGlucose => HealthPrediction.IsBloodGlucoseValid(v)
    case ApLow => HealthPrediction.IsPressureValid(v)
    case ApHigh => HealthPrediction.IsPressureValid(v)
  }

  /**
   * Where the server reads a non-empty text as the browser does, a measure
   * passes the client's test exactly when it passes the server's rule.
   */
  lemma MeasureMatchesServer(m: Measure, t: TextInput)
    requires ReadAlike(t) && t.text != ""
    ensures MeasureValid(m, t) <==> ServerMeasureValid(m, t)
  {
  }

  /**
   * The client's test is weaker than the server's: blank text reads as 0 and
   * hexadecimal text as its value, so both pass the weight test, and the
   * server, which parses neither, answers 422.
   */
  lemma UnparsedTextPassesClient(blank: TextInput, hex: TextInput)
    requires blank == TextInput("  ", Some(0.0), None)
    requires hex == TextInput("0x10", Some(16.0), None)
    ensures MeasureValid(Weight, blank) && !ServerMeasureValid(Weight, blank)
    ensures MeasureValid(Weight, hex) && !ServerMeasureValid(Weight, hex)
  {
  }

  predicate IsInteger(x: real) {
    x.Floor as real == x
  }

  /**
   * `updateAge` AS WRITTEN: `Number(e.target.value)` is tested, and its
   * `ageValue !== ""` compares a number with a string, which always holds, so
   * an empty age passes as 0.
   */
  predicate AgeValidAsWritten(t: TextInput) {
    t.asNumber.Some? && IsInteger(t.asNumber.value) && 0.0 <= t.asNumber.value <= 100.0
  }

  /** The empty age is accepted by the test as written, although the form then posts "" for it. */
  lemma EmptyAgeAccepted(t: TextInput)
    requires t == TextInput("", Some(0.0), None)
    ensures AgeValidAsWritten(t)
  {
  }

  /** `updateAge` as intended: the typed text is not "", and it reads as an integer from 0 to 100. */
  predicate AgeValid(t: TextInput) {
    t.text != "" && AgeValidAsWritten(t)
  }

  /** The server's `age: int` and its age rule, applied to the posted text. */
  predicate ServerAgeValid(t: TextInput) {
    t.serverReads.Some? && IsInteger(t.serverReads.value) && HealthPrediction.IsAgeValid(t.serverReads.value.Floor)
  }

  /**
   * The intended age test refuses the empty age; on other text it agrees with
   * the test as written, and, where the server reads the text as the browser
   * does, with the server.
   */
  lemma AgeMatchesServer(t: TextInput)
    ensures t.text == "" ==> !AgeValid(t)
    ensures t.text != "" ==> (AgeValid(t) <==> AgeValidAsWritten(t))
    ensures ReadAlike(t) && t.text != "" ==> (AgeValid(t) <==> ServerAgeValid(t))
  {
  }

  /** A numeric answer with the validity its handler computed. */
  datatype Checked = Checked(isValid: bool, value: TextInput)

  /** The radio options the form offers. */
  const GenderOptions: set<string> := {"Male", "Female"}
  const FlagOptions: set<string> := {"1", "0"}
  const SmokerOptions: set<string> := {"Yes", "No", "Former smoker"}
  const MaritalOptions: set<string> := {"Married", "Single"}
  const WorkingOptions: set<string> := {"Unemployed", "Student", "Private", "Public"}

  function Options(c: Choice): set<string> {
    match c
    case Gender => GenderOptions
    case Smoker => SmokerOptions
    case MaritalStatus => MaritalOptions
    case WorkingStatus => WorkingOptions
    case _ => FlagOptions
  }

  /** Every option the form offers is a key of the server's map for that answer. */
  lemma OptionsKnownToServer()
    ensures forall o :: o in GenderOptions ==> o in HealthPrediction.GenderMap
    ensures forall o :: o in SmokerOptions ==> o in HealthPrediction.SmokerMap
    ensures forall o :: o in MaritalOptions ==> o in HealthPrediction.MaritalMap
    ensures forall o :: o in WorkingOptions ==> o in HealthPrediction.WorkingMap
  {
  }

  lemma OfferedChoicesKnown(gender: string, smoker: string, marital: string, working: string)
    requires gender in GenderOptions && smoker in SmokerOptions
    requires marital in MaritalOptions && working in WorkingOptions
    ensures gender in HealthPrediction.GenderMap && smoker in HealthPrediction.SmokerMap
    ensures marital in HealthPrediction.MaritalMap && working in HealthPrediction.WorkingMap
  {
    OptionsKnownToServer();
  }

  /** The 0/1 value a yes/no option stands for. */
  function FlagValue(o: string): int {
    if o == "1" then 1 else 0
  }

  class Form {
    var age: Option<Checked>
    var measures: map<Measure, Checked>
    var choices: map<Choice, string>
    var alerts: set<Field>

    /** The validity flags the handlers store agree with the answers they describe. */
    predicate Valid()
      reads this
    {
      (age.Some? ==> age.value.isValid == AgeValid(age.value.value)) &&
      (forall m :: m in measures ==> measures[m].isValid == MeasureValid(m, measures[m].value))
    }

    constructor()
      ensures age == None && measures == map[] && choices == map[] && alerts == {}
      ensures Valid()
    {
      age, measures, choices, alerts := None, map[], map[], {};
    }

    /** `updateAge`: the age and its validity are stored; its alert shows an invalid age. */
    method UpdateAge(input: TextInput)
      requires Valid()
      modifies this
      ensures Valid()
      ensures age == Some(Checked(AgeValid(input), input))
      ensures alerts == if AgeValid(input) then old(alerts) - {AgeField} else old(alerts) + {AgeField}
      ensures measures == old(measures) && choices == old(choices)
    {
      var valid := AgeValid(input);
      age := Some(Checked(valid, input));
      alerts := if valid then alerts - {AgeField} else alerts + {AgeField};
    }

    /** `updateWeight` and its four siblings. */
    method UpdateMeasure(m: Measure, input: TextInput)
      requires Valid()
      modifies this
      ensures Valid()
      ensures measures == old(measures)[m := Checked(MeasureValid(m, input), input)]
      ensures alerts == if MeasureValid(m, input) then old(alerts) - {MeasureField(m)} else old(alerts) + {MeasureField(m)}
      ensures age == old(age) && choices == old(choices)
    {
      var valid := MeasureValid(m, input);
      measures := measures[m := Checked(valid, input)];
      alerts := if valid then alerts - {MeasureField(m)} else alerts + {MeasureField(m)};
    }

    /** `updateGender` and the other radio handlers: the option is stored and only that field's alert is cleared. */
    method UpdateChoice(c: Choice, option: string)
      requires Valid()
      modifies this
      ensures Valid()
      ensures choices == old(choices)[c := option]
      ensures alerts == old(alerts) - {ChoiceField(c)}
      ensures age == old(age) && measures == old(measures)
    {
      choices := choices[c := option];
      alerts := alerts - {ChoiceField(c)};
    }

    /** A field that is still unanswered or holds an invalid answer. */
    predicate Missing(f: Field)
      reads this
    {
      match f
      case AgeField => age.None? || !age.value.isValid
      case MeasureField(m) => m !in measures || !measures[m].isValid
      case ChoiceField(c) => c !in choices
    }

    /** `isAllInputsValid`. */
    predicate AllInputsValid()
      reads this
    {
      age.Some? && age.value.isValid &&
      (forall m :: m in measures && measures[m].isValid) &&
      (forall c :: c in choices)
    }

    /** The fields `updateAllInputFieldAlerts` flags. */
    function MissingFields(): (s: set<Field>)
      reads this
      ensures forall f :: f in s <==> f in AllFields && Missing(f)
    {
      set f | f in AllFields && Missing(f)
    }

    /** The form is complete exactly when no field is missing. */
    lemma CompleteIffNothingMissing()
      ensures AllInputsValid() <==> MissingFields() == {}
    {
      if MissingFields() == {} {
        forall m: Measure ensures m in measures && measures[m].isValid {
          InAllFields(MeasureField(m));
          assert MeasureField(m) !in MissingFields();
        }
        forall c: Choice ensures c in choices {
          InAllFields(ChoiceField(c));
          assert ChoiceField(c) !in MissingFields();
        }
        InAllFields(AgeField);
        assert AgeField !in MissingFields();
      } else {
        var f :| f in MissingFields();
      }
    }

    /** `updateAllInputFieldAlerts`: each alert shows exactly a missing or invalid answer. */
    method UpdateAllInputFieldAlerts()
      modifies this
      ensures alerts == MissingFields()
      ensures age == old(age) && measures == old(measures) && choices == old(choices)
    {
      alerts := MissingFields();
    }

    /**
     * `handleSubmit` up to the request: the alerts are refreshed and the
     * form is posted only when every answer is present and valid.
     */
    method HandleSubmit() returns (posted: bool)
      modifies this
      ensures posted <==> AllInputsValid()
      ensures posted <==> alerts == {}
      ensures alerts == MissingFields()
      ensures age == old(age) && measures == old(measures) && choices == old(choices)
    {
      UpdateAllInputFieldAlerts();
      CompleteIffNothingMissing();
      posted := AllInputsValid();
    }

    /** Every radio answer is one the form offers. */
    predicate ChoicesOffered()
      reads this
    {
      forall c :: c in choices ==> choices[c] in Options(c)
    }

    /** Every numeric answer the form holds is read by the server as the browser reads it. */
    predicate AnswersReadAlike()
      reads this
    {
      (age.Some? ==> ReadAlike(age.value.value)) &&
      (forall m :: m in measures ==> ReadAlike(measures[m].value))
    }

    /** The server decodes the posted numbers: the age as an integer, each measure as a number. */
    predicate ServerDecodes()
      reads this
      requires AllInputsValid()
    {
      var a := age.value.value.serverReads;
      a.Some? && IsInteger(a.value) &&
      measures[Weight].value.serverReads.Some? && measures[Height].value.serverReads.Some? &&
      measures[BloodGlucose].value.serverReads.Some? && measures[ApHigh].value.serverReads.Some? &&
      measures[ApLow].value.serverReads.Some?
    }

    /**
     * The request the server decodes from a posted form, or None when the
     * server cannot decode one of its numbers (pydantic's 422).
     */
    function Submission(): (r: Option<HealthPrediction.HealthInput>)
      reads this
      requires AllInputsValid()
      ensures r.Some? <==> ServerDecodes()
    {
      if !ServerDecodes() then None
      else
        Some(HealthPrediction.HealthInput(
          age.value.value.serverReads.value.Floor, measures[Weight].value.serverReads.value,
          measures[Height].value.serverReads.value, choices[Gender],
          measures[BloodGlucose].value.serverReads.value, measures[ApHigh].value.serverReads.value,
          measures[ApLow].value.serverReads.value,
          FlagValue(choices[HighCholesterol]), FlagValue(choices[HyperTension]),
          FlagValue(choices[HeartDisease]), FlagValue(choices[Diabetes]), FlagValue(choices[Alcohol]),
          choices[Smoker], choices[MaritalStatus], choices[WorkingStatus], None))
    }

    /**
     * A form the client lets through, with the options it offers and numbers
     * the server reads as the browser does, is decoded by the server and
     * passes every check of its validate_all_input.
     */
    lemma PostedFormPassesServer()
      requires Valid() && AllInputsValid() && ChoicesOffered() && AnswersReadAlike()
      ensures Submission().Some? && HealthPrediction.ValidateAllInput(Submission().value)
    {
      var a, w, h := age.value.value, measures[Weight].value, measures[Height].value;
      var g, hi, lo := measures[BloodGlucose].value, measures[ApHigh].value, measures[ApLow].value;
      assert AgeValid(a) && ReadAlike(a);
      assert MeasureValid(Weight, w) && ReadAlike(w) && MeasureValid(Height, h) && ReadAlike(h);
      assert MeasureValid(BloodGlucose, g) && ReadAlike(g);
      assert MeasureValid(ApHigh, hi) && ReadAlike(hi) && MeasureValid(ApLow, lo) && ReadAlike(lo);
      assert choices[Gender] in Options(Gender) && choices[Smoker] in Options(Smoker);
      assert choices[MaritalStatus] in Options(MaritalStatus) && choices[WorkingStatus] in Options(WorkingStatus);
      OfferedChoicesKnown(choices[Gender], choices[Smoker], choices[MaritalStatus], choices[WorkingStatus]);
    }
  }
}
