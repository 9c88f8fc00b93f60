/**
 * Validation of the prediction form (app.py): the two field parsers, the three
 * closed enumerations, the six checks in their fixed order, the cross-field
 * range check and the six-column feature row handed to the classifier.
 */
module FormValidation {
  import opened Wrappers
  import opened PyStrings

  // ---------------------------------------------------------------------------
  // Closed enumerations (FormChoices)
  // ---------------------------------------------------------------------------

  datatype Gender = Male | Female | Other {
    function Label(): string {
      match this
      case Male => "Male"
      case Female => "Female"
      case Other => "Other"
    }
  }

  datatype ActivityLevel = Low | Moderate | High {
    function Label(): string {
      match this
      case Low => "Low"
      case Moderate => "Moderate"
      case High => "High"
    }
  }

  datatype Weather = Cold | Mild | Hot | Humid | Rainy {
    function Label(): string {
      match this
      case Cold => "Cold"
      case Mild => "Mild"
      case Hot => "Hot"
      case Humid => "Humid"
      case Rainy => "Rainy"
    }
  }

  /** The `allowed` tuples passed to the choice parser, in declaration order. */
  const GENDERS: seq<string> := ["Male", "Female", "Other"]
  const ACTIVITY_LEVELS: seq<string> := ["Low", "Moderate", "High"]
  const WEATHER_CONDITIONS: seq<string> := ["Cold", "Mild", "Hot", "Humid", "Rainy"]

  function GenderOf(name: string): (g: Gender)
    requires name in GENDERS
    ensures g.Label() == name
  {
    if name == "Male" then Male else if name == "Female" then Female else Other
  }

  function ActivityLevelOf(name: string): (a: ActivityLevel)
    requires name in ACTIVITY_LEVELS
    ensures a.Label() == name
  {
    if name == "Low" then Low else if name == "Moderate" then Moderate else High
  }

  function WeatherOf(name: string): (w: Weather)
    requires name in WEATHER_CONDITIONS
    ensures w.Label() == name
  {
    if name == "Cold" then Cold
    else if name == "Mild" then Mild
    else if name == "Hot" then Hot
    else if name == "Humid" then Humid
    else Rainy
  }

  /** Each enumeration is in one-to-one correspondence with its list of labels. */
  lemma LabelsRoundTrip()
    ensures forall g: Gender :: g.Label() in GENDERS && GenderOf(g.Label()) == g
    ensures forall a: ActivityLevel :: a.Label() in ACTIVITY_LEVELS && ActivityLevelOf(a.Label()) == a
    ensures forall w: Weather :: w.Label() in WEATHER_CONDITIONS && WeatherOf(w.Label()) == w
  {
  }

  // ---------------------------------------------------------------------------
  // Errors and their messages
  // ---------------------------------------------------------------------------

  /** The ValueError messages raised during validation. */
  datatype FieldError =
    | Required(name: string)
    | NotANumber(name: string)
    | Invalid(name: string)
    | Unrealistic

  function Message(e: FieldError): string {
    match e
    case Required(name) => name + " is required."
    case NotANumber(name) => name + " must be a number."
    case Invalid(name) => "Invalid " + name + "."
    case Unrealistic => "Please enter realistic positive values."
  }

  // ---------------------------------------------------------------------------
  // Field parsers
  // ---------------------------------------------------------------------------

  /** Python's `float(value)`, left abstract: the parsed number, or None when it
      raises ValueError. */
  type NumberParser = string -> Option<real>

  /** The submitted form: field key to submitted text. */
  type Form = map<string, string>

  /** `request.form.get(key, "")`. */
  function RawField(form: Form, key: string): string {
    if key in form then form[key] else ""
  }

  /** `parse_float(name, value)`: `None` stands for Python's None. */
  function ParseFloat(name: string, value: Option<string>, parse: NumberParser): (r: Result<real, FieldError>)
    ensures r == Failure(Required(name)) <==> value.None? || AllSpace(value.value)
    ensures r == Failure(NotANumber(name)) <==>
              value.Some? && !AllSpace(value.value) && parse(value.value).None?
    ensures r.Success? <==> value.Some? && !AllSpace(value.value) && parse(value.value).Some?
    ensures r.Success? ==> parse(value.value) == Some(r.value)
    ensures r.Failure? ==> r.error == Required(name) || r.error == NotANumber(name)
  {
    if value.None? then
      Failure(Required(name))
    else
      if Strip(value.value) == "" then Failure(Required(name))
      else if parse(value.value).None? then Failure(NotANumber(name))
      else Success(parse(value.value).value)
  }

  /** `parse_choice(name, value, allowed)`: membership is exact, the value is not
      trimmed before it is looked up. */
  function ParseChoice(name: string, value: Option<string>, allowed: seq<string>): (r: Result<string, FieldError>)
    ensures r == Failure(Required(name)) <==> value.None? || AllSpace(value.value)
    ensures r == Failure(Invalid(name)) <==>
              value.Some? && !AllSpace(value.value) && value.value !in allowed
    ensures r.Success? <==> value.Some? && !AllSpace(value.value) && value.value in allowed
    ensures r.Success? ==> r.value == value.value && r.value in allowed
    ensures r.Failure? ==> r.error == Required(name) || r.error == Invalid(name)
  {
    if value.None? then
      Failure(Required(name))
    else
      if Strip(value.value) == "" then Failure(Required(name))
      else if value.value !in allowed then Failure(Invalid(name))
      else Success(value.value)
  }

  /** A choice padded with a space is rejected as invalid rather than trimmed. */
  lemma PaddedChoiceIsInvalid()
    ensures ParseChoice("Gender", Some(" Male"), GENDERS) == Failure(Invalid("Gender"))
  {
  }

  // ---------------------------------------------------------------------------
  // The six fields, in the order the handler checks them
  // ---------------------------------------------------------------------------

  /** A form field: its key in the form and its name in error messages. */
  datatype FieldSpec =
    | NumberField(key: string, name: string)
    | ChoiceField(key: string, name: string, allowed: seq<string>)

  const AGE := NumberField("age", "Age")
  const WEIGHT := NumberField("weight", "Weight")
  const DAILY_WATER := NumberField("daily_water_intake", "Daily Water Intake")
  const GENDER := ChoiceField("gender", "Gender", GENDERS)
  const ACTIVITY := ChoiceField("physical_activity_level", "Physical Activity Level", ACTIVITY_LEVELS)
  const WEATHER := ChoiceField("weather", "Weather", WEATHER_CONDITIONS)

  const FIELDS: seq<FieldSpec> := [AGE, WEIGHT, DAILY_WATER, GENDER, ACTIVITY, WEATHER]

  function ErrorOf<T>(r: Result<T, FieldError>): Option<FieldError> {
    if r.Failure? then Some(r.error) else None
  }

  /** The error one field raises when it is checked on its own. */
  function FieldCheck(f: FieldSpec, form: Form, parse: NumberParser): Option<FieldError> {
    match f
    case NumberField(key, name) => ErrorOf(ParseFloat(name, Some(RawField(form, key)), parse))
    case ChoiceField(key, name, allowed) => ErrorOf(ParseChoice(name, Some(RawField(form, key)), allowed))
  }

  /** Reference definition of "the first failing field wins": the error of the
      first field in `fields` whose own check fails. */
  function FirstFailure(fields: seq<FieldSpec>, form: Form, parse: NumberParser): Option<FieldError> {
    if fields == [] then None
    else if FieldCheck(fields[0], form, parse).Some? then FieldCheck(fields[0], form, parse)
    else FirstFailure(fields[1..], form, parse)
  }

  /** `FirstFailure` is None exactly when every field passes, and otherwise is
      the error of a failing field all of whose predecessors pass. */
  lemma {:induction false} FirstFailureIsFirst(fields: seq<FieldSpec>, form: Form, parse: NumberParser)
    ensures var r := FirstFailure(fields, form, parse);
      && (r.None? <==> forall i | 0 <= i < |fields| :: FieldCheck(fields[i], form, parse).None?)
      && (r.Some? ==> exists i | 0 <= i < |fields| ::
            && FieldCheck(fields[i], form, parse) == r
            && forall j | 0 <= j < i :: FieldCheck(fields[j], form, parse).None?)
  {
    if fields != [] && FieldCheck(fields[0], form, parse).None? {
      FirstFailureIsFirst(fields[1..], form, parse);
      var r := FirstFailure(fields, form, parse);
      assert forall i | 1 <= i < |fields| :: fields[i] == fields[1..][i - 1];
      if r.Some? {
        var k :| 0 <= k < |fields[1..]| && FieldCheck(fields[1..][k], form, parse) == r
                 && forall j | 0 <= j < k :: FieldCheck(fields[1..][j], form, parse).None?;
        assert FieldCheck(fields[k + 1], form, parse) == r;
      }
    }
  }

  // ---------------------------------------------------------------------------
  // Feature row
  // ---------------------------------------------------------------------------

  /** A column value of the one-row table handed to the classifier. */
  datatype Cell = Number(x: real) | Category(value: string)

  /** The keys of the row dictionary, in the order the handler writes them. */
  const ROW_COLUMNS: seq<string> := [
    "Age", "Weight (kg)", "Gender", "Daily Water Intake (liters)", "Physical Activity Level", "Weather"]

  /** The six validated fields. */
  datatype Row = Row(
    age: real,
    weight: real,
    gender: Gender,
    dailyWater: real,
    activity: ActivityLevel,
    weather: Weather)
  {
    /** The row dictionary, keyed by the training data's column names. */
    function Columns(): map<string, Cell> {
      map[
        "Age" := Number(age),
        "Weight (kg)" := Number(weight),
        "Gender" := Category(gender.Label()),
        "Daily Water Intake (liters)" := Number(dailyWater),
        "Physical Activity Level" := Category(activity.Label()),
        "Weather" := Category(weather.Label())]
    }
  }

  /** The cross-field sanity condition: age and weight strictly positive, water
      intake non-negative. */
  predicate Realistic(row: Row) {
    row.age > 0.0 && row.weight > 0.0 && row.dailyWater >= 0.0
  }

  /** The six field checks of the handler, in its order, stopping at the first
      failure. */
  function ParseFields(form: Form, parse: NumberParser): (r: Result<Row, FieldError>)
    ensures r.Failure? ==> !r.error.Unrealistic?
    ensures r.Success? ==>
              && parse(RawField(form, AGE.key)) == Some(r.value.age)
              && parse(RawField(form, WEIGHT.key)) == Some(r.value.weight)
              && parse(RawField(form, DAILY_WATER.key)) == Some(r.value.dailyWater)
              && r.value.gender.Label() == RawField(form, GENDER.key)
              && r.value.activity.Label() == RawField(form, ACTIVITY.key)
              && r.value.weather.Label() == RawField(form, WEATHER.key)
  {
    var age :- ParseFloat(AGE.name, Some(RawField(form, AGE.key)), parse);
    var weight :- ParseFloat(WEIGHT.name, Some(RawField(form, WEIGHT.key)), parse);
    var water :- ParseFloat(DAILY_WATER.name, Some(RawField(form, DAILY_WATER.key)), parse);
    var gender :- ParseChoice(GENDER.name, Some(RawField(form, GENDER.key)), GENDER.allowed);
    var activity :- ParseChoice(ACTIVITY.name, Some(RawField(form, ACTIVITY.key)), ACTIVITY.allowed);
    var weather :- ParseChoice(WEATHER.name, Some(RawField(form, WEATHER.key)), WEATHER.allowed);
    Success(Row(age, weight, GenderOf(gender), water, ActivityLevelOf(activity), WeatherOf(weather)))
  }

  /** The handler reports the error of the first failing field in the order Age,
      Weight, Daily Water Intake, Gender, Physical Activity Level, Weather. */
  lemma ParseFieldsReportsFirstFailure(form: Form, parse: NumberParser)
    ensures ParseFields(form, parse).Success? <==> FirstFailure(FIELDS, form, parse).None?
    ensures ParseFields(form, parse).Failure? ==>
              Some(ParseFields(form, parse).error) == FirstFailure(FIELDS, form, parse)
  {
    var fs := FIELDS;
    assert fs[1..] == [WEIGHT, DAILY_WATER, GENDER, ACTIVITY, WEATHER];
    assert fs[2..] == fs[1..][1..];
    assert fs[3..] == fs[2..][1..];
    assert fs[4..] == fs[3..][1..];
    assert fs[5..] == fs[4..][1..];
    assert fs[6..] == fs[5..][1..] == [];
    if FieldCheck(AGE, form, parse).None? {
      assert FirstFailure(fs[0..], form, parse) == FirstFailure(fs[1..], form, parse);
      if FieldCheck(WEIGHT, form, parse).None? {
        assert FirstFailure(fs[1..], form, parse) == FirstFailure(fs[2..], form, parse);
        if FieldCheck(DAILY_WATER, form, parse).None? {
          assert FirstFailure(fs[2..], form, parse) == FirstFailure(fs[3..], form, parse);
          if FieldCheck(GENDER, form, parse).None? {
            assert FirstFailure(fs[3..], form, parse) == FirstFailure(fs[4..], form, parse);
            if FieldCheck(ACTIVITY, form, parse).None? {
              assert FirstFailure(fs[4..], form, parse) == FirstFailure(fs[5..], form, parse);
              if FieldCheck(WEATHER, form, parse).None? {
                assert FirstFailure(fs[5..], form, parse) == FirstFailure(fs[6..], form, parse);
              }
            }
          }
        }
      }
    }
  }

  /** The body of the predict handler up to the model call: field checks, then
      the range check, then the row. */
  function Validate(form: Form, parse: NumberParser): (r: Result<Row, FieldError>)
    ensures r == Failure(Unrealistic) <==>
              ParseFields(form, parse).Success? && !Realistic(ParseFields(form, parse).value)
    ensures r.Success? <==>
              ParseFields(form, parse).Success? && Realistic(ParseFields(form, parse).value)
    ensures r.Failure? && r.error != Unrealistic ==> r == ParseFields(form, parse)
    ensures r.Success? ==> r == ParseFields(form, parse) && Realistic(r.value)
  {
    var row :- ParseFields(form, parse);
    if row.age <= 0.0 || row.weight <= 0.0 || row.dailyWater < 0.0 then
      Failure(Unrealistic)
    else
      Success(row)
  }

  // ---------------------------------------------------------------------------
  // Properties of the whole validation sequence
  // ---------------------------------------------------------------------------

  /** The reported error is the one of the first failing field; when every field
      passes, only the range check can still reject. */
  lemma ValidateReportsFirstFailingField(form: Form, parse: NumberParser)
    ensures FirstFailure(FIELDS, form, parse).Some? ==>
              Validate(form, parse) == Failure(FirstFailure(FIELDS, form, parse).value)
    ensures FirstFailure(FIELDS, form, parse).None? ==>
              Validate(form, parse).Success? || Validate(form, parse) == Failure(Unrealistic)
  {
    ParseFieldsReportsFirstFailure(form, parse);
  }

  /** A field's own check reads nothing of the form but that field. */
  lemma FieldCheckReadsOwnKey(f: FieldSpec, f1: Form, f2: Form, parse: NumberParser)
    requires RawField(f1, f.key) == RawField(f2, f.key)
    ensures FieldCheck(f, f1, parse) == FieldCheck(f, f2, parse)
  {
  }

  /** Once a field fails, what is submitted in the fields after it cannot change
      the outcome. */
  lemma {:induction false} FirstFailureIgnoresLaterFields(
    fields: seq<FieldSpec>, f1: Form, f2: Form, parse: NumberParser, i: nat)
    requires i < |fields|
    requires forall j | 0 <= j <= i :: RawField(f1, fields[j].key) == RawField(f2, fields[j].key)
    requires FieldCheck(fields[i], f1, parse).Some?
    ensures FirstFailure(fields, f1, parse) == FirstFailure(fields, f2, parse)
    ensures FirstFailure(fields, f1, parse).Some?
  {
    FieldCheckReadsOwnKey(fields[0], f1, f2, parse);
    if i > 0 && FieldCheck(fields[0], f1, parse).None? {
      assert forall j | 0 <= j <= i - 1 :: fields[1..][j] == fields[j + 1];
      FirstFailureIgnoresLaterFields(fields[1..], f1, f2, parse, i - 1);
    }
  }

  /** Two submissions that agree up to and including a failing field are
      answered with the same error, whatever follows it. */
  lemma LaterFieldsCannotMaskEarlier(f1: Form, f2: Form, parse: NumberParser, i: nat)
    requires i < |FIELDS|
    requires forall j | 0 <= j <= i :: RawField(f1, FIELDS[j].key) == RawField(f2, FIELDS[j].key)
    requires FieldCheck(FIELDS[i], f1, parse).Some?
    ensures Validate(f1, parse).Failure? && Validate(f1, parse) == Validate(f2, parse)
  {
    FirstFailureIgnoresLaterFields(FIELDS, f1, f2, parse, i);
    ValidateReportsFirstFailingField(f1, parse);
    ValidateReportsFirstFailingField(f2, parse);
  }

  /** A blank field is reported as required, provided the fields before it pass. */
  lemma BlankFieldIsRequired(form: Form, parse: NumberParser, i: nat)
    requires i < |FIELDS|
    requires AllSpace(RawField(form, FIELDS[i].key))
    requires forall j | 0 <= j < i :: FieldCheck(FIELDS[j], form, parse).None?
    ensures Validate(form, parse) == Failure(Required(FIELDS[i].name))
  {
    FirstFailureIsFirst(FIELDS, form, parse);
    ValidateReportsFirstFailingField(form, parse);
    var r := FirstFailure(FIELDS, form, parse);
    var k :| 0 <= k < |FIELDS| && FieldCheck(FIELDS[k], form, parse) == r
             && forall j | 0 <= j < k :: FieldCheck(FIELDS[j], form, parse).None?;
    assert k == i;
  }

  predicate AtMostZero(x: Option<real>) {
    x.Some? && x.value <= 0.0
  }

  predicate BelowZero(x: Option<real>) {
    x.Some? && x.value < 0.0
  }

  /** The range check rejects exactly when every field parses and age <= 0,
      weight <= 0 or water < 0; the notice is then the single generic one. */
  lemma RangeCheckRejectsExactly(form: Form, parse: NumberParser)
    ensures Validate(form, parse) == Failure(Unrealistic) <==>
              && FirstFailure(FIELDS, form, parse).None?
              && (|| AtMostZero(parse(RawField(form, AGE.key)))
                  || AtMostZero(parse(RawField(form, WEIGHT.key)))
                  || BelowZero(parse(RawField(form, DAILY_WATER.key))))
  {
    ParseFieldsReportsFirstFailure(form, parse);
  }

  /** No water at all is still a realistic intake. */
  lemma ZeroWaterIsAccepted(form: Form, parse: NumberParser)
    requires FirstFailure(FIELDS, form, parse).None?
    requires !AtMostZero(parse(RawField(form, AGE.key)))
    requires !AtMostZero(parse(RawField(form, WEIGHT.key)))
    requires parse(RawField(form, DAILY_WATER.key)) == Some(0.0)
    ensures Validate(form, parse).Success? && Validate(form, parse).value.dailyWater == 0.0
  {
    ParseFieldsReportsFirstFailure(form, parse);
  }

  /** On success the row has exactly the six training column names, each holding
      the validated value of its field. */
  lemma ValidatedRowColumns(form: Form, parse: NumberParser)
    requires Validate(form, parse).Success?
    ensures var cols := Validate(form, parse).value.Columns();
      && cols.Keys == {"Age", "Weight (kg)", "Gender", "Daily Water Intake (liters)",
                       "Physical Activity Level", "Weather"}
      && cols["Age"].Number? && parse(RawField(form, AGE.key)) == Some(cols["Age"].x)
      && cols["Weight (kg)"].Number? && parse(RawField(form, WEIGHT.key)) == Some(cols["Weight (kg)"].x)
      && cols["Daily Water Intake (liters)"].Number?
      && parse(RawField(form, DAILY_WATER.key)) == Some(cols["Daily Water Intake (liters)"].x)
      && cols["Gender"] == Category(RawField(form, GENDER.key))
      && cols["Physical Activity Level"] == Category(RawField(form, ACTIVITY.key))
      && cols["Weather"] == Category(RawField(form, WEATHER.key))
  {
  }

  /** A non-numeric age such as "abc" is reported as "Age must be a number." when
      the number parser rejects it. */
  lemma NonNumericAgeReported(form: Form, parse: NumberParser)
    requires RawField(form, AGE.key) == "abc"
    requires parse("abc").None?
    ensures Validate(form, parse) == Failure(NotANumber("Age"))
    ensures Message(Validate(form, parse).error) == "Age must be a number."
  {
    assert !IsSpace("abc"[0]);
    assert ParseFloat(AGE.name, Some(RawField(form, AGE.key)), parse) == Failure(NotANumber("Age"));
    assert ParseFields(form, parse) == Failure(NotANumber("Age"));
  }

  /** The sample submission of a 30-year-old, 70 kg male drinking 2.5 litres with
      moderate activity in hot weather yields exactly that row. */
  lemma SampleSubmissionAccepted(parse: NumberParser)
    requires parse("30") == Some(30.0) && parse("70") == Some(70.0) && parse("2.5") == Some(2.5)
    ensures var form := map[
              "age" := "30", "weight" := "70", "gender" := "Male",
              "daily_water_intake" := "2.5", "physical_activity_level" := "Moderate",
              "weather" := "Hot"];
      Validate(form, parse) == Success(Row(30.0, 70.0, Male, 2.5, Moderate, Hot))
  {
    var form := map[
      "age" := "30", "weight" := "70", "gender" := "Male",
      "daily_water_intake" := "2.5", "physical_activity_level" := "Moderate",
      "weather" := "Hot"];
    assert RawField(form, AGE.key) == "30" && !IsSpace("30"[0]);
    assert RawField(form, WEIGHT.key) == "70" && !IsSpace("70"[0]);
    assert RawField(form, DAILY_WATER.key) == "2.5" && !IsSpace("2.5"[0]);
    assert RawField(form, GENDER.key) == "Male" && !IsSpace("Male"[0]);
    assert RawField(form, ACTIVITY.key) == "Moderate" && !IsSpace("Moderate"[0]);
    assert RawField(form, WEATHER.key) == "Hot" && !IsSpace("Hot"[0]);
    assert ParseFields(form, parse) == Success(Row(30.0, 70.0, Male, 2.5, Moderate, Hot));
  }
}
