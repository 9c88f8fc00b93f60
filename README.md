# Hydration level predictor — verified model of input validation and schema resolution

The repository is a small Flask web form that predicts a person's hydration
level from six attributes (age, weight, gender, daily water intake, physical
activity level, weather), plus an offline script that trains the classifier
from a CSV file and saves it with joblib. The machine-learning work is done by
pandas and scikit-learn; what this project models is the logic around it:

- **Form validation** (`app.py`): `parse_float` and `parse_choice`, the three
  closed enumerations of `FormChoices`, the six field checks of the predict
  handler in their fixed order, the cross-field range check and the six-column
  row handed to the model (`form_validation.dfy`, with Python's `str.strip` in
  `py_strings.dfy`).
- **Lazy model cache and the predict handler** (`app.py`): `get_model` as a
  class with one `Option` field, and the handler deciding between a
  prediction, a rendered error and a redirect (`inference_service.dfy`).
- **Training-set schema resolution** (`train_model.py`): the feature and
  target-alias constants, `_find_target_column`, the missing-column report, the
  order of the two checks in `main`, and the numeric/categorical split of
  `build_pipeline` (`NUMERIC_FEATURES` and `CATEGORICAL_FEATURES`,
  train_model.py:51-52) (`training_schema.dfy`).
- **Agreement between the two** (`schema_agreement.dfy`): the row the web form
  builds has exactly the columns the training script requires.

`wrappers.dfy` holds the `Option` and `Result` datatypes.

Modelling choices:

- A submitted form is a `map<string, string>`; a missing key reads as `""`, as
  `request.form.get(key, "")` does. The parsers take an `Option<string>` so that
  their `None` branch is modelled, although the handler never passes `None`.
- Python's `float()` is a parameter `parse: string -> Option<real>` (None where
  `float()` raises). The blank test `value.strip() == ""` is modelled literally,
  with Python's set of whitespace characters, and proved equal to "every
  character is whitespace".
- The validated row holds enumeration values; `Row.Columns()` is the row
  dictionary, whose categorical entries are the enumeration labels, that is,
  the submitted strings.
- File existence, the result of `joblib.load` and `model.predict` are inputs of
  the methods that use them.
- The numeric fields are loosely described as "positive values" (that is also
  the wording of the range error), but the code accepts a daily water intake of
  exactly 0 (`app.py:101`); the model follows the code.

## Model

| member | source | states |
|---|---|---|
| PyStrings.IsSpace | app.py:50 | the characters `str.strip()` removes: Python's `isspace` set |
| PyStrings.LStripRemovesLeadingSpace | app.py:50 | `lstrip` leaves a suffix not starting with whitespace and removes only whitespace |
| PyStrings.RStripRemovesTrailingSpace | app.py:50 | `rstrip` leaves a prefix not ending with whitespace and removes only whitespace |
| PyStrings.StripEmptyIffAllSpace | app.py:50 | stripping leaves nothing exactly when every character is whitespace |
| PyStrings.Strip | app.py:50 | `value.strip() == ""` holds exactly for whitespace-only values (including "") |
| FormValidation.GenderOf | app.py:22 | every accepted gender string names a `Gender` whose label is that string |
| FormValidation.ActivityLevelOf | app.py:23 | every accepted activity string names an `ActivityLevel` whose label is that string |
| FormValidation.WeatherOf | app.py:24-30 | every accepted weather string names a `Weather` whose label is that string |
| FormValidation.LabelsRoundTrip | app.py:20-30 | each enumeration corresponds one-to-one with its tuple of allowed strings |
| FormValidation.RawField | app.py:76-97 | `request.form.get(key, "")`: the submitted text, or "" for an absent key |
| FormValidation.Message | app.py:51-102 | the notices "`name` is required.", "`name` must be a number.", "Invalid `name`." and "Please enter realistic positive values." |
| FormValidation.ParseFloat | app.py:49-55 | "required" exactly on None or blank input, "must be a number" exactly when the number parse fails, otherwise the parsed value |
| FormValidation.ParseChoice | app.py:57-62 | blank check before membership: "required" exactly on None or blank; "Invalid" exactly on a non-blank value not in `allowed`; otherwise the input unchanged, a member of `allowed` |
| FormValidation.PaddedChoiceIsInvalid | app.py:60-61 | " Male" is not trimmed: it is reported as an invalid gender |
| FormValidation.FirstFailureIsFirst | app.py:76-99 | the reference "first failing field" is None iff every field passes, else the error of a failing field whose predecessors all pass |
| FormValidation.ParseFields | app.py:76-99 | a failure is never the range error; on success each number is the parse of its field and each choice's label is the submitted string |
| FormValidation.ParseFieldsReportsFirstFailure | app.py:76-99 | the six checks in the order Age, Weight, Daily Water Intake, Gender, Physical Activity Level, Weather report exactly the first failing field's error |
| FormValidation.Validate | app.py:101-102 | the range error is returned exactly when all fields parse and the row is out of range; success exactly when they parse and it is in range, with that row |
| FormValidation.ValidateReportsFirstFailingField | app.py:76-102 | a failing field's error wins over the range check; with no failing field only the range check can reject |
| FormValidation.FieldCheckReadsOwnKey | app.py:76-99 | a field's check depends on that field's submitted text alone |
| FormValidation.FirstFailureIgnoresLaterFields | app.py:76-99 | forms agreeing up to a failing field have the same first failure |
| FormValidation.LaterFieldsCannotMaskEarlier | app.py:76-99 | whatever is submitted after a failing field, the handler reports the same error |
| FormValidation.BlankFieldIsRequired | app.py:76-99 | a blank field whose predecessors pass is reported as "`name` is required." |
| FormValidation.RangeCheckRejectsExactly | app.py:101-102 | "Please enter realistic positive values." exactly when all fields parse and age <= 0, weight <= 0 or water < 0 |
| FormValidation.ZeroWaterIsAccepted | app.py:101 | when every field parses, age and weight are positive and water is 0, the form is accepted with water 0 |
| FormValidation.ValidatedRowColumns | app.py:104-111 | on success the row has exactly the six keys, each holding its field's validated value |
| FormValidation.NonNumericAgeReported | app.py:76 | an age of "abc" that does not parse yields "Age must be a number." |
| FormValidation.SampleSubmissionAccepted | app.py:76-111 | the sample submission (30, 70, Male, 2.5, Moderate, Hot) yields exactly that row |
| InferenceService.ModelCache.constructor | app.py:33 | the cache starts empty |
| InferenceService.ModelCache.GetModel | app.py:35-47 | a cached model is returned without consulting the file; with an empty cache a missing file raises "model not found" and a failing load raises, both leaving the cache empty; a successful load fills the cache, which is then never reassigned |
| InferenceService.LoadMessage | app.py:41-44 | "Model file not found at '`path`'. Run train_model.py first.", or the text of the load error |
| InferenceService.Predict | app.py:73-134 | an invalid form is answered with its validation notice and leaves the cache alone, even with no model file; a missing model redirects with the not-found notice; otherwise the classifier's label, or its error, is shown |
| TrainingSchema.FirstCandidate | train_model.py:38-47 | a result is both a candidate and a column; None exactly when no candidate is a column |
| TrainingSchema.FirstCandidateIsEarliest | train_model.py:40-42 | the result is the earliest candidate, in candidate order, present among the columns |
| TrainingSchema.FirstCandidateIgnoresColumnOrder | train_model.py:39-42 | the result depends only on which names are columns, not on their order |
| TrainingSchema.FindTargetColumn | train_model.py:38-47 | returns the first present candidate, or the target-column error when none is present |
| TrainingSchema.MissingColumns | train_model.py:111 | a name is reported exactly when it is required and absent |
| TrainingSchema.MissingColumnsKeepsOrder | train_model.py:111 | the report preserves the order of the required list |
| TrainingSchema.MissingColumnsNoDuplicates | train_model.py:111 | each absent required column is reported once |
| TrainingSchema.CheckColumns | train_model.py:109-116 | target check first: no target gives the target error even if features are missing; then the missing-feature error; success exactly when a target and every feature are present |
| TrainingSchema.FeatureSplitPartitions | train_model.py:17-24 | the numeric and categorical lists are disjoint and together exactly the feature columns |
| SchemaAgreement.RowColumnsPermuteFeatures | app.py:104-111 | the row's keys are the training feature columns, reordered |
| SchemaAgreement.RowColumnsPassFeatureCheck | train_model.py:111 | a frame built from the row passes the training script's missing-column check |
| SchemaAgreement.RowMatchesTrainingSchema | app.py:104-111 | numeric features of the row hold numbers, categorical ones hold labels of the form's enumerations |

## Left out

- Flask routing, `render_template`, `flash`, `redirect`, the index page and the `/health` endpoint: HTTP and UI plumbing; the handler's outcome is a `Response` value.
- `joblib.load` / `joblib.dump`, `Path.exists`, `mkdir` and the `MODEL_PATH` environment variable: file I/O; file existence and the load result are method inputs, the path a constructor argument.
- pandas DataFrame construction and `model.predict`: foreign library calls, modelled as the `Classifier` parameter.
- Python `float()` parsing (exponents, "inf", "nan"): abstracted as a partial parse function to reals, so a NaN that would slip through the `<= 0` comparisons is not representable.
- `build_pipeline` beyond its column split, `train_test_split`, `fit`, the accuracy and classification report: scikit-learn internals.
- argparse handling, the CSV existence check and `pd.read_csv` in `main`: command-line and file I/O; `CheckColumns` starts from the column names.
- The text of the training errors: they carry the expected aliases, the missing columns and the found columns as data; Python's list `repr` and `", ".join` formatting are not modelled.
- A form field submitted several times: the form is a map with one value per key, as `request.form.get` sees it.
- The race between two requests loading the model at once: concurrency.
