/**
 * The feature row built by the web form and the schema the training script
 * fits on must agree: same column names, numbers where the pipeline imputes by
 * median, categories where it one-hot encodes.
 */
module SchemaAgreement {
  import opened FormValidation
  import opened TrainingSchema

  /** The row dictionary's keys are the training feature columns in another
      order (Weight before Gender). */
  lemma RowColumnsPermuteFeatures()
    ensures multiset(ROW_COLUMNS) == multiset(FEATURE_COLUMNS)
  {
  }

  /** The training script's missing-column check passes on a frame built from
      the row dictionary. */
  lemma RowColumnsPassFeatureCheck()
    ensures MissingColumns(FEATURE_COLUMNS, ROW_COLUMNS) == []
  {
  }

  /** Every row the handler can build carries exactly those columns; numeric
      features hold numbers and categorical features hold labels from the form's
      enumerations. */
  lemma RowMatchesTrainingSchema(row: Row)
    ensures row.Columns().Keys == (set c | c in ROW_COLUMNS)
    ensures forall c | c in NUMERIC_FEATURES :: c in row.Columns() && row.Columns()[c].Number?
    ensures forall c | c in CATEGORICAL_FEATURES :: c in row.Columns() && row.Columns()[c].Category?
    ensures row.Columns()["Gender"].value in GENDERS
    ensures row.Columns()["Physical Activity Level"].value in ACTIVITY_LEVELS
    ensures row.Columns()["Weather"].value in WEATHER_CONDITIONS
  {
  }
}
