/**
 * Dataset schema resolution of train_model.py: the required feature columns,
 * the accepted target-column aliases, the search for the target column, the
 * missing-column report and the order in which `main` applies the two checks.
 */
module TrainingSchema {
  import opened Wrappers

  const FEATURE_COLUMNS: seq<string> := [
    "Age",
    "Gender",
    "Weight (kg)",
    "Daily Water Intake (liters)",
    "Physical Activity Level",
    "Weather"
  ]

  /** Accepted names of the label column, highest priority first. */
  const TARGET_CANDIDATES: seq<string> := [
    "Hydration Level",
    "Hydration_Level",
    "hydration_level",
    "HydrationStatus",
    "Hydration Status",
    "Target",
    "Label"
  ]

  /** The column split of `build_pipeline`: median-imputed numbers and
      mode-imputed, one-hot encoded categories. */
  const NUMERIC_FEATURES: seq<string> := ["Age", "Weight (kg)", "Daily Water Intake (liters)"]
  const CATEGORICAL_FEATURES: seq<string> := ["Gender", "Physical Activity Level", "Weather"]

  /** The ValueErrors that stop a training run before anything is fitted. */
  datatype SchemaError =
    | TargetNotFound(expected: seq<string>, found: seq<string>)
    | MissingFeatures(missing: seq<string>, found: seq<string>)

  predicate NoDuplicates(s: seq<string>) {
    forall i, j | 0 <= i < j < |s| :: s[i] != s[j]
  }

  // ---------------------------------------------------------------------------
  // Target column
  // ---------------------------------------------------------------------------

  /** The first of `candidates`, in their order, that is one of `cols`. */
  function FirstCandidate(candidates: seq<string>, cols: seq<string>): (r: Option<string>)
    ensures r.Some? ==> r.value in candidates && r.value in cols
    ensures r.None? <==> forall c | c in candidates :: c !in cols
  {
    if candidates == [] then None
    else if candidates[0] in cols then Some(candidates[0])
    else FirstCandidate(candidates[1..], cols)
  }

  /** The chosen name is the earliest candidate present: priority follows the
      candidate list, whatever the column order. */
  lemma {:induction false} FirstCandidateIsEarliest(candidates: seq<string>, cols: seq<string>, x: string)
    ensures FirstCandidate(candidates, cols) == Some(x) <==>
              exists i | 0 <= i < |candidates| ::
                && candidates[i] == x && x in cols
                && forall j | 0 <= j < i :: candidates[j] !in cols
  {
    if candidates != [] && candidates[0] !in cols {
      var tail := candidates[1..];
      FirstCandidateIsEarliest(tail, cols, x);
      assert forall i | 1 <= i < |candidates| :: candidates[i] == tail[i - 1];
      if FirstCandidate(candidates, cols) == Some(x) {
        var k :| 0 <= k < |tail| && tail[k] == x && x in cols
                 && forall j | 0 <= j < k :: tail[j] !in cols;
        assert candidates[k + 1] == x;
      }
      if exists i | 0 <= i < |candidates| :: candidates[i] == x && x in cols
           && forall j | 0 <= j < i :: candidates[j] !in cols {
        var i :| 0 <= i < |candidates| && candidates[i] == x && x in cols
                 && forall j | 0 <= j < i :: candidates[j] !in cols;
        // candidates[0] is absent, so the earliest index is in the tail
        assert tail[i - 1] == x;
      }
    }
  }

  /** Only which names are present matters, not their order or repetition. */
  lemma {:induction false} FirstCandidateIgnoresColumnOrder(
    candidates: seq<string>, cols1: seq<string>, cols2: seq<string>)
    requires forall c :: c in cols1 <==> c in cols2
    ensures FirstCandidate(candidates, cols1) == FirstCandidate(candidates, cols2)
  {
    if candidates != [] {
      FirstCandidateIgnoresColumnOrder(candidates[1..], cols1, cols2);
    }
  }

  /** `_find_target_column(df)` for a frame whose columns are `cols`. */
  method FindTargetColumn(cols: seq<string>) returns (r: Result<string, SchemaError>)
    ensures FirstCandidate(TARGET_CANDIDATES, cols).Some? ==>
              r == Success(FirstCandidate(TARGET_CANDIDATES, cols).value)
    ensures FirstCandidate(TARGET_CANDIDATES, cols).None? ==>
              r == Failure(TargetNotFound(TARGET_CANDIDATES, cols))
  {
    for i := 0 to |TARGET_CANDIDATES|
      invariant FirstCandidate(TARGET_CANDIDATES[i..], cols) == FirstCandidate(TARGET_CANDIDATES, cols)
    {
      var name := TARGET_CANDIDATES[i];
      assert TARGET_CANDIDATES[i..][1..] == TARGET_CANDIDATES[i + 1..];
      if name in cols {
        return Success(name);
      }
    }
    return Failure(TargetNotFound(TARGET_CANDIDATES, cols));
  }

  // ---------------------------------------------------------------------------
  // Missing feature columns
  // ---------------------------------------------------------------------------

  /** `[c for c in required if c not in cols]`. */
  function MissingColumns(required: seq<string>, cols: seq<string>): (r: seq<string>)
    ensures forall c :: c in r <==> c in required && c !in cols
    ensures |r| <= |required|
  {
    if required == [] then []
    else if required[0] !in cols then [required[0]] + MissingColumns(required[1..], cols)
    else MissingColumns(required[1..], cols)
  }

  /** The report keeps the order of `required`: filtering a concatenation is
      the concatenation of the filtered parts. */
  lemma {:induction false} MissingColumnsKeepsOrder(a: seq<string>, b: seq<string>, cols: seq<string>)
    ensures MissingColumns(a + b, cols) == MissingColumns(a, cols) + MissingColumns(b, cols)
  {
    if a != [] {
      assert (a + b)[1..] == a[1..] + b;
      MissingColumnsKeepsOrder(a[1..], b, cols);
    } else {
      assert a + b == b;
    }
  }

  /** A column is reported at most once when `required` lists it once. */
  lemma {:induction false} MissingColumnsNoDuplicates(required: seq<string>, cols: seq<string>)
    requires NoDuplicates(required)
    ensures NoDuplicates(MissingColumns(required, cols))
  {
    if required != [] {
      var rest := required[1..];
      assert NoDuplicates(rest) by {
        forall i, j | 0 <= i < j < |rest| ensures rest[i] != rest[j] {
          assert rest[i] == required[i + 1] && rest[j] == required[j + 1];
        }
      }
      MissingColumnsNoDuplicates(rest, cols);
      assert required[0] !in rest by {
        forall i | 0 <= i < |rest| ensures rest[i] != required[0] {
          assert rest[i] == required[i + 1];
        }
      }
      var m := MissingColumns(rest, cols);
      if required[0] !in cols {
        assert required[0] !in m;
        forall i, j | 0 <= i < j < |[required[0]] + m|
          ensures ([required[0]] + m)[i] != ([required[0]] + m)[j]
        {
          if i == 0 {
            assert ([required[0]] + m)[j] == m[j - 1];
          }
        }
      }
    }
  }

  // ---------------------------------------------------------------------------
  // The dataset check in `main`
  // ---------------------------------------------------------------------------

  /** The two schema checks of `main`, target column first: a dataset lacking both
      a target and a feature column is reported for its target. */
  method CheckColumns(cols: seq<string>) returns (r: Result<string, SchemaError>)
    ensures FirstCandidate(TARGET_CANDIDATES, cols).None? ==>
              r == Failure(TargetNotFound(TARGET_CANDIDATES, cols))
    ensures FirstCandidate(TARGET_CANDIDATES, cols).Some? && MissingColumns(FEATURE_COLUMNS, cols) != [] ==>
              r == Failure(MissingFeatures(MissingColumns(FEATURE_COLUMNS, cols), cols))
    ensures r.Success? <==>
              (exists c :: c in TARGET_CANDIDATES && c in cols) && forall c | c in FEATURE_COLUMNS :: c in cols
    ensures r.Success? ==> r.value == FirstCandidate(TARGET_CANDIDATES, cols).value
  {
    var target := FindTargetColumn(cols);
    if target.Failure? {
      return target;
    }
    var missing := MissingColumns(FEATURE_COLUMNS, cols);
    if missing != [] {
      assert missing[0] in FEATURE_COLUMNS && missing[0] !in cols;
      return Failure(MissingFeatures(missing, cols));
    }
    return target;
  }

  /** The numeric and categorical lists split the feature columns: disjoint, and
      together exactly FEATURE_COLUMNS. */
  lemma FeatureSplitPartitions()
    ensures forall c | c in NUMERIC_FEATURES :: c !in CATEGORICAL_FEATURES
    ensures multiset(NUMERIC_FEATURES) + multiset(CATEGORICAL_FEATURES) == multiset(FEATURE_COLUMNS)
    ensures NoDuplicates(FEATURE_COLUMNS)
  {
  }
}
