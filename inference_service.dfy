/**
 * The serving side of app.py around validation: the lazily loaded model cache
 * (`get_model`) and the predict handler that validates a form, fetches the model
 * and classifies the row.
 */
module InferenceService {
  import opened Wrappers
  import opened FormValidation

  /** The trained pipeline as deserialized from disk. Its contents are opaque
      here; `id` only lets two artifacts be told apart. */
  datatype Artifact = Artifact(id: nat)

  /** What `get_model` can raise: FileNotFoundError when no model file exists,
      or whatever deserializing an existing file raised. */
  datatype LoadError = ModelNotFound(path: string) | LoadFailed(reason: string)

  function LoadMessage(e: LoadError): string {
    match e
    case ModelNotFound(path) => "Model file not found at '" + path + "'. Run train_model.py first."
    case LoadFailed(reason) => reason
  }

  /** The process-wide `_model` slot of `get_model`: empty until the first
      successful load, then fixed for the life of the process. */
  class ModelCache {
    const path: string
    var cached: Option<Artifact>

    constructor (path: string)
      ensures this.path == path && cached == None
    {
      this.path := path;
      cached := None;
    }

    /** `get_model()`. Whether the file exists and what loading it yields (the
        artifact, or the text of the exception) are inputs standing for the
        filesystem. A cached model is returned without consulting either. */
    method GetModel(fileExists: bool, onDisk: Result<Artifact, string>) returns (r: Result<Artifact, LoadError>)
      modifies this
      ensures old(cached).Some? ==> r == Success(old(cached).value) && cached == old(cached)
      ensures old(cached).None? && !fileExists ==>
                r == Failure(ModelNotFound(path)) && cached == None
      ensures old(cached).None? && fileExists && onDisk.Failure? ==>
                r == Failure(LoadFailed(onDisk.error)) && cached == None
      ensures old(cached).None? && fileExists && onDisk.Success? ==>
                r == Success(onDisk.value) && cached == Some(onDisk.value)
      ensures r.Success? <==> cached.Some?
      ensures r.Success? ==> cached == Some(r.value)
    {
      if cached.Some? {
        return Success(cached.value);
      }
      if !fileExists {
        return Failure(ModelNotFound(path));
      }
      if onDisk.Failure? {
        return Failure(LoadFailed(onDisk.error));
      }
      cached := Some(onDisk.value);
      r := Success(onDisk.value);
    }
  }

  /** What the handler sends back: the form with a prediction, the form with a
      flashed error (submitted values kept), or a redirect to the blank form with
      a flashed error. */
  datatype Response =
    | ShowPrediction(result: string)
    | ShowError(notice: string)
    | RedirectWithNotice(notice: string)

  /** `str(model.predict(pd.DataFrame([row]))[0])`, or the text of the exception
      it raised. */
  type Classifier = (Artifact, Row) -> Result<string, string>

  /** The POST /predict handler. Validation comes first, so a bad form is
      answered with its validation error without touching the model. */
  method Predict(
    cache: ModelCache, form: Form, parse: NumberParser,
    fileExists: bool, onDisk: Result<Artifact, string>, classify: Classifier)
    returns (resp: Response)
    modifies cache
    ensures Validate(form, parse).Failure? ==>
              && resp == ShowError(Message(Validate(form, parse).error))
              && cache.cached == old(cache.cached)
    ensures Validate(form, parse).Success? && old(cache.cached).None? && !fileExists ==>
              && resp == RedirectWithNotice(LoadMessage(ModelNotFound(cache.path)))
              && cache.cached == None
    ensures Validate(form, parse).Success? && old(cache.cached).None? && fileExists && onDisk.Failure? ==>
              && resp == ShowError(onDisk.error)
              && cache.cached == None
    ensures Validate(form, parse).Success? && (old(cache.cached).Some? || (fileExists && onDisk.Success?)) ==>
              var model := if old(cache.cached).Some? then old(cache.cached).value else onDisk.value;
              && cache.cached == Some(model)
              && resp == match classify(model, Validate(form, parse).value)
                         case Success(text) => ShowPrediction(text)
                         case Failure(msg) => ShowError(msg)
  {
    var checked := Validate(form, parse);
    if checked.Failure? {
      return ShowError(Message(checked.error));
    }
    var model := cache.GetModel(fileExists, onDisk);
    if model.Failure? {
      if model.error.ModelNotFound? {
        return RedirectWithNotice(LoadMessage(model.error));
      }
      return ShowError(LoadMessage(model.error));
    }
    match classify(model.value, checked.value)
    case Success(text) => resp := ShowPrediction(text);
    case Failure(msg) => resp := ShowError(msg);
  }
}
