/** src/pages/OSSConfig.tsx: the settings form for the bucket connection. It
    is filled from the saved configuration, edited one field at a time, and
    saved only when the four credentials are present and a test listing
    succeeds; a failed test is classified as a likely CORS problem or not. */
module OssConfigPage {
  import opened Wrappers
  import opened JsString
  import opened ConfigStore
  import opened Ui

  const MissingFieldsMessage: string := "Please fill in all fields"
  const SavedMessage: string := "Configuration saved successfully"
  const CorsFailureMessage: string := "Connection failed: Potential CORS issue"
  const FailurePrefix: string := "Connection failed: "

  /** The form's fields, all plain strings (empty when not filled in). */
  datatype FormData = FormData(
    region: string,
    bucket: string,
    accessKeyId: string,
    accessKeySecret: string,
    rootPath: string,
    recyclePath: string)

  /** The input names `handleChange` dispatches on. */
  datatype Field = Region | BucketName | AccessKeyId | AccessKeySecret | RootPath | RecyclePath

  const EmptyForm: FormData := FormData("", "", "", "", "", "")

  function FieldValue(form: FormData, field: Field): string
  {
    match field
    case Region => form.region
    case BucketName => form.bucket
    case AccessKeyId => form.accessKeyId
    case AccessKeySecret => form.accessKeySecret
    case RootPath => form.rootPath
    case RecyclePath => form.recyclePath
  }

  /** `{ ...prev, [name]: value }` */
  function WithField(form: FormData, field: Field, value: string): (r: FormData)
    ensures FieldValue(r, field) == value
    ensures forall other :: other != field ==> FieldValue(r, other) == FieldValue(form, other)
  {
    match field
    case Region => form.(region := value)
    case BucketName => form.(bucket := value)
    case AccessKeyId => form.(accessKeyId := value)
    case AccessKeySecret => form.(accessKeySecret := value)
    case RootPath => form.(rootPath := value)
    case RecyclePath => form.(recyclePath := value)
  }

  /** Setting a field twice keeps only the second value. */
  lemma WithFieldTwice(form: FormData, field: Field, a: string, b: string)
    ensures WithField(WithField(form, field, a), field, b) == WithField(form, field, b)
  {
  }

  /** The form as the load effect fills it from a saved configuration: a
      missing or empty path becomes the empty string. */
  function FormFromConfig(config: OssConfig): (r: FormData)
    ensures r.region == config.region && r.bucket == config.bucket
    ensures r.accessKeyId == config.accessKeyId && r.accessKeySecret == config.accessKeySecret
    ensures config.rootPath.Some? ==> r.rootPath == config.rootPath.value
    ensures config.rootPath.None? ==> r.rootPath == ""
    ensures config.recyclePath.Some? ==> r.recyclePath == config.recyclePath.value
    ensures config.recyclePath.None? ==> r.recyclePath == ""
  {
    FormData(config.region, config.bucket, config.accessKeyId, config.accessKeySecret,
             OrElse(config.rootPath, ""), OrElse(config.recyclePath, ""))
  }

  /** The configuration `setOssConfig(formData)` stores: both paths are
      present, possibly empty. */
  function ConfigFromForm(form: FormData): OssConfig
  {
    OssConfig(form.region, form.bucket, form.accessKeyId, form.accessKeySecret,
              Some(form.rootPath), Some(form.recyclePath))
  }

  /** Saving a form and loading it back gives the same form. */
  lemma FormRoundTrip(form: FormData)
    ensures FormFromConfig(ConfigFromForm(form)) == form
  {
  }

  /** Loading a saved configuration and saving it again changes nothing the
      rest of the program reads: the credentials, the root path and the trash
      root stay the same. */
  lemma ConfigRoundTrip(config: OssConfig)
    ensures var c := ConfigFromForm(FormFromConfig(config));
      && c.region == config.region && c.bucket == config.bucket
      && c.accessKeyId == config.accessKeyId && c.accessKeySecret == config.accessKeySecret
      && RootPathOf(c) == RootPathOf(config)
      && RecyclePathOf(c) == RecyclePathOf(config)
  {
  }

  /** The save guard: one of the four credentials is empty. The two paths
      are optional and never looked at. */
  predicate MissingRequired(form: FormData)
  {
    form.region == "" || form.bucket == "" || form.accessKeyId == "" || form.accessKeySecret == ""
  }

  /** The guard ignores the paths entirely. */
  lemma PathsNotRequired(form: FormData, rootPath: string, recyclePath: string)
    ensures MissingRequired(form) == MissingRequired(form.(rootPath := rootPath, recyclePath := recyclePath))
  {
  }

  /** What the test listing fails with: the error's `name`, its `status`
      (absent on some errors) and its `message`. */
  datatype RequestError = RequestError(name: string, status: Option<int>, message: string)

  /** The failure is taken for a CORS problem. */
  predicate IsCorsError(e: RequestError)
  {
    || e.name == "RequestError"
    || e.status == Some(0) || e.status == Some(-1)
    || Includes(e.message, "Network Error") || Includes(e.message, "CORS")
  }

  /** A failure with a proper HTTP status, another error name and a message
      mentioning neither marker is not taken for a CORS problem. */
  lemma HttpErrorIsNotCors(name: string, status: int, message: string)
    requires name != "RequestError" && status != 0 && status != -1
    requires forall j :: !OccursAt(message, "Network Error", j)
    requires forall j :: !OccursAt(message, "CORS", j)
    ensures !IsCorsError(RequestError(name, Some(status), message))
  {
    IndexOfSpec(message, "Network Error");
    IndexOfSpec(message, "CORS");
  }

  /** A message that contains `CORS` anywhere is taken for a CORS problem. */
  lemma CorsMessageIsCors(name: string, status: Option<int>, before: string, after: string)
    ensures IsCorsError(RequestError(name, status, before + "CORS" + after))
  {
    var m := before + "CORS" + after;
    assert OccursAt(m, "CORS", |before|) by {
      assert m[|before|..|before| + 4] == "CORS";
    }
    IndexOfSpec(m, "CORS");
  }

  /** The notice a failed test shows. */
  function FailureToast(e: RequestError): (r: Toast)
    ensures IsCorsError(e) ==> r == ErrorToast(CorsFailureMessage)
    ensures !IsCorsError(e) ==> r == ErrorToast(FailurePrefix + e.message)
  {
    if IsCorsError(e) then ErrorToast(CorsFailureMessage) else ErrorToast(FailurePrefix + e.message)
  }

  /** The page's state. */
  class ConfigPage {
    var formData: FormData
    var isLoading: bool
    var showCorsHelp: bool

    constructor ()
      ensures formData == EmptyForm && !isLoading && !showCorsHelp
    {
      formData := EmptyForm;
      isLoading := false;
      showCorsHelp := false;
    }

    /** The load effect: copy the saved configuration into the form. */
    method LoadSaved(saved: Option<OssConfig>)
      modifies this`formData
      ensures saved.None? ==> formData == old(formData)
      ensures saved.Some? ==> formData == FormFromConfig(saved.value)
    {
      if saved.Some? {
        formData := FormFromConfig(saved.value);
      }
    }

    /** `handleChange`: one input changed. */
    method HandleChange(field: Field, value: string)
      modifies this`formData
      ensures formData == WithField(old(formData), field, value)
    {
      formData := WithField(formData, field, value);
    }

    /** `handleSave()`: `testResult` is the outcome of the one-key test
        listing made with the form's credentials; it is not consulted when a
        credential is missing. */
    method HandleSave(store: Store, testResult: Result<(), RequestError>) returns (toast: Toast, route: Route)
      modifies this`isLoading, this`showCorsHelp, store
      ensures MissingRequired(formData) ==>
        && toast == ErrorToast(MissingFieldsMessage) && route == Stay
        && store.ossConfig == old(store.ossConfig)
        && isLoading == old(isLoading) && showCorsHelp == old(showCorsHelp)
      ensures !MissingRequired(formData) ==> !isLoading
      ensures !MissingRequired(formData) && testResult.Success? ==>
        && store.ossConfig == Some(ConfigFromForm(formData))
        && toast == SuccessToast(SavedMessage) && route == SettingsPage
        && showCorsHelp == old(showCorsHelp)
      ensures !MissingRequired(formData) && testResult.Failure? ==>
        && store.ossConfig == old(store.ossConfig)
        && toast == FailureToast(testResult.error) && route == Stay
        && showCorsHelp == (old(showCorsHelp) || IsCorsError(testResult.error))
    {
      if MissingRequired(formData) {
        return ErrorToast(MissingFieldsMessage), Stay;
      }
      isLoading := true;
      if testResult.Success? {
        store.SetOssConfig(ConfigFromForm(formData));
        toast, route := SuccessToast(SavedMessage), SettingsPage;
      } else {
        if IsCorsError(testResult.error) {
          showCorsHelp := true;
        }
        toast, route := FailureToast(testResult.error), Stay;
      }
      isLoading := false;
    }
  }
}
