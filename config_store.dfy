/** The saved bucket configuration (src/store/configStore.ts) and the
    defaults every reader of it applies with JavaScript's `||`. */
module ConfigStore {
  import opened Wrappers

  /** The saved configuration. The two paths may be missing from an older
      saved record (`None`, JavaScript's `undefined`). */
  datatype OssConfig = OssConfig(
    region: string,
    bucket: string,
    accessKeyId: string,
    accessKeySecret: string,
    rootPath: Option<string>,
    recyclePath: Option<string>)

  /** The trash root used when none is configured. */
  const DefaultRecyclePath: string := "trash/"

  /** `value || fallback` on an optional string: a missing or empty value
      falls back. */
  function OrElse(value: Option<string>, fallback: string): (r: string)
    ensures value.Some? && value.value != "" ==> r == value.value
    ensures value.None? || value.value == "" ==> r == fallback
  {
    if value.Some? && value.value != "" then value.value else fallback
  }

  /** `ossConfig.rootPath || ''` */
  function RootPathOf(config: OssConfig): string
  {
    OrElse(config.rootPath, "")
  }

  /** `ossConfig.recyclePath || 'trash/'`: never empty. */
  function RecyclePathOf(config: OssConfig): (r: string)
    ensures r != ""
    ensures config.recyclePath.None? ==> r == DefaultRecyclePath
  {
    OrElse(config.recyclePath, DefaultRecyclePath)
  }

  /** The persisted store holding the configuration. */
  class Store {
    var ossConfig: Option<OssConfig>

    constructor ()
      ensures ossConfig == None
    {
      ossConfig := None;
    }

    /** `setOssConfig(config)` */
    method SetOssConfig(config: OssConfig)
      modifies this
      ensures ossConfig == Some(config)
    {
      ossConfig := Some(config);
    }

    /** `clearConfig()` */
    method ClearConfig()
      modifies this
      ensures ossConfig == None
    {
      ossConfig := None;
    }
  }
}
