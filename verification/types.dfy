/** The values the app consumes from its platform and datastore libraries:
    the root platform, the user's preferences, the installed module record and
    the untyped values held in a module's key/value configuration. */
module Types {
  import opened Wrappers

  /** The root (or non-root) solution the app runs on. The five named values
      are the ones the app maps explicitly; `Other` stands for every further
      value of the platform library's enumeration. */
  datatype Platform = Magisk | KernelSU | KsuNext | APatch | NonRoot | Other(name: string)
  {
    predicate IsNonRoot() { NonRoot? }
  }

  /** The global choice of WebUI host. `OtherEngine` stands for any value of
      the preference enumeration beyond the three the dispatcher names. */
  datatype WebUIEngine = PreferModule | WX | KSU | OtherEngine(name: string)

  datatype ModulesMenu = ModulesMenu(showCover: bool, showUpdatedTime: bool)

  datatype UserPreferences = UserPreferences(
    webuiEngine: WebUIEngine,
    developerMode: bool,
    modulesMenu: ModulesMenu)

  /** A module identifier; `id` is the module's id string. */
  datatype ModId = ModId(id: string)

  /** Lifecycle state of an installed module; only `Remove` is singled out. */
  datatype ModuleState = Enable | Disable | Update | Remove

  datatype LocalModule = LocalModule(
    id: ModId,
    name: string,
    version: string,
    versionCode: int,
    author: string,
    description: string,
    lastUpdated: int,
    state: ModuleState,
    hasWebUI: bool,
    hasModConf: bool)

  /** A value stored under a key of a `Map<String, Any?>`. */
  datatype Value = Null | BoolVal(b: bool) | IntVal(i: int) | StrVal(s: string)

  /** The `is Boolean` test of Kotlin, as a partial projection. */
  function AsBool(v: Value): (r: Option<bool>)
    ensures r.Some? <==> v.BoolVal?
    ensures r.Some? ==> v == BoolVal(r.value)
  {
    if v.BoolVal? then Some(v.b) else None
  }

  /** The `is String` test of Kotlin, as a partial projection. */
  function AsString(v: Value): (r: Option<string>)
    ensures r.Some? <==> v.StrVal?
    ensures r.Some? ==> v == StrVal(r.value)
  {
    if v.StrVal? then Some(v.s) else None
  }
}
