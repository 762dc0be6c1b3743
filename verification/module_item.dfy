/** The module list card: when it is clickable, what a click starts, and
    which texts it shows. */
module ModuleItem {
  import opened Wrappers
  import opened Types
  import opened Numerals
  import Extensions

  /** The module's own presentation settings (`module.config`). */
  datatype ModuleConfig = ModuleConfig(name: Option<string>, description: Option<string>, cover: Option<string>)

  /** What the click handler does: open the module's config screen
      (`launchModConf`), open its WebUI (`launchWebUI`), or show a notice. */
  datatype ClickTarget = OpenModConf(modId: ModId) | OpenWebUI(modId: ModId) | Notice(text: string)

  const UnsupportedModuleNotice := "Unsupported module"

  /** `canWenUIAccessed`: the platform is alive, the module offers a WebUI or
      a config screen, and it is not about to be removed. */
  predicate CanWebUIBeAccessed(alive: bool, m: LocalModule) {
    alive && (m.hasWebUI || m.hasModConf) && m.state != Remove
  }

  /** The click handler's body: the config screen takes precedence over the
      WebUI; a module with neither gets a notice. */
  function ClickBody(m: LocalModule): (t: ClickTarget)
    ensures t.OpenModConf? <==> m.hasModConf
    ensures t.OpenWebUI? <==> !m.hasModConf && m.hasWebUI
    ensures t.Notice? <==> !m.hasModConf && !m.hasWebUI
    ensures !t.Notice? ==> t.modId == m.id
    ensures t.Notice? ==> t.text == UnsupportedModuleNotice
  {
    if m.hasModConf then OpenModConf(m.id)
    else if m.hasWebUI then OpenWebUI(m.id)
    else Notice(UnsupportedModuleNotice)
  }

  /** `clicker`: the handler, present only when the guard holds. */
  function Clicker(alive: bool, m: LocalModule): (r: Option<ClickTarget>)
    ensures r.Some? <==> alive && (m.hasWebUI || m.hasModConf) && m.state != Remove
    ensures r.Some? ==> !r.value.Notice? && r.value.modId == m.id
    ensures r.Some? ==> (r.value.OpenModConf? <==> m.hasModConf)
  {
    if CanWebUIBeAccessed(alive, m) then Some(ClickBody(m)) else None
  }

  /** A module offering both a config screen and a WebUI always opens the
      config screen. */
  lemma ModConfTakesPrecedence(alive: bool, m: LocalModule)
    requires m.hasModConf && m.hasWebUI
    ensures Clicker(alive, m).Some? ==> Clicker(alive, m).value == OpenModConf(m.id)
  {
  }

  /** A click opens the WebUI exactly when the card is clickable and the
      module has a WebUI but no config screen. */
  lemma OpensWebUIExactly(alive: bool, m: LocalModule)
    ensures Clicker(alive, m) == Some(OpenWebUI(m.id)) <==>
              alive && m.state != Remove && m.hasWebUI && !m.hasModConf
  {
  }

  /** What a click ends in, once the WebUI dispatcher has run. */
  datatype ClickOutcome =
    | ModConfLaunched(modId: ModId)
    | WebUIDispatched(dispatch: Result<Extensions.Effect, Extensions.Brick>)
    | NoticeShown(text: string)

  /** Tapping the card: nothing when it is not clickable, otherwise the click
      target carried out. `moduleEngine` is the module's own engine setting. */
  function Tap(
    prefs: UserPreferences, alive: bool, platform: Platform, externalFilesDir: Option<string>,
    m: LocalModule, moduleEngine: Option<string>): (r: Option<ClickOutcome>)
    ensures r.Some? <==> CanWebUIBeAccessed(alive, m)
    ensures r.Some? ==> !r.value.NoticeShown?
    ensures r.Some? ==> (r.value.ModConfLaunched? <==> m.hasModConf)
    ensures r.Some? && r.value.ModConfLaunched? ==> r.value.modId == m.id
    ensures r.Some? && !m.hasModConf ==>
              r.value == WebUIDispatched(Extensions.LaunchWebUI(prefs, platform, externalFilesDir, m.id, moduleEngine))
    ensures r.Some? && r.value.WebUIDispatched? ==>
              !m.hasModConf
              && r.value.dispatch == Extensions.LaunchWebUI(prefs, platform, externalFilesDir, m.id, moduleEngine)
  {
    match Clicker(alive, m)
    case None => None
    case Some(OpenModConf(id)) => Some(ModConfLaunched(id))
    case Some(OpenWebUI(id)) => Some(WebUIDispatched(Extensions.LaunchWebUI(prefs, platform, externalFilesDir, id, moduleEngine)))
    case Some(Notice(text)) => Some(NoticeShown(text))
  }

  /** A WebUI-only module, with the internal host forced, on a root platform
      opens the internal host in the fixed root directory. */
  lemma WebUIOnlyModuleOnRootLaunchesWX(
    prefs: UserPreferences, platform: Platform, externalFilesDir: Option<string>,
    m: LocalModule, moduleEngine: Option<string>)
    requires prefs.webuiEngine == WX && !platform.IsNonRoot()
    requires m.hasWebUI && !m.hasModConf && m.state != Remove
    ensures Tap(prefs, true, platform, externalFilesDir, m, moduleEngine)
            == Some(WebUIDispatched(Success(Extensions.LaunchWX(m.id, Some(Extensions.AdbDir)))))
  {
  }

  /** The texts and decorations of the card. `title`, `description` and the
      id label are plain text; `version` is the version display, shown with
      the author; `updatedOn` carries the timestamp to be formatted. */
  datatype CardView = CardView(
    onClick: Option<ClickTarget>,
    cover: Option<string>,
    title: string,
    titleIcon: bool,
    version: string,
    author: string,
    updatedOn: Option<int>,
    description: string,
    idLabel: Option<string>)

  /** The card `ModuleItem` composes for a module. */
  function Card(prefs: UserPreferences, alive: bool, m: LocalModule, config: ModuleConfig): (card: CardView)
    ensures card.onClick == Clicker(alive, m)
    ensures config.name.Some? ==> card.title == config.name.value
    ensures config.name.None? ==> card.title == m.name
    ensures config.description.Some? ==> card.description == config.description.value
    ensures config.description.None? ==> card.description == m.description
    ensures card.titleIcon <==> m.hasModConf
    ensures card.cover.Some? <==> prefs.modulesMenu.showCover && config.cover.Some?
    ensures card.cover.Some? ==> card.cover == config.cover
    ensures card.version == Extensions.VersionDisplay(m.version, m.versionCode)
    ensures Extensions.HasCodeGroup(card.version, DecimalText(m.versionCode))
    ensures card.author == m.author
    ensures card.updatedOn.Some? <==> m.lastUpdated != 0 && prefs.modulesMenu.showUpdatedTime
    ensures card.updatedOn.Some? ==> card.updatedOn.value == m.lastUpdated
    ensures card.idLabel.Some? <==> prefs.developerMode
    ensures card.idLabel.Some? ==> card.idLabel.value == m.id.id
  {
    Extensions.VersionDisplayShowsCode(m.version, m.versionCode);
    CardView(
      onClick := Clicker(alive, m),
      cover := if prefs.modulesMenu.showCover then config.cover else None,
      title := config.name.GetOr(m.name),
      titleIcon := m.hasModConf,
      version := Extensions.VersionDisplay(m.version, m.versionCode),
      author := m.author,
      updatedOn := if m.lastUpdated != 0 && prefs.modulesMenu.showUpdatedTime then Some(m.lastUpdated) else None,
      description := config.description.GetOr(m.description),
      idLabel := if prefs.developerMode then Some(m.id.id) else None)
  }
}
