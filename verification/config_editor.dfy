/** The WebUI configuration editor: what each control shows and whether it
    is enabled, derived from the current `WebUIConfig`, and the single-key
    edit each control issues when the user changes it. */
module ConfigEditor {
  import opened Wrappers
  import opened Types
  import opened Numerals
  import Extensions

  /** A module's WebUI configuration; nullable fields are `Option`s. */
  datatype WebUIConfig = WebUIConfig(
    title: Option<string>,
    icon: Option<string>,
    exitConfirm: bool,
    backHandler: Option<bool>,
    backInterceptor: Option<string>,
    pullToRefresh: bool,
    refreshInterceptor: Option<string>,
    windowResize: bool,
    autoStatusBarsStyle: bool,
    killShellWhenBackground: bool,
    historyFallback: bool,
    historyFallbackFile: string,
    contentSecurityPolicy: string,
    caching: bool,
    cachingMaxAge: int)

  /** The fields the editor changes, one per stored key. */
  datatype Key =
    | Title | Icon | ExitConfirm | BackHandler | BackInterceptor | PullToRefresh
    | RefreshInterceptor | WindowResize | AutoStatusBarsStyle | KillShellWhenBackground
    | HistoryFallback | HistoryFallbackFile | ContentSecurityPolicy | Caching | CachingMaxAge

  /** The key string under which a field is stored. */
  function Name(k: Key): string {
    match k
    case Title => "title"
    case Icon => "icon"
    case ExitConfirm => "exitConfirm"
    case BackHandler => "backHandler"
    case BackInterceptor => "backInterceptor"
    case PullToRefresh => "pullToRefresh"
    case RefreshInterceptor => "refreshInterceptor"
    case WindowResize => "windowResize"
    case AutoStatusBarsStyle => "autoStatusBarsStyle"
    case KillShellWhenBackground => "killShellWhenBackground"
    case HistoryFallback => "historyFallback"
    case HistoryFallbackFile => "historyFallbackFile"
    case ContentSecurityPolicy => "contentSecurityPolicy"
    case Caching => "caching"
    case CachingMaxAge => "cachingMaxAge"
  }

  /** The field stored under a key string, if any. */
  function KeyNamed(s: string): (r: Option<Key>)
    ensures r.Some? ==> Name(r.value) == s
  {
    if s == "title" then Some(Title)
    else if s == "icon" then Some(Icon)
    else if s == "exitConfirm" then Some(ExitConfirm)
    else if s == "backHandler" then Some(BackHandler)
    else if s == "backInterceptor" then Some(BackInterceptor)
    else if s == "pullToRefresh" then Some(PullToRefresh)
    else if s == "refreshInterceptor" then Some(RefreshInterceptor)
    else if s == "windowResize" then Some(WindowResize)
    else if s == "autoStatusBarsStyle" then Some(AutoStatusBarsStyle)
    else if s == "killShellWhenBackground" then Some(KillShellWhenBackground)
    else if s == "historyFallback" then Some(HistoryFallback)
    else if s == "historyFallbackFile" then Some(HistoryFallbackFile)
    else if s == "contentSecurityPolicy" then Some(ContentSecurityPolicy)
    else if s == "caching" then Some(Caching)
    else if s == "cachingMaxAge" then Some(CachingMaxAge)
    else None
  }

  /** Every field's key string leads back to that field, so distinct fields
      are stored under distinct keys. */
  lemma KeyNamedName(k: Key)
    ensures KeyNamed(Name(k)) == Some(k)
  {
  }

  lemma NameInjective(a: Key, b: Key)
    requires a != b
    ensures Name(a) != Name(b)
  {
    KeyNamedName(a);
    KeyNamedName(b);
  }

  function OptString(o: Option<string>): Value {
    match o
    case Some(s) => StrVal(s)
    case None => Null
  }

  /** A nullable string read back from the store. */
  function StringOrNull(v: Value): (o: Option<string>)
    requires v.Null? || v.StrVal?
    ensures OptString(o) == v
  {
    if v.StrVal? then Some(v.s) else None
  }

  /** A nullable Boolean read back from the store. */
  function BoolOrNull(v: Value): (o: Option<bool>)
    requires v.Null? || v.BoolVal?
    ensures OptBool(o) == v
  {
    if v.BoolVal? then Some(v.b) else None
  }

  function OptBool(o: Option<bool>): Value {
    match o
    case Some(b) => BoolVal(b)
    case None => Null
  }

  /** A field's current value as the untyped value the store holds. */
  function Field(c: WebUIConfig, k: Key): Value {
    match k
    case Title => OptString(c.title)
    case Icon => OptString(c.icon)
    case ExitConfirm => BoolVal(c.exitConfirm)
    case BackHandler => OptBool(c.backHandler)
    case BackInterceptor => OptString(c.backInterceptor)
    case PullToRefresh => BoolVal(c.pullToRefresh)
    case RefreshInterceptor => OptString(c.refreshInterceptor)
    case WindowResize => BoolVal(c.windowResize)
    case AutoStatusBarsStyle => BoolVal(c.autoStatusBarsStyle)
    case KillShellWhenBackground => BoolVal(c.killShellWhenBackground)
    case HistoryFallback => BoolVal(c.historyFallback)
    case HistoryFallbackFile => StrVal(c.historyFallbackFile)
    case ContentSecurityPolicy => StrVal(c.contentSecurityPolicy)
    case Caching => BoolVal(c.caching)
    case CachingMaxAge => IntVal(c.cachingMaxAge)
  }

  /** A configuration is determined by its fields. */
  lemma FieldsDetermineConfig(c1: WebUIConfig, c2: WebUIConfig)
    requires forall k :: Field(c1, k) == Field(c2, k)
    ensures c1 == c2
  {
    assert Field(c1, Title) == Field(c2, Title);
    assert Field(c1, Icon) == Field(c2, Icon);
    assert Field(c1, ExitConfirm) == Field(c2, ExitConfirm);
    assert Field(c1, BackHandler) == Field(c2, BackHandler);
    assert Field(c1, BackInterceptor) == Field(c2, BackInterceptor);
    assert Field(c1, PullToRefresh) == Field(c2, PullToRefresh);
    assert Field(c1, RefreshInterceptor) == Field(c2, RefreshInterceptor);
    assert Field(c1, WindowResize) == Field(c2, WindowResize);
    assert Field(c1, AutoStatusBarsStyle) == Field(c2, AutoStatusBarsStyle);
    assert Field(c1, KillShellWhenBackground) == Field(c2, KillShellWhenBackground);
    assert Field(c1, HistoryFallback) == Field(c2, HistoryFallback);
    assert Field(c1, HistoryFallbackFile) == Field(c2, HistoryFallbackFile);
    assert Field(c1, ContentSecurityPolicy) == Field(c2, ContentSecurityPolicy);
    assert Field(c1, Caching) == Field(c2, Caching);
    assert Field(c1, CachingMaxAge) == Field(c2, CachingMaxAge);
  }

  /** Whether `v` has the type of the field under `k`. */
  predicate Fits(k: Key, v: Value) {
    match k
    case Title | Icon | BackInterceptor | RefreshInterceptor => v.Null? || v.StrVal?
    case BackHandler => v.Null? || v.BoolVal?
    case HistoryFallbackFile | ContentSecurityPolicy => v.StrVal?
    case CachingMaxAge => v.IntVal?
    case _ => v.BoolVal?
  }

  /** `key change value` inside `slave { … }`: one named key, one value. */
  datatype Edit = Edit(key: Key, value: Value)

  /** A save as it reaches the key/value store: the named key now holds the
      value and every other key is untouched. */
  function Store(m: map<string, Value>, e: Edit): (m': map<string, Value>)
    ensures Name(e.key) in m' && m'[Name(e.key)] == e.value
    ensures forall s :: s != Name(e.key) ==> (s in m' <==> s in m)
    ensures forall s :: s != Name(e.key) && s in m ==> m'[s] == m[s]
  {
    m[Name(e.key) := e.value]
  }

  /** The configuration delivered after the store has saved a well-typed
      edit: the edited field holds the value, every other field is as before. */
  function Apply(c: WebUIConfig, e: Edit): (c': WebUIConfig)
    requires Fits(e.key, e.value)
    ensures Field(c', e.key) == e.value
  {
    var v := e.value;
    match e.key
    case Title => c.(title := StringOrNull(v))
    case Icon => c.(icon := StringOrNull(v))
    case ExitConfirm => c.(exitConfirm := v.b)
    case BackHandler => c.(backHandler := BoolOrNull(v))
    case BackInterceptor => c.(backInterceptor := StringOrNull(v))
    case PullToRefresh => c.(pullToRefresh := v.b)
    case RefreshInterceptor => c.(refreshInterceptor := StringOrNull(v))
    case WindowResize => c.(windowResize := v.b)
    case AutoStatusBarsStyle => c.(autoStatusBarsStyle := v.b)
    case KillShellWhenBackground => c.(killShellWhenBackground := v.b)
    case HistoryFallback => c.(historyFallback := v.b)
    case HistoryFallbackFile => c.(historyFallbackFile := v.s)
    case ContentSecurityPolicy => c.(contentSecurityPolicy := v.s)
    case Caching => c.(caching := v.b)
    case CachingMaxAge => c.(cachingMaxAge := v.i)
  }

  /** Applying an edit leaves every other field as it was. */
  lemma ApplyKeepsOtherFields(c: WebUIConfig, e: Edit, k: Key)
    requires Fits(e.key, e.value) && k != e.key
    ensures Field(Apply(c, e), k) == Field(c, k)
  {
  }

  /** The store `m` holds configuration `c`. */
  ghost predicate Holds(m: map<string, Value>, c: WebUIConfig) {
    forall k :: Name(k) in m && m[Name(k)] == Field(c, k)
  }

  /** Saving an edit into a store that holds `c` yields a store that holds the
      edited configuration. */
  lemma StoreRefinesApply(m: map<string, Value>, c: WebUIConfig, e: Edit)
    requires Holds(m, c) && Fits(e.key, e.value)
    ensures Holds(Store(m, e), Apply(c, e))
  {
    forall k
      ensures Name(k) in Store(m, e) && Store(m, e)[Name(k)] == Field(Apply(c, e), k)
    {
      if k != e.key {
        NameInjective(k, e.key);
        ApplyKeepsOtherFields(c, e, k);
      }
    }
  }

  // ---------------------------------------------------------------------------
  // Controls and what they show
  // ---------------------------------------------------------------------------

  /** The values offered by both interceptor selectors, in order. */
  const InterceptorOptions: seq<string> := ["native", "javascript"]

  /** The description style of the title and icon items. */
  datatype TextStyle = Regular | Italic

  /** The description style as the source writes it: the italic copy is made
      inside `apply` and dropped, so the default style is always used. */
  function ItemStyleAsWritten(value: Option<string>): TextStyle {
    Regular
  }

  /** The evidently intended style: italic exactly when the field is unset
      and its description is the placeholder. */
  function ItemStyle(value: Option<string>): (s: TextStyle)
    ensures s == Italic <==> value.None?
  {
    if value.None? then Italic else Regular
  }

  /** An unset title keeps the regular style as written, not the italic the
      code constructs. */
  lemma ItemStyleDropsItalic()
    ensures ItemStyleAsWritten(None) == Regular
    ensures ItemStyle(None) == Italic
  {
  }

  /** What the editor shows. A `None` description is the localized
      placeholder; `…Value` is the text an edit field starts from. */
  datatype EditorView = EditorView(
    titleDesc: Option<string>, titleStyle: TextStyle, titleValue: string,
    iconDesc: Option<string>, iconStyle: TextStyle, iconValue: string,
    exitConfirmEnabled: bool, exitConfirmChecked: bool,
    backHandlerChecked: bool,
    backInterceptorEnabled: bool, backInterceptorValue: Option<string>,
    pullToRefreshChecked: bool,
    refreshInterceptorEnabled: bool, refreshInterceptorValue: Option<string>,
    windowResizeChecked: bool,
    autoStatusBarsStyleChecked: bool,
    killShellWhenBackgroundChecked: bool,
    historyFallbackChecked: bool, historyFallbackFileValue: string,
    contentSecurityPolicyValue: string,
    cachingChecked: bool,
    cachingMaxAgeEnabled: bool, cachingMaxAgeValue: string)

  /** The editor rendered from a configuration, with the title and icon
      description styles as written. */
  function View(c: WebUIConfig): (v: EditorView)
    ensures v.exitConfirmChecked ==> v.exitConfirmEnabled
    ensures v.backInterceptorEnabled <==> v.backHandlerChecked
    ensures v.refreshInterceptorEnabled <==> v.pullToRefreshChecked
    ensures v.cachingMaxAgeEnabled <==> v.cachingChecked
  {
    var noJsBackInterceptor := c.backInterceptor != Some("javascript");
    var backHandler := c.backHandler.GetOr(true);
    EditorView(
      titleDesc := c.title, titleStyle := ItemStyleAsWritten(c.title), titleValue := c.title.GetOr(""),
      iconDesc := c.icon, iconStyle := ItemStyleAsWritten(c.icon), iconValue := c.icon.GetOr(""),
      exitConfirmEnabled := noJsBackInterceptor,
      exitConfirmChecked := noJsBackInterceptor && c.exitConfirm,
      backHandlerChecked := backHandler,
      backInterceptorEnabled := backHandler,
      backInterceptorValue := c.backInterceptor,
      pullToRefreshChecked := c.pullToRefresh,
      refreshInterceptorEnabled := c.pullToRefresh,
      refreshInterceptorValue := c.refreshInterceptor,
      windowResizeChecked := c.windowResize,
      autoStatusBarsStyleChecked := c.autoStatusBarsStyle,
      killShellWhenBackgroundChecked := c.killShellWhenBackground,
      historyFallbackChecked := c.historyFallback,
      historyFallbackFileValue := c.historyFallbackFile,
      contentSecurityPolicyValue := c.contentSecurityPolicy,
      cachingChecked := c.caching,
      cachingMaxAgeEnabled := c.caching,
      cachingMaxAgeValue := DecimalText(c.cachingMaxAge))
  }

  /** The exit-confirm switch is enabled unless the back interceptor is
      JavaScript, and shows checked only when enabled and stored as set. */
  lemma ExitConfirmControl(c: WebUIConfig)
    ensures View(c).exitConfirmEnabled <==> c.backInterceptor != Some("javascript")
    ensures View(c).exitConfirmChecked <==> c.backInterceptor != Some("javascript") && c.exitConfirm
  {
  }

  /** An unset back handler counts as on; the back-interceptor selector is
      enabled exactly when the effective back handler is on. */
  lemma BackHandlerDefaultsToOn(c: WebUIConfig)
    ensures View(c).backHandlerChecked <==> c.backHandler != Some(false)
    ensures View(c).backInterceptorEnabled <==> c.backHandler != Some(false)
  {
  }

  /** The refresh-interceptor selector is enabled exactly when
      pull-to-refresh is on. */
  lemma RefreshInterceptorFollowsPullToRefresh(c: WebUIConfig)
    ensures View(c).refreshInterceptorEnabled <==> c.pullToRefresh
    ensures View(c).refreshInterceptorValue == c.refreshInterceptor
  {
  }

  /** The max-age field is enabled exactly when caching is on. */
  lemma MaxAgeFollowsCaching(c: WebUIConfig)
    ensures View(c).cachingMaxAgeEnabled <==> c.caching
  {
  }

  /** As written, the placeholder descriptions of an unset title or icon keep
      the default style; the corrected style would set them in italics. */
  lemma PlaceholderKeepsDefaultStyle(c: WebUIConfig)
    ensures View(c).titleStyle == Regular && View(c).iconStyle == Regular
    ensures c.title.None? ==> ItemStyle(c.title) != View(c).titleStyle
    ensures c.icon.None? ==> ItemStyle(c.icon) != View(c).iconStyle
  {
  }

  /** The title and icon fields start from the stored text, or from the
      empty text when unset, in which case the description is the
      placeholder. */
  lemma TitleAndIconFallBackToEmpty(c: WebUIConfig)
    ensures View(c).titleValue == (if c.title.Some? then c.title.value else "")
    ensures View(c).titleDesc.None? <==> c.title.None?
    ensures View(c).iconValue == (if c.icon.Some? then c.icon.value else "")
    ensures View(c).iconDesc.None? <==> c.icon.None?
  {
  }

  /** `Regex("^[0-9]+$").matches(s)`: one or more ASCII digits and nothing
      else. */
  function IsDigitRun(s: string): (r: bool)
    ensures r <==> 0 < |s| && AllDigits(s)
  {
    0 < |s| && IsAsciiDigit(s[0]) && (|s| == 1 || IsDigitRun(s[1..]))
  }

  /** The max-age field's `onValid` predicate: true for every text that is
      not a run of digits. */
  function MaxAgeOnValid(s: string): (r: bool)
    ensures r <==> |s| == 0 || exists k :: 0 <= k < |s| && !IsAsciiDigit(s[k])
  {
    !IsDigitRun(s)
  }

  // ---------------------------------------------------------------------------
  // Handlers
  // ---------------------------------------------------------------------------

  /** A user's confirmation on one control. A radio choice is `None` when
      the confirmed item carries no value. */
  datatype UserAction =
    | ConfirmTitle(text: string)
    | ConfirmIcon(text: string)
    | SwitchExitConfirm(checked: bool)
    | SwitchBackHandler(checked: bool)
    | ChooseBackInterceptor(choice: Option<string>)
    | SwitchPullToRefresh(checked: bool)
    | ChooseRefreshInterceptor(choice: Option<string>)
    | SwitchWindowResize(checked: bool)
    | SwitchAutoStatusBarsStyle(checked: bool)
    | SwitchKillShellWhenBackground(checked: bool)
    | SwitchHistoryFallback(checked: bool)
    | ConfirmHistoryFallbackFile(text: string)
    | ConfirmContentSecurityPolicy(text: string)
    | SwitchCaching(checked: bool)
    | ConfirmCachingMaxAge(text: string)

  /** The field each control edits. */
  function Target(a: UserAction): Key {
    match a
    case ConfirmTitle(_) => Title
    case ConfirmIcon(_) => Icon
    case SwitchExitConfirm(_) => ExitConfirm
    case SwitchBackHandler(_) => BackHandler
    case ChooseBackInterceptor(_) => BackInterceptor
    case SwitchPullToRefresh(_) => PullToRefresh
    case ChooseRefreshInterceptor(_) => RefreshInterceptor
    case SwitchWindowResize(_) => WindowResize
    case SwitchAutoStatusBarsStyle(_) => AutoStatusBarsStyle
    case SwitchKillShellWhenBackground(_) => KillShellWhenBackground
    case SwitchHistoryFallback(_) => HistoryFallback
    case ConfirmHistoryFallbackFile(_) => HistoryFallbackFile
    case ConfirmContentSecurityPolicy(_) => ContentSecurityPolicy
    case SwitchCaching(_) => Caching
    case ConfirmCachingMaxAge(_) => CachingMaxAge
  }

  /** What a handler does: launch one save (`slave`), show a notice, or fail
      in `toInt()`. The conversion runs inside the builder that `slave` hands
      to the asynchronous `config.save`; a failure there is taken to abort
      that save before anything is written. */
  datatype Reaction = Save(edit: Edit) | Notice(text: string) | NumberFormatError

  const SelectOptionNotice := "Please select an option"

  /** The controls that are switches. */
  predicate IsSwitch(a: UserAction) {
    || a.SwitchExitConfirm? || a.SwitchBackHandler? || a.SwitchPullToRefresh?
    || a.SwitchWindowResize? || a.SwitchAutoStatusBarsStyle? || a.SwitchKillShellWhenBackground?
    || a.SwitchHistoryFallback? || a.SwitchCaching?
  }

  /** The edit-text controls whose text is saved as it was entered. */
  predicate IsTextEntry(a: UserAction) {
    a.ConfirmTitle? || a.ConfirmIcon? || a.ConfirmHistoryFallbackFile? || a.ConfirmContentSecurityPolicy?
  }

  /** The handler of each control. */
  function Handle(a: UserAction): (r: Reaction)
    ensures r.Save? ==> r.edit.key == Target(a) && Fits(r.edit.key, r.edit.value)
    ensures r.Notice? <==> (a.ChooseBackInterceptor? || a.ChooseRefreshInterceptor?) && a.choice.None?
    ensures r.Notice? ==> r.text == SelectOptionNotice
    ensures r.NumberFormatError? <==> a.ConfirmCachingMaxAge? && ParseInt(a.text).None?
    ensures r.Save? && (a.ChooseBackInterceptor? || a.ChooseRefreshInterceptor?) ==>
              r.edit.value == StrVal(a.choice.value)
    ensures r.Save? && a.ConfirmCachingMaxAge? ==>
              r.edit.value == IntVal(ParseInt(a.text).value)
    ensures IsSwitch(a) ==> r == Save(Edit(Target(a), BoolVal(a.checked)))
    ensures IsTextEntry(a) ==> r == Save(Edit(Target(a), StrVal(a.text)))
  {
    match a
    case ConfirmTitle(text) => Save(Edit(Title, StrVal(text)))
    case ConfirmIcon(text) => Save(Edit(Icon, StrVal(text)))
    case SwitchExitConfirm(b) => Save(Edit(ExitConfirm, BoolVal(b)))
    case SwitchBackHandler(b) => Save(Edit(BackHandler, BoolVal(b)))
    case ChooseBackInterceptor(choice) =>
      if choice.None? then Notice(SelectOptionNotice) else Save(Edit(BackInterceptor, StrVal(choice.value)))
    case SwitchPullToRefresh(b) => Save(Edit(PullToRefresh, BoolVal(b)))
    case ChooseRefreshInterceptor(choice) =>
      if choice.None? then Notice(SelectOptionNotice) else Save(Edit(RefreshInterceptor, StrVal(choice.value)))
    case SwitchWindowResize(b) => Save(Edit(WindowResize, BoolVal(b)))
    case SwitchAutoStatusBarsStyle(b) => Save(Edit(AutoStatusBarsStyle, BoolVal(b)))
    case SwitchKillShellWhenBackground(b) => Save(Edit(KillShellWhenBackground, BoolVal(b)))
    case SwitchHistoryFallback(b) => Save(Edit(HistoryFallback, BoolVal(b)))
    case ConfirmHistoryFallbackFile(text) => Save(Edit(HistoryFallbackFile, StrVal(text)))
    case ConfirmContentSecurityPolicy(text) => Save(Edit(ContentSecurityPolicy, StrVal(text)))
    case SwitchCaching(b) => Save(Edit(Caching, BoolVal(b)))
    case ConfirmCachingMaxAge(text) =>
      match ParseInt(text)
      case Some(n) => Save(Edit(CachingMaxAge, IntVal(n)))
      case None => NumberFormatError
  }

  /** The store after a handler ran: a save changes one key, anything else
      leaves the store as it was. */
  function Commit(m: map<string, Value>, r: Reaction): (m': map<string, Value>)
    ensures r.Save? ==> Name(r.edit.key) in m' && m'[Name(r.edit.key)] == r.edit.value
    ensures forall s :: (!r.Save? || s != Name(r.edit.key)) ==> (s in m' <==> s in m)
    ensures forall s :: (!r.Save? || s != Name(r.edit.key)) && s in m ==> m'[s] == m[s]
  {
    if r.Save? then Store(m, r.edit) else m
  }

  /** Every handler changes at most the one key of its own control. */
  lemma HandlerTouchesOnlyItsKey(m: map<string, Value>, a: UserAction, s: string)
    requires s != Name(Target(a))
    ensures s in Commit(m, Handle(a)) <==> s in m
    ensures s in m ==> Commit(m, Handle(a))[s] == m[s]
  {
  }

  /** Confirming an empty radio choice issues no edit to either interceptor. */
  lemma NullChoiceLeavesStoreUnchanged(m: map<string, Value>)
    ensures Commit(m, Handle(ChooseBackInterceptor(None))) == m
    ensures Commit(m, Handle(ChooseRefreshInterceptor(None))) == m
  {
  }

  /** A JavaScript back interceptor disables the exit-confirm switch and
      shows it unchecked whatever is stored. */
  lemma JsBackInterceptorMasksExitConfirm(c: WebUIConfig)
    requires c.backInterceptor == Some("javascript")
    ensures !View(c).exitConfirmEnabled && !View(c).exitConfirmChecked
    ensures View(c.(exitConfirm := true)) == View(c.(exitConfirm := false))
  {
  }

  /** Choosing the JavaScript back interceptor and saving it disables the
      exit-confirm switch in the editor that follows. */
  lemma ChoosingJsBackInterceptorDisablesExitConfirm(c: WebUIConfig)
    ensures Handle(ChooseBackInterceptor(Some(InterceptorOptions[1]))).Save?
    ensures !View(Apply(c, Handle(ChooseBackInterceptor(Some(InterceptorOptions[1]))).edit)).exitConfirmEnabled
  {
  }

  /** Switching the back handler off disables the back-interceptor selector
      but keeps its selection. */
  lemma BackHandlerOffKeepsInterceptor(c: WebUIConfig)
    ensures var v := View(Apply(c, Handle(SwitchBackHandler(false)).edit));
      && !v.backInterceptorEnabled
      && v.backInterceptorValue == View(c).backInterceptorValue
  {
    assert Handle(SwitchBackHandler(false)).edit == Edit(BackHandler, BoolVal(false));
    assert Apply(c, Edit(BackHandler, BoolVal(false))) == c.(backHandler := Some(false));
  }

  /** Confirming the max-age text the field starts from saves the stored
      value unchanged. */
  lemma MaxAgeFieldRoundTrip(c: WebUIConfig)
    requires IsInt32(c.cachingMaxAge)
    ensures Handle(ConfirmCachingMaxAge(View(c).cachingMaxAgeValue)) == Save(Edit(CachingMaxAge, IntVal(c.cachingMaxAge)))
    ensures Apply(c, Handle(ConfirmCachingMaxAge(View(c).cachingMaxAgeValue)).edit) == c
  {
    ParseIntOfDecimalText(c.cachingMaxAge);
    var e := Edit(CachingMaxAge, IntVal(c.cachingMaxAge));
    FieldsDetermineConfig(Apply(c, e), c);
  }

  /** Texts the `onValid` predicate does not flag are digit runs, and they
      save exactly when their value fits an `Int`; what they save is their
      value, never negative. */
  lemma UnflaggedMaxAgeSavesIffInRange(text: string)
    requires !MaxAgeOnValid(text)
    ensures Handle(ConfirmCachingMaxAge(text)).Save? <==> DigitsValue(text) <= IntMax
    ensures Handle(ConfirmCachingMaxAge(text)).Save? ==>
              Handle(ConfirmCachingMaxAge(text)).edit.value == IntVal(DigitsValue(text))
    ensures Handle(ConfirmCachingMaxAge(text)).Save? ==>
              0 <= Handle(ConfirmCachingMaxAge(text)).edit.value.i <= IntMax
  {
    ParseIntOfDigitRun(text);
  }

  /** An eleven-digit text is a digit run the `onValid` predicate does not
      flag, yet its conversion throws, so it is never saved. */
  lemma MaxAgeOverflowThrows()
    ensures !MaxAgeOnValid("10000000000")
    ensures Handle(ConfirmCachingMaxAge("10000000000")) == NumberFormatError
  {
    var s := "10000000000";
    DigitsValueLowerBound(s);
    assert Pow10(|s| - 1) == 10000000000;
    ParseIntOfDigitRun(s);
  }
}
