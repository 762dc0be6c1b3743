/** The pure decisions of the app's utility extensions: how a module's
    version is displayed, which working mode a platform maps to, which base
    directory a WebUI runs in, which WebUI host is launched, and the typed
    lookups into an untyped key/value map. */
module Extensions {
  import opened Wrappers
  import opened Types
  import opened Numerals

  /** `BrickException`: an unrecoverable configuration error. */
  datatype Brick = Brick(message: string)

  // ---------------------------------------------------------------------------
  // versionDisplay
  // ---------------------------------------------------------------------------

  /** The characters a JVM regex `.` refuses to match (no DOTALL flag). */
  predicate IsLineTerminator(ch: char) {
    ch == '\n' || ch == '\r' || ch == '\U{0085}' || ch == '\U{2028}' || ch == '\U{2029}'
  }

  /** No line terminator in `v[a..b]`. */
  predicate SameLine(v: string, a: int, b: int) {
    0 <= a && b <= |v| && forall k :: a <= k < b ==> !IsLineTerminator(v[k])
  }

  predicate OccursAt(v: string, c: string, j: int) {
    0 <= j && j + |c| <= |v| && v[j..j + |c|] == c
  }

  /** A needle that can neither open a group nor end a line, as every
      decimal number is. */
  predicate Inert(c: string) {
    forall k :: 0 <= k < |c| ==> c[k] != '(' && !IsLineTerminator(c[k])
  }

  /** `v[i..l+1]` is a match of the pattern `\(.*?c.*?\)` with `c` at `j`. */
  ghost predicate GroupAt(v: string, c: string, i: int, j: int, l: int) {
    && 0 <= i < j
    && j + |c| <= l < |v|
    && v[i] == '('
    && OccursAt(v, c, j)
    && v[l] == ')'
    && SameLine(v, i + 1, l)
  }

  /** `Regex("\\(.*?c.*?\\)").containsMatchIn(v)`. */
  ghost predicate HasCodeGroup(v: string, c: string) {
    exists i, j, l :: GroupAt(v, c, i, j, l)
  }

  // The scan below reads `v` once, left to right. After the prefix `v[..k]`
  // it knows whether a `(` is still open on the current line, whether that
  // open group already holds a complete `c`, and whether a group has closed.

  ghost predicate OpenFrom(v: string, i: int, k: int) {
    0 <= i < k && k <= |v| && v[i] == '(' && SameLine(v, i + 1, k)
  }

  ghost predicate OpenAt(v: string, k: int) {
    exists i :: OpenFrom(v, i, k)
  }

  ghost predicate ArmedFrom(v: string, c: string, i: int, j: int, k: int) {
    OpenFrom(v, i, k) && i < j && j + |c| <= k && OccursAt(v, c, j)
  }

  ghost predicate ArmedAt(v: string, c: string, k: int) {
    exists i, j :: ArmedFrom(v, c, i, j, k)
  }

  ghost predicate ClosedBefore(v: string, c: string, k: int) {
    exists i, j, l :: l < k && GroupAt(v, c, i, j, l)
  }

  lemma OpenStep(v: string, k: int)
    requires 0 <= k < |v|
    ensures OpenAt(v, k + 1) <==> v[k] == '(' || (OpenAt(v, k) && !IsLineTerminator(v[k]))
  {
    if OpenAt(v, k + 1) {
      var i :| OpenFrom(v, i, k + 1);
      if i < k {
        assert OpenFrom(v, i, k);
      }
    }
    if v[k] == '(' {
      assert OpenFrom(v, k, k + 1);
    } else if OpenAt(v, k) && !IsLineTerminator(v[k]) {
      var i :| OpenFrom(v, i, k);
      assert OpenFrom(v, i, k + 1);
    }
  }

  lemma ArmedStep(v: string, c: string, k: int)
    requires 0 <= k < |v| && Inert(c)
    ensures ArmedAt(v, c, k + 1) <==>
              (ArmedAt(v, c, k) && !IsLineTerminator(v[k]))
              || (|c| <= k + 1 && OccursAt(v, c, k + 1 - |c|) && OpenAt(v, k + 1))
  {
    if ArmedAt(v, c, k + 1) {
      var i, j :| ArmedFrom(v, c, i, j, k + 1);
      if j + |c| <= k {
        assert ArmedFrom(v, c, i, j, k);
      } else {
        assert j == k + 1 - |c|;
      }
    }
    if ArmedAt(v, c, k) && !IsLineTerminator(v[k]) {
      var i, j :| ArmedFrom(v, c, i, j, k);
      assert ArmedFrom(v, c, i, j, k + 1);
    }
    if |c| <= k + 1 && OccursAt(v, c, k + 1 - |c|) && OpenAt(v, k + 1) {
      var j := k + 1 - |c|;
      var i :| OpenFrom(v, i, k + 1);
      assert ArmedFrom(v, c, i, j, k + 1);
    }
  }

  lemma ClosedStep(v: string, c: string, k: int)
    requires 0 <= k < |v|
    ensures ClosedBefore(v, c, k + 1) <==> ClosedBefore(v, c, k) || (v[k] == ')' && ArmedAt(v, c, k))
  {
    if ClosedBefore(v, c, k + 1) {
      var i, j, l :| l < k + 1 && GroupAt(v, c, i, j, l);
      if l == k {
        assert ArmedFrom(v, c, i, j, k);
      }
    }
    if v[k] == ')' && ArmedAt(v, c, k) {
      var i, j :| ArmedFrom(v, c, i, j, k);
      assert GroupAt(v, c, i, j, k);
    }
  }

  /** One pass over `v[k..]`, given the scan state after `v[..k]`. */
  function Scan(v: string, c: string, k: nat, open: bool, armed: bool, found: bool): (r: bool)
    requires Inert(c) && k <= |v|
    requires open == OpenAt(v, k) && armed == ArmedAt(v, c, k) && found == ClosedBefore(v, c, k)
    ensures r <==> HasCodeGroup(v, c)
    decreases |v| - k
  {
    if k == |v| then
      found
    else
      var ch := v[k];
      var open' := ch == '(' || (open && !IsLineTerminator(ch));
      var armed' := (armed && !IsLineTerminator(ch)) || (|c| <= k + 1 && OccursAt(v, c, k + 1 - |c|) && open');
      var found' := found || (ch == ')' && armed);
      OpenStep(v, k);
      ArmedStep(v, c, k);
      ClosedStep(v, c, k);
      Scan(v, c, k + 1, open', armed', found')
  }

  /** Executable form of the regex test. */
  function ContainsCodeGroup(v: string, c: string): (r: bool)
    requires Inert(c)
    ensures r <==> HasCodeGroup(v, c)
  {
    Scan(v, c, 0, false, false, false)
  }

  /** The decimal text of a version code never opens a group or ends a line. */
  lemma DecimalTextInert(n: int)
    ensures Inert(DecimalText(n))
  {
    var c := DecimalText(n);
    forall k | 0 <= k < |c|
      ensures c[k] != '(' && !IsLineTerminator(c[k])
    {
      assert IsAsciiDigit(c[k]) || c[k] == '-';
    }
  }

  /** `LocalModule.versionDisplay`: the version as written when it already
      holds the code inside a parenthesised group on one line, otherwise the
      version followed by ` (code)`. */
  function VersionDisplay(version: string, versionCode: int): (shown: string)
    ensures HasCodeGroup(version, DecimalText(versionCode)) ==> shown == version
    ensures !HasCodeGroup(version, DecimalText(versionCode)) ==>
              shown == version + " (" + DecimalText(versionCode) + ")"
  {
    var code := DecimalText(versionCode);
    DecimalTextInert(versionCode);
    if ContainsCodeGroup(version, code) then version else version + " (" + code + ")"
  }

  /** Appending ` (c)` always yields a group holding `c`. */
  lemma SuffixedHasCodeGroup(version: string, c: string)
    requires Inert(c)
    ensures HasCodeGroup(version + " (" + c + ")", c)
  {
    var v := version + " (" + c + ")";
    var i, j, l := |version| + 1, |version| + 2, |version| + 2 + |c|;
    assert v[j..j + |c|] == c;
    forall k | i + 1 <= k < l
      ensures !IsLineTerminator(v[k])
    {
      assert v[k] == c[k - j];
    }
    assert GroupAt(v, c, i, j, l);
  }

  /** Whatever the version string, the display shows the code in a group. */
  lemma VersionDisplayShowsCode(version: string, versionCode: int)
    ensures HasCodeGroup(VersionDisplay(version, versionCode), DecimalText(versionCode))
  {
    if !HasCodeGroup(version, DecimalText(versionCode)) {
      DecimalTextInert(versionCode);
      SuffixedHasCodeGroup(version, DecimalText(versionCode));
    }
  }

  /** Displaying an already displayed version changes nothing. */
  lemma VersionDisplayIdempotent(version: string, versionCode: int)
    ensures VersionDisplay(VersionDisplay(version, versionCode), versionCode)
            == VersionDisplay(version, versionCode)
  {
    VersionDisplayShowsCode(version, versionCode);
  }

  /** The group only needs to hold the code's digits somewhere: code 2 is
      found inside "(12)", so no ` (2)` is appended. */
  lemma VersionDisplayMatchesInsideLargerNumber()
    ensures VersionDisplay("1.0 (12)", 2) == "1.0 (12)"
  {
    var v := "1.0 (12)";
    assert DecimalText(2) == "2";
    assert v[6..7] == "2";
    assert GroupAt(v, "2", 4, 6, 7);
  }

  // ---------------------------------------------------------------------------
  // Platform.toWorkingMode
  // ---------------------------------------------------------------------------

  datatype WorkingMode = ModeMagisk | ModeKernelSU | ModeKernelSUNext | ModeAPatch | ModeNonRoot

  const SupportedPlatforms: set<Platform> := {Magisk, KernelSU, KsuNext, APatch, NonRoot}

  /** The platform a working mode was derived from. */
  function PlatformOf(m: WorkingMode): (p: Platform)
    ensures p in SupportedPlatforms
  {
    match m
    case ModeMagisk => Magisk
    case ModeKernelSU => KernelSU
    case ModeKernelSUNext => KsuNext
    case ModeAPatch => APatch
    case ModeNonRoot => NonRoot
  }

  /** `Platform.toWorkingMode`: defined on the five supported platforms, where
      it is undone by `PlatformOf`; any other platform bricks. */
  function ToWorkingMode(p: Platform): (r: Result<WorkingMode, Brick>)
    ensures r.Success? <==> p in SupportedPlatforms
    ensures r.Success? ==> PlatformOf(r.value) == p
    ensures r.Failure? ==> r.error == Brick("Unsupported Platform")
  {
    match p
    case Magisk => Success(ModeMagisk)
    case KernelSU => Success(ModeKernelSU)
    case KsuNext => Success(ModeKernelSUNext)
    case APatch => Success(ModeAPatch)
    case NonRoot => Success(ModeNonRoot)
    case _ => Failure(Brick("Unsupported Platform"))
  }

  /** Every working mode is reached, from exactly one platform. */
  lemma ToWorkingModeOfPlatformOf(m: WorkingMode)
    ensures ToWorkingMode(PlatformOf(m)) == Success(m)
  {
  }

  lemma ToWorkingModeInjective(p: Platform, q: Platform)
    requires ToWorkingMode(p).Success? && ToWorkingMode(p) == ToWorkingMode(q)
    ensures p == q
  {
  }

  // ---------------------------------------------------------------------------
  // Context.getBaseDir
  // ---------------------------------------------------------------------------

  /** The working directory handed to a WebUI: the fixed `ModId.ADB_DIR` of
      root platforms, or the app's external files directory. */
  datatype Dir = AdbDir | AppFilesDir(path: string)

  /** `Context.getBaseDir`; `externalFilesDir` is `getExternalFilesDir(null)`. */
  function GetBaseDir(platform: Platform, externalFilesDir: Option<string>): (r: Result<Dir, Brick>)
    ensures !platform.IsNonRoot() ==> r == Success(AdbDir)
    ensures platform.IsNonRoot() ==> (r.Failure? <==> externalFilesDir.None?)
    ensures platform.IsNonRoot() && externalFilesDir.Some? ==> r == Success(AppFilesDir(externalFilesDir.value))
    ensures r.Failure? ==> r.error == Brick("Failed to get filesDir")
  {
    if platform.IsNonRoot() then
      match externalFilesDir
      case None => Failure(Brick("Failed to get filesDir"))
      case Some(path) => Success(AppFilesDir(path))
    else
      Success(AdbDir)
  }

  // ---------------------------------------------------------------------------
  // UserPreferences.launchWebUI
  // ---------------------------------------------------------------------------

  /** The one visible effect of a dispatch. `LaunchWX` is `launchWebUIX` of
      the internal host, with or without a base directory; `LaunchKsu` is
      `launchWebUI` of the KernelSU host, whose intent always carries the base
      directory; `Toast` is a short notice. */
  datatype Effect =
    | LaunchWX(modId: ModId, baseDir: Option<Dir>)
    | LaunchKsu(id: string, intentBaseDir: Dir)
    | Toast(text: string)

  const UnknownEngineNotice := "Unknown WebUI engine"

  /** `UserPreferences.launchWebUI`. `moduleEngine` is the module's own
      engine setting (`config.getWebuiEngine`), read only when the user prefers
      the module's choice. The base directory is resolved before anything
      else, so its failure prevents every launch and notice. */
  function LaunchWebUI(
    prefs: UserPreferences, platform: Platform, externalFilesDir: Option<string>,
    modId: ModId, moduleEngine: Option<string>): (r: Result<Effect, Brick>)
    ensures r.Failure? <==> platform.IsNonRoot() && externalFilesDir.None?
    ensures r.Failure? ==> r == GetBaseDir(platform, externalFilesDir).PropagateFailure()
    ensures r.Success? ==> var engine := prefs.webuiEngine; var dir := GetBaseDir(platform, externalFilesDir).value;
      && (r.value == LaunchWX(modId, None) <==> engine == PreferModule && moduleEngine == None)
      && (r.value == LaunchWX(modId, Some(dir)) <==>
            engine == WX || (engine == PreferModule && moduleEngine == Some("wx")))
      && (r.value == LaunchKsu(modId.id, dir) <==>
            engine == KSU || (engine == PreferModule && moduleEngine == Some("ksu")))
      && (r.value == Toast(UnknownEngineNotice) <==>
            engine.OtherEngine?
            || (engine == PreferModule && moduleEngine.Some? && moduleEngine.value !in {"wx", "ksu"}))
  {
    var baseDir :- GetBaseDir(platform, externalFilesDir);
    if prefs.webuiEngine == PreferModule then
      match moduleEngine
      case None => Success(LaunchWX(modId, None))
      case Some(engine) =>
        if engine == "wx" then Success(LaunchWX(modId, Some(baseDir)))
        else if engine == "ksu" then Success(LaunchKsu(modId.id, baseDir))
        else Success(Toast(UnknownEngineNotice))
    else if prefs.webuiEngine == WX then
      Success(LaunchWX(modId, Some(baseDir)))
    else if prefs.webuiEngine == KSU then
      Success(LaunchKsu(modId.id, baseDir))
    else
      Success(Toast(UnknownEngineNotice))
  }

  /** A forced engine makes the module's own setting irrelevant. */
  lemma ForcedEngineIgnoresModule(
    prefs: UserPreferences, platform: Platform, externalFilesDir: Option<string>,
    modId: ModId, e1: Option<string>, e2: Option<string>)
    requires prefs.webuiEngine != PreferModule
    ensures LaunchWebUI(prefs, platform, externalFilesDir, modId, e1)
            == LaunchWebUI(prefs, platform, externalFilesDir, modId, e2)
  {
  }

  /** The base directory bricks the dispatch even on the one path that does
      not pass it on: a module with no engine of its own on a non-root
      platform without an external files directory. */
  lemma BaseDirFailsWhereUnused(prefs: UserPreferences, modId: ModId)
    requires prefs.webuiEngine == PreferModule
    ensures LaunchWebUI(prefs, NonRoot, None, modId, None) == Failure(Brick("Failed to get filesDir"))
    ensures LaunchWebUI(prefs, NonRoot, Some("files"), modId, None) == Success(LaunchWX(modId, None))
  {
  }

  // ---------------------------------------------------------------------------
  // getBoolProp / getProp / getPropOrNull
  // ---------------------------------------------------------------------------

  /** `this?.get(key)`: null for a null map and for a missing key. */
  function Lookup(m: Option<map<string, Value>>, key: string): (v: Value)
    ensures m.Some? && key in m.value ==> v == m.value[key]
    ensures m.None? || key !in m.value ==> v == Null
  {
    if m.Some? && key in m.value then m.value[key] else Null
  }

  /** `getProp<T>(key, def)`: the looked-up value when it `is T` (the `cast`
      succeeds), else `def`. A missing key reads as null, so it yields `def`
      exactly when null is not a `T`. */
  function GetProp<T>(m: Option<map<string, Value>>, key: string, cast: Value -> Option<T>, def: T): (r: T)
    ensures m.Some? && key in m.value && cast(m.value[key]).Some? ==> r == cast(m.value[key]).value
    ensures m.Some? && key in m.value && cast(m.value[key]).None? ==> r == def
    ensures (m.None? || key !in m.value) && cast(Null).None? ==> r == def
    ensures (m.None? || key !in m.value) && cast(Null).Some? ==> r == cast(Null).value
  {
    match cast(Lookup(m, key))
    case Some(t) => t
    case None => def
  }

  /** `getBoolProp(key, def)`: the stored Boolean, else `def`. Kotlin's
      default argument for `def` is `false`; a caller that omits it passes
      `false` here. */
  function GetBoolProp(m: Option<map<string, Value>>, key: string, def: bool): (r: bool)
    ensures (exists b :: Lookup(m, key) == BoolVal(b)) ==> Lookup(m, key) == BoolVal(r)
    ensures !Lookup(m, key).BoolVal? ==> r == def
  {
    GetProp(m, key, AsBool, def)
  }

  /** The `is T?` test derived from an `is T` test that refuses null. */
  function NullableCast<T>(cast: Value -> Option<T>, v: Value): (r: Option<Option<T>>)
    ensures v.Null? ==> r == Some(None)
    ensures !v.Null? ==> (r.Some? <==> cast(v).Some?)
    ensures !v.Null? && r.Some? ==> r.value == cast(v)
  {
    if v.Null? then Some(None)
    else match cast(v)
      case Some(t) => Some(Some(t))
      case None => None
  }

  /** `getPropOrNull<T>(key)`: the stored value when it is a `T`, otherwise
      null, whether the map is null, the key missing or the value of another
      type. */
  function GetPropOrNull<T>(m: Option<map<string, Value>>, key: string, cast: Value -> Option<T>): (r: Option<T>)
    requires cast(Null).None?
    ensures r.Some? <==> m.Some? && key in m.value && cast(m.value[key]).Some?
    ensures r.Some? ==> r == cast(m.value[key])
  {
    GetProp(m, key, v => NullableCast(cast, v), None)
  }

  /** `getProp` with a non-null default is `getPropOrNull` with that default
      filled in. */
  lemma GetPropIsGetPropOrNullOrDefault<T>(m: Option<map<string, Value>>, key: string, cast: Value -> Option<T>, def: T)
    requires cast(Null).None?
    ensures GetProp(m, key, cast, def) == GetPropOrNull(m, key, cast).GetOr(def)
  {
  }

  /** Asking `getProp` for a nullable string where the map is null or the key
      missing gives null, not the default: null is a `String?`. */
  lemma GetNullableStringPropOfMissingKey(m: Option<map<string, Value>>, key: string, def: Option<string>)
    requires m.None? || key !in m.value
    ensures GetProp(m, key, v => NullableCast(AsString, v), def) == None
  {
  }

  /** Storing a value and reading it back under the same key with a matching
      type gives the value; other keys read as before. */
  lemma GetPropAfterStore<T>(m: map<string, Value>, key: string, v: Value, cast: Value -> Option<T>, def: T, other: string)
    requires other != key
    ensures GetProp(Some(m[key := v]), key, cast, def) == cast(v).GetOr(def)
    ensures GetProp(Some(m[key := v]), other, cast, def) == GetProp(Some(m), other, cast, def)
  {
  }
}
