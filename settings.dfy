/** The settings page of settings.js: the record kept in the browser store under
    `findit_settings_v1`, the defaults shown for a missing or falsy field, the theme class on
    the page body, and the save, reset and import handlers. */
module Settings {
  import opened Strings

  const StorageKey := "findit_settings_v1"
  const DefaultTheme := "system"
  const DefaultLang := "en"
  const DefaultReportEmail := "diptamudebnath43@gmail.com"
  const ThemeClasses := {"theme-light", "theme-dark", "theme-compact"}

  /** A JSON value as `JSON.parse` returns it (numbers are integers here). */
  datatype Json = JNull | JBool(b: bool) | JNum(n: int) | JStr(s: string) | JArr(items: seq<Json>)
                | JObj(fields: map<string, Json>)

  /** What the store holds under a key: the text of a JSON value, or text that
      `JSON.parse` rejects. */
  datatype Raw = Doc(value: Json) | Garbage

  /** JavaScript truthiness of a value. */
  predicate Truthy(v: Json) {
    match v
    case JNull => false
    case JBool(b) => b
    case JNum(n) => n != 0
    case JStr(s) => s != []
    case _ => true
  }

  /** `s.key` for a value that is not `null`: the member of an object, `undefined` (`None`)
      for anything else. */
  function Get(s: Json, key: string): Option<Json> {
    if s.JObj? && key in s.fields then Some(s.fields[key]) else None
  }

  /** A stored field or its fallback: a missing or falsy value takes the fallback. */
  function Or(v: Option<Json>, fallback: Json): (r: Json)
    ensures v.Some? && Truthy(v.value) ==> r == v.value
    ensures !(v.Some? && Truthy(v.value)) ==> r == fallback
  {
    if v.Some? && Truthy(v.value) then v.value else fallback
  }

  /** `!!v`. */
  predicate Flag(v: Option<Json>) {
    v.Some? && Truthy(v.value)
  }

  function IntText(n: int): string {
    if n < 0 then "-" + NatToString(-n) else NatToString(n)
  }

  /** `String(v)`: the text a control shows once `v` is assigned to its `value`. */
  function Shown(v: Json): string
    decreases v
  {
    match v
    case JNull => "null"
    case JBool(b) => if b then "true" else "false"
    case JNum(n) => IntText(n)
    case JStr(s) => s
    case JArr(a) => Join(seq(|a|, i requires 0 <= i < |a| => if a[i] == JNull then [] else Shown(a[i])), ",")
    case JObj(_) => "[object Object]"
  }

  // ---------------------------------------------------------------------------------------
  // loadSettings / saveSettings

  /** `loadSettings()`: the parsed record, or `{}` when the key is missing or its text does
      not parse. */
  function LoadSettings(store: map<string, Raw>): Json {
    if StorageKey in store && store[StorageKey].Doc? then store[StorageKey].value else JObj(map[])
  }

  /** A missing key and unparsable text both give `{}`; otherwise the stored value comes back. */
  lemma LoadSpec(store: map<string, Raw>)
    ensures StorageKey !in store ==> LoadSettings(store) == JObj(map[])
    ensures StorageKey in store && store[StorageKey] == Garbage ==> LoadSettings(store) == JObj(map[])
    ensures forall v :: StorageKey in store && store[StorageKey] == Doc(v) ==> LoadSettings(store) == v
  {
  }

  /** `saveSettings(settings)`: the key now holds the text of `settings`, other keys are kept. */
  function SaveSettings(store: map<string, Raw>, settings: Json): (r: map<string, Raw>)
    ensures StorageKey in r && r[StorageKey] == Doc(settings)
    ensures forall k :: k in store && k != StorageKey ==> k in r && r[k] == store[k]
    ensures r.Keys == store.Keys + {StorageKey}
  {
    store[StorageKey := Doc(settings)]
  }

  /** Saving and then loading gives back the record saved. */
  lemma SaveLoad(store: map<string, Raw>, settings: Json)
    ensures LoadSettings(SaveSettings(store, settings)) == settings
  {
  }

  // ---------------------------------------------------------------------------------------
  // applyTheme

  /** The class `applyTheme` adds for a theme, if any. */
  function ThemeClass(theme: Json): Option<string> {
    if theme == JStr("light") then Some("theme-light")
    else if theme == JStr("dark") then Some("theme-dark")
    else if theme == JStr("compact") then Some("theme-compact")
    else None
  }

  /** The body's classes after `applyTheme(theme)`. */
  function Themed(body: set<string>, theme: Json): set<string> {
    var cleared := body - ThemeClasses;
    if ThemeClass(theme).Some? then cleared + {ThemeClass(theme).value} else cleared
  }

  /** Exactly the class matching `light`, `dark` or `compact` is left of the three, none of
      them for any other theme, and every other class is unchanged. */
  lemma ThemedSpec(body: set<string>, theme: Json)
    ensures theme == JStr("light") ==> Themed(body, theme) * ThemeClasses == {"theme-light"}
    ensures theme == JStr("dark") ==> Themed(body, theme) * ThemeClasses == {"theme-dark"}
    ensures theme == JStr("compact") ==> Themed(body, theme) * ThemeClasses == {"theme-compact"}
    ensures theme !in {JStr("light"), JStr("dark"), JStr("compact")} ==> Themed(body, theme) * ThemeClasses == {}
    ensures Themed(body, theme) - ThemeClasses == body - ThemeClasses
  {
  }

  /** Only the last theme applied matters. */
  lemma LastThemeWins(body: set<string>, first: Json, second: Json)
    ensures Themed(Themed(body, first), second) == Themed(body, second)
  {
  }

  // ---------------------------------------------------------------------------------------
  // populate

  /** The settings form. */
  datatype Controls = Controls(theme: string, lang: string, notifications: bool, reportEmail: string,
                               autoBackup: bool)

  /** The theme `populate` shows and applies. */
  function PopulateTheme(s: Json): Json {
    Or(Get(s, "theme"), JStr(DefaultTheme))
  }

  /** The form `populate` fills in from a loaded record, or `None` where reading `s.theme`
      throws because the record is `null`. */
  function Populated(s: Json): Option<Controls> {
    if s == JNull then None
    else Some(Controls(Shown(PopulateTheme(s)), Shown(Or(Get(s, "lang"), JStr(DefaultLang))),
                       Flag(Get(s, "notifications")), Shown(Or(Get(s, "reportEmail"), JStr(DefaultReportEmail))),
                       Flag(Get(s, "autoBackup"))))
  }

  /** Each text control shows its default exactly when the stored field is missing or falsy,
      and the two switches show whether it is truthy. */
  lemma PopulatedDefaults(s: Json)
    requires s != JNull
    ensures var c := Populated(s).value;
            && (!Flag(Get(s, "theme")) ==> c.theme == DefaultTheme)
            && (Flag(Get(s, "theme")) ==> c.theme == Shown(Get(s, "theme").value))
            && (!Flag(Get(s, "lang")) ==> c.lang == DefaultLang)
            && (Flag(Get(s, "lang")) ==> c.lang == Shown(Get(s, "lang").value))
            && (!Flag(Get(s, "reportEmail")) ==> c.reportEmail == DefaultReportEmail)
            && (Flag(Get(s, "reportEmail")) ==> c.reportEmail == Shown(Get(s, "reportEmail").value))
            && (c.notifications <==> Get(s, "notifications").Some? && Truthy(Get(s, "notifications").value))
            && (c.autoBackup <==> Get(s, "autoBackup").Some? && Truthy(Get(s, "autoBackup").value))
  {
  }

  /** The form an empty record gives. */
  const Defaults := Controls(DefaultTheme, DefaultLang, false, DefaultReportEmail, false)

  /** With nothing stored, or unparsable text, the form shows the defaults. */
  lemma NothingStoredShowsDefaults(store: map<string, Raw>)
    requires StorageKey !in store || store[StorageKey] == Garbage
    ensures Populated(LoadSettings(store)) == Some(Defaults)
  {
  }

  // ---------------------------------------------------------------------------------------
  // The save handler

  /** The record the save button builds from the form, `savedAt` being the clock's
      ISO text. */
  function Record(c: Controls, savedAt: string): Json {
    JObj(map["theme" := JStr(c.theme), "lang" := JStr(c.lang), "notifications" := JBool(c.notifications),
             "reportEmail" := JStr(Trim(c.reportEmail)), "autoBackup" := JBool(c.autoBackup),
             "savedAt" := JStr(savedAt)])
  }

  /** A saved form comes back on the next `populate` with the address trimmed, as long as no
      text control was left empty (an empty one comes back as its default). */
  lemma SavePopulate(store: map<string, Raw>, c: Controls, savedAt: string)
    ensures var back := Populated(LoadSettings(SaveSettings(store, Record(c, savedAt)))).value;
            && back.notifications == c.notifications && back.autoBackup == c.autoBackup
            && back.theme == (if c.theme != [] then c.theme else DefaultTheme)
            && back.lang == (if c.lang != [] then c.lang else DefaultLang)
            && back.reportEmail == (if Trim(c.reportEmail) != [] then Trim(c.reportEmail) else DefaultReportEmail)
  {
    var rec := Record(c, savedAt);
    SaveLoad(store, rec);
    RecordFields(c, savedAt);
    ShownText(c.theme, DefaultTheme);
    ShownText(c.lang, DefaultLang);
    ShownText(Trim(c.reportEmail), DefaultReportEmail);
  }

  /** A stored text field shows as itself, or as its fallback when it is empty. */
  lemma ShownText(t: string, fallback: string)
    ensures Shown(Or(Some(JStr(t)), JStr(fallback))) == if t != [] then t else fallback
  {
  }

  /** The fields of a saved record, read back one by one. */
  lemma RecordFields(c: Controls, savedAt: string)
    ensures Get(Record(c, savedAt), "theme") == Some(JStr(c.theme))
    ensures Get(Record(c, savedAt), "lang") == Some(JStr(c.lang))
    ensures Get(Record(c, savedAt), "reportEmail") == Some(JStr(Trim(c.reportEmail)))
    ensures Get(Record(c, savedAt), "notifications") == Some(JBool(c.notifications))
    ensures Get(Record(c, savedAt), "autoBackup") == Some(JBool(c.autoBackup))
  {
  }

  // ---------------------------------------------------------------------------------------
  // The page

  /** The messages `alert` shows. */
  datatype Notice = SettingsSaved | SettingsReset | SettingsImported | InvalidFile

  function NoticeText(n: Notice): string {
    match n
    case SettingsSaved => "Settings saved"
    case SettingsReset => "Settings reset"
    case SettingsImported => "Settings imported — saved locally."
    case InvalidFile => "Invalid settings file."
  }

  /** The settings page: the browser store, the body's classes, the form, the alerts shown
      so far, and whether the `DOMContentLoaded` handler got as far as attaching the
      button handlers. */
  class SettingsPage {
    var store: map<string, Raw>
    var body: set<string>
    var controls: Controls
    var alerts: seq<Notice>
    var listening: bool

    constructor (initial: map<string, Raw>, classes: set<string>, form: Controls)
      ensures store == initial && body == classes && controls == form && alerts == [] && !listening
    {
      store := initial;
      body := classes;
      controls := form;
      alerts := [];
      listening := false;
    }

    /** `applyTheme(theme)`. */
    method ApplyTheme(theme: Json)
      modifies this`body
      ensures body == Themed(old(body), theme)
    {
      body := body - ThemeClasses;
      if theme == JStr("light") {
        body := body + {"theme-light"};
      } else if theme == JStr("dark") {
        body := body + {"theme-dark"};
      } else if theme == JStr("compact") {
        body := body + {"theme-compact"};
      } else {
        body := body - ThemeClasses;
      }
    }

    /** `populate()`: fills the form from the loaded record and applies its theme; throws,
        changing nothing, when the record is `null`. */
    method Populate() returns (threw: bool)
      modifies this`controls, this`body
      ensures threw <==> LoadSettings(store) == JNull
      ensures !threw ==> controls == Populated(LoadSettings(store)).value
                         && body == Themed(old(body), PopulateTheme(LoadSettings(store)))
      ensures threw ==> controls == old(controls) && body == old(body)
    {
      var s := LoadSettings(store);
      if s == JNull {
        return true;
      }
      controls := Populated(s).value;
      ApplyTheme(PopulateTheme(s));
      return false;
    }

    /** The `DOMContentLoaded` handler: nothing happens off the settings page; on it the form
        is populated and the handlers attached, unless `populate` throws first. */
    method Start(onSettingsPage: bool)
      modifies this`controls, this`body, this`listening
      ensures listening <==> onSettingsPage && LoadSettings(store) != JNull
      ensures onSettingsPage && LoadSettings(store) != JNull ==>
                controls == Populated(LoadSettings(store)).value
                && body == Themed(old(body), PopulateTheme(LoadSettings(store)))
      ensures !(onSettingsPage && LoadSettings(store) != JNull) ==> controls == old(controls) && body == old(body)
    {
      listening := false;
      if !onSettingsPage {
        return;
      }
      var threw := Populate();
      listening := !threw;
    }

    /** The save button: the form is stored as a record, its theme applied, and the user
        told. */
    method Save(savedAt: string)
      modifies this`store, this`body, this`alerts
      ensures store == SaveSettings(old(store), Record(controls, savedAt))
      ensures body == Themed(old(body), JStr(controls.theme))
      ensures alerts == old(alerts) + [SettingsSaved]
    {
      var settings := Record(controls, savedAt);
      store := store[StorageKey := Doc(settings)];
      ApplyTheme(JStr(controls.theme));
      alerts := alerts + [SettingsSaved];
    }

    /** Changing the theme select applies the theme at once, saving nothing. */
    method ThemeChanged()
      modifies this`body
      ensures body == Themed(old(body), JStr(controls.theme))
    {
      ApplyTheme(JStr(controls.theme));
    }

    /** `resetSettings()` with the user's answer to the confirmation: a cancel changes
        nothing; a confirm removes the key, so the form shows the defaults and no theme class
        is left. */
    method Reset(confirmed: bool)
      modifies this`store, this`controls, this`body, this`alerts
      ensures !confirmed ==> store == old(store) && controls == old(controls) && body == old(body)
                             && alerts == old(alerts)
      ensures confirmed ==> store == old(store) - {StorageKey} && controls == Defaults
                            && body == old(body) - ThemeClasses && alerts == old(alerts) + [SettingsReset]
    {
      if !confirmed {
        return;
      }
      store := store - {StorageKey};
      var threw := Populate();
      alerts := alerts + [SettingsReset];
    }

    /** `importSettingsFile(file)` with the file's text: no file does nothing; text that does
        not parse is reported and nothing is stored; a parsed value is stored and the form
        repopulated, and the alert depends on whether `populate` threw. */
    method Import(file: Option<Raw>)
      modifies this`store, this`controls, this`body, this`alerts
      ensures file.None? ==> store == old(store) && controls == old(controls) && body == old(body)
                             && alerts == old(alerts)
      ensures file == Some(Garbage) ==> store == old(store) && controls == old(controls)
                                        && body == old(body) && alerts == old(alerts) + [InvalidFile]
      ensures file.Some? && file.value.Doc? ==>
                && store == SaveSettings(old(store), file.value.value)
                && alerts == old(alerts) + [if file.value.value == JNull then InvalidFile else SettingsImported]
                && (file.value.value != JNull ==>
                      controls == Populated(file.value.value).value
                      && body == Themed(old(body), PopulateTheme(file.value.value)))
                && (file.value.value == JNull ==> controls == old(controls) && body == old(body))
    {
      if file.None? {
        return;
      }
      if file.value == Garbage {
        alerts := alerts + [InvalidFile];
        return;
      }
      store := store[StorageKey := Doc(file.value.value)];
      var threw := Populate();
      alerts := alerts + [if threw then InvalidFile else SettingsImported];
    }

    /** The import as evidently intended: a file that is reported invalid leaves the store
        as it was, so the page keeps working. */
    method ImportChecked(file: Option<Raw>)
      modifies this`store, this`controls, this`body, this`alerts
      ensures file.None? ==> store == old(store) && controls == old(controls) && body == old(body)
                             && alerts == old(alerts)
      ensures file.Some? && (file.value.Garbage? || file.value.value == JNull) ==>
                store == old(store) && controls == old(controls) && body == old(body)
                && alerts == old(alerts) + [InvalidFile]
      ensures file.Some? && file.value.Doc? && file.value.value != JNull ==>
                && store == SaveSettings(old(store), file.value.value)
                && alerts == old(alerts) + [SettingsImported]
                && controls == Populated(file.value.value).value
                && body == Themed(old(body), PopulateTheme(file.value.value))
      ensures LoadSettings(old(store)) != JNull ==> LoadSettings(store) != JNull
    {
      if file.None? {
        return;
      }
      if file.value == Garbage || file.value.value == JNull {
        alerts := alerts + [InvalidFile];
        return;
      }
      store := store[StorageKey := Doc(file.value.value)];
      var threw := Populate();
      alerts := alerts + [SettingsImported];
    }
  }

  /** Importing a file whose text is `null` stores `null` although the user is told the file
      is invalid; from then on `populate` throws, so the next visit to the page attaches no
      handlers, the reset button included. */
  lemma NullImportBreaksPage(store: map<string, Raw>)
    requires StorageKey !in store
    ensures var after := SaveSettings(store, JNull);
            && after != store
            && LoadSettings(after) == JNull
            && Populated(LoadSettings(after)).None?
            && Populated(LoadSettings(store)) == Some(Defaults)
  {
    assert StorageKey in SaveSettings(store, JNull);
  }
}
