/** The localisation lookup: per-module tables of English and Hindi
    strings, a global current language (English until changed), and a
    lookup that yields '' for a missing key or translation. */
module Localization {
  import opened Wrappers
  import opened JsValue

  datatype Language = En | Hi

  datatype Translation = Translation(en: string, hi: string)

  function In(t: Translation, lang: Language): string {
    match lang
    case En => t.en
    case Hi => t.hi
  }

  /** The login screen's table. */
  const LoginStrings: map<string, Translation> := map[
    "loginTitle" := Translation("Welcome Back", "वापस स्वागत है"),
    "usernamePlaceholder" := Translation("Username", "उपयोगकर्ता नाम"),
    "passwordPlaceholder" := Translation("Password", "पासवर्ड"),
    "loginButton" := Translation("Login", "लॉगिन"),
    "loginSkipGuest" := Translation("Skip as Guest", "अतिथि के रूप में छोड़ें"),
    "successSuffix" := Translation("successful!", "सफल!"),
    "failedSuffix" := Translation("failed", "विफल"),
    "errorMessage" := Translation("Please try again", "कृपया पुन: प्रयास करें"),
    "loginGuestMessage" := Translation("You are logged in as guest", "आप अतिथि के रूप में लॉगिन हैं"),
    "loginGuestFailed" := Translation("Guest login failed", "अतिथि लॉगिन विफल"),
    "switchToHindi" := Translation("Switch to Hindi", "हिंदी पर स्विच करें"),
    "switchToEnglish" := Translation("Switch to English", "अंग्रेजी पर स्विच करें")
  ]

  /** The registered modules. */
  const Modules: map<string, map<string, Translation>> := map["login" := LoginStrings]

  /** `LanguageManager`'s static state. */
  datatype LanguageState = LanguageState(language: Language)

  const InitialLanguage: LanguageState := LanguageState(En)

  function SetLanguage(s: LanguageState, lang: Language): (r: LanguageState)
    ensures r.language == lang
  {
    LanguageState(lang)
  }

  /** The names every plain object inherits from `Object.prototype`. The
      module map yields a function for each of them, or the prototype
      itself for `__proto__`: truthy values in every case. */
  const InheritedNames: set<string> := {
    "constructor", "hasOwnProperty", "isPrototypeOf", "propertyIsEnumerable",
    "toLocaleString", "toString", "valueOf", "__proto__",
    "__defineGetter__", "__defineSetter__", "__lookupGetter__", "__lookupSetter__"
  }

  /** `new AppLocalizationModule(moduleName)`: the module's table, or the
      error thrown when the map has no truthy value under the name. The
      parameter's declared type admits only registered names, but nothing
      enforces that at run time. An inherited name passes the truthiness
      test. Its value has no `en` or `hi` entry under any key, so it acts
      as an empty table. */
  function NewModule(moduleName: string): (r: Result<map<string, Translation>, JsError>)
    ensures r.Success? <==> moduleName in Modules || moduleName in InheritedNames
    ensures moduleName in Modules ==> r == Success(Modules[moduleName])
    ensures moduleName !in Modules && moduleName in InheritedNames ==> r == Success(map[])
    ensures r.Failure? ==> r.error == NewError("Module '" + moduleName + "' localization not found")
  {
    if moduleName in Modules then Success(Modules[moduleName])
    else if moduleName in InheritedNames then Success(map[])
    else Failure(NewError("Module '" + moduleName + "' localization not found"))
  }

  /** `get(key)`: `moduleData[key]?.[lang] || ''`. A key that is not in the
      table (inherited object properties included) has no translation. */
  function Get(moduleData: map<string, Translation>, key: string, s: LanguageState): (text: string)
    ensures key in moduleData ==> text == In(moduleData[key], s.language)
    ensures key !in moduleData ==> text == ""
  {
    if key in moduleData then In(moduleData[key], s.language) else ""
  }

  /** After `setLanguage(l)` every lookup answers in `l`; before any call
      it answers in English. */
  lemma SetThenGet(moduleData: map<string, Translation>, key: string, s: LanguageState, lang: Language)
    requires key in moduleData
    ensures Get(moduleData, key, SetLanguage(s, lang)) == In(moduleData[key], lang)
    ensures Get(moduleData, key, InitialLanguage) == moduleData[key].en
  {
  }

  /** The login screen asks for 'skipGuest', which the table does not have
      (it has 'loginSkipGuest'), so the button text is '' in every language. */
  lemma SkipGuestIsBlank(s: LanguageState)
    ensures "skipGuest" !in LoginStrings
    ensures Get(LoginStrings, "skipGuest", s) == ""
    ensures Get(LoginStrings, "loginSkipGuest", s) != ""
  {
  }

  /** 'login' is the one registered module. Any other name either throws
      or is inherited, and an inherited one answers '' to every lookup. */
  lemma ConstructibleModules(moduleName: string, key: string, s: LanguageState)
    ensures NewModule(moduleName).Success? <==> moduleName == "login" || moduleName in InheritedNames
    ensures moduleName != "login" && NewModule(moduleName).Success? ==>
      Get(NewModule(moduleName).value, key, s) == ""
  {
  }
}
