/**
  * The language provider: the three display languages, the translation
  * dictionaries, the `t(key, fallback)` lookup and the `useLanguage` guard
  * (src/contexts/LanguageContext.tsx).
  */
module LanguageContext {
  import opened Seqs

  datatype Language = English | Hindi | Tamil

  /** A dictionary: its entries in declared order, key first. */
  type Dictionary = seq<(string, string)>

  /** The keys of a dictionary, in declared order. */
  function KeysOf(d: Dictionary): (ks: seq<string>)
    ensures |ks| == |d| && forall i :: 0 <= i < |d| ==> ks[i] == d[i].0
  {
    seq(|d|, i requires 0 <= i < |d| => d[i].0)
  }

  /** The translation table of one language. */
  function Translations(language: Language): Dictionary {
    match language
    case English => [
      ("nav.dashboard", "Dashboard"),
      ("nav.assessment", "Assessment"),
      ("nav.chat", "Chat"),
      ("nav.resources", "Resources"),
      ("nav.analytics", "Analytics"),
      ("common.loading", "Loading..."),
      ("common.submit", "Submit"),
      ("common.cancel", "Cancel"),
      ("common.save", "Save"),
      ("auth.login", "Login"),
      ("auth.email", "Email"),
      ("auth.password", "Password"),
      ("dashboard.welcome", "Welcome"),
      ("phq9.title", "PHQ-9 Depression Assessment"),
      ("phq9.instruction", "Over the last 2 weeks, how often have you been bothered by any of the following problems?"),
      ("auth.error.invalidCredentials", "Invalid email or password"),
      ("auth.error.generic", "An error occurred. Please try again.")]
    case Hindi => [
      ("nav.dashboard", "डैशबोर्ड"),
      ("nav.assessment", "मूल्यांकन"),
      ("nav.chat", "चैट"),
      ("nav.resources", "संसाधन"),
      ("nav.analytics", "एनालिटिक्स"),
      ("common.loading", "लोड हो रहा है..."),
      ("common.submit", "जमा करें"),
      ("common.cancel", "रद्द करें"),
      ("common.save", "सेव करें"),
      ("auth.login", "लॉगिन"),
      ("auth.email", "ईमेल"),
      ("auth.password", "पासवर्ड"),
      ("dashboard.welcome", "स्वागत है"),
      ("phq9.title", "PHQ-9 डिप्रेशन मूल्यांकन"),
      ("phq9.instruction", "पिछले 2 सप्ताह में, निम्नलिखित समस्याओं से आप कितनी बार परेशान हुए हैं?"),
      ("auth.error.invalidCredentials", "अमान्य ईमेल या पासवर्ड"),
      ("auth.error.generic", "एक त्रुटि हुई। कृपया पुन: प्रयास करें।")]
    case Tamil => [
      ("nav.dashboard", "டாஷ்போர்டு"),
      ("nav.assessment", "மதிப்பீடு"),
      ("nav.chat", "அரட்டை"),
      ("nav.resources", "வளங்கள்"),
      ("nav.analytics", "பகுப்பாய்வு"),
      ("common.loading", "ஏற்றுகிறது..."),
      ("common.submit", "சமர்ப்பிக்கவும்"),
      ("common.cancel", "ரத்து செய்"),
      ("common.save", "சேமிக்கவும்"),
      ("auth.login", "உள்நுழைய"),
      ("auth.email", "மின்னஞ்சல்"),
      ("auth.password", "கடவுச்சொல்"),
      ("dashboard.welcome", "வணக்கம்"),
      ("phq9.title", "PHQ-9 மனச்சோர்வு மதிப்பீடு"),
      ("phq9.instruction", "கடந்த 2 வாரங்களில், பின்வரும் பிரச்சினைகளால் நீங்கள் எவ்வளவு அடிக்கடி பாதிக்கப்பட்டீர்கள்?"),
      ("auth.error.invalidCredentials", "தவறான மின்னஞ்சல் அல்லது கடவுச்சொல்"),
      ("auth.error.generic", "ஒரு பிழை ஏற்பட்டது. மீண்டும் முயற்சிக்கவும்.")]
  }

  /** The key list the three tables share. */
  const TranslationKeys: seq<string> := [
    "nav.dashboard",
    "nav.assessment",
    "nav.chat",
    "nav.resources",
    "nav.analytics",
    "common.loading",
    "common.submit",
    "common.cancel",
    "common.save",
    "auth.login",
    "auth.email",
    "auth.password",
    "dashboard.welcome",
    "phq9.title",
    "phq9.instruction",
    "auth.error.invalidCredentials",
    "auth.error.generic"
  ]

  /** The English, Hindi and Tamil tables translate the same keys, in the same order. */
  lemma TablesShareKeys(language: Language)
    ensures KeysOf(Translations(language)) == TranslationKeys
  {
    match language
    case English => EnglishKeys();
    case Hindi => HindiKeys();
    case Tamil => TamilKeys();
  }

  lemma EnglishKeys() ensures KeysOf(Translations(English)) == TranslationKeys {}
  lemma HindiKeys() ensures KeysOf(Translations(Hindi)) == TranslationKeys {}
  lemma TamilKeys() ensures KeysOf(Translations(Tamil)) == TranslationKeys {}

  /**
    * The properties every plain object inherits from Object.prototype
    * (section 20.1.3 of ECMA-262, and Annex B.2.2 for the accessor helpers
    * and `__proto__`). A key naming one of them that the table does not
    * define itself still finds a value: a function, or for `__proto__` the
    * prototype object. Each of them is truthy.
    */
  const ObjectPrototypeNames: seq<string> := [
    "constructor",
    "hasOwnProperty",
    "isPrototypeOf",
    "propertyIsEnumerable",
    "toLocaleString",
    "toString",
    "valueOf",
    "__defineGetter__",
    "__defineSetter__",
    "__lookupGetter__",
    "__lookupSetter__",
    "__proto__"
  ]

  /** What `table[key]` finds: an entry of the table, an inherited member, or nothing (undefined). */
  datatype Property = Own(text: string) | Inherited(name: string) | Absent

  /** What `t` returns: a string, or the inherited member that the `||` chain passes through as truthy. */
  datatype Shown = Text(text: string) | PrototypeMember(name: string)

  /**
    * `table[key]` on a plain object: the text of the first entry with that
    * key, else the Object.prototype member of that name, else undefined.
    */
  function Lookup(table: Dictionary, key: string): (r: Property)
    ensures r.Own? <==> key in KeysOf(table)
    ensures r.Own? ==> exists i :: 0 <= i < |table| && table[i] == (key, r.text)
    ensures r.Inherited? <==> key !in KeysOf(table) && key in ObjectPrototypeNames
    ensures r.Inherited? ==> r.name == key
    ensures r.Absent? <==> key !in KeysOf(table) && key !in ObjectPrototypeNames
  {
    if table == [] then
      if key in ObjectPrototypeNames then Inherited(key) else Absent
    else if table[0].0 == key then Own(table[0].1)
    else
      var r := Lookup(table[1..], key);
      assert KeysOf(table) == [table[0].0] + KeysOf(table[1..]);
      assert r.Own? ==> exists i :: 0 <= i < |table[1..]| && table[1..][i] == (key, r.text);
      r
  }

  /**
    * `t(key, fallback)` over a table: the table's text when it is present and
    * non-empty; an inherited member, which is truthy, as it is; else the
    * fallback when it is given and non-empty, else the key.
    */
  function Translate(table: Dictionary, key: string, fallback: Option<string>): (r: Shown)
    ensures Lookup(table, key).Own? && Lookup(table, key).text != "" ==> r == Text(Lookup(table, key).text)
    ensures Lookup(table, key).Inherited? ==> r == PrototypeMember(key)
    ensures Lookup(table, key).Absent? || Lookup(table, key) == Own("") ==>
              r == Text(if fallback.Some? && fallback.value != "" then fallback.value else key)
    ensures r.Text? <==> key in KeysOf(table) || key !in ObjectPrototypeNames
    ensures key != "" && r.Text? ==> r.text != ""
  {
    var entry := Lookup(table, key);
    if entry.Own? && entry.text != "" then Text(entry.text)
    else if entry.Inherited? then PrototypeMember(key)
    else if fallback.Some? && fallback.value != "" then Text(fallback.value)
    else Text(key)
  }

  /**
    * The text `t` gives for a dotted key, as every key the menus translate is:
    * no Object.prototype member has a dot in its name, so the result is text.
    */
  function TextOf(table: Dictionary, key: string, fallback: Option<string>): (r: string)
    requires '.' in key
    ensures Translate(table, key, fallback) == Text(r) && r != ""
  {
    PrototypeNamesUndotted();
    Translate(table, key, fallback).text
  }

  /**
    * `t` as the provider exposes it: a lookup in the active language's table.
    * A key of no table gives the fallback or the key, unless it names an
    * Object.prototype member, which is returned instead.
    */
  function T(language: Language, key: string, fallback: Option<string>): (r: Shown)
    ensures key !in TranslationKeys && key !in ObjectPrototypeNames ==>
              r == Text(if fallback.Some? && fallback.value != "" then fallback.value else key)
    ensures key in ObjectPrototypeNames ==> r == PrototypeMember(key)
    ensures r.Text? <==> key !in ObjectPrototypeNames
    ensures key != "" && r.Text? ==> r.text != ""
  {
    TablesShareKeys(language);
    PrototypeNamesUntranslated();
    Translate(Translations(language), key, fallback)
  }

  /** No translation key names an Object.prototype member. */
  lemma PrototypeNamesUntranslated()
    ensures forall key :: key in ObjectPrototypeNames ==> key !in TranslationKeys
  {
    assert forall i :: 0 <= i < |TranslationKeys| ==> TranslationKeys[i] !in ObjectPrototypeNames;
  }

  lemma PrototypeNamesUndotted()
    ensures forall name :: name in ObjectPrototypeNames ==> '.' !in name
  {
  }

  /**
    * In every language, `t('toString')` and `t('constructor', 'Build')` hand
    * back the inherited functions, and `t('__proto__', 'Proto')` the
    * prototype object, not the fallback or the key.
    */
  lemma InheritedKeysPassThrough(language: Language)
    ensures T(language, "toString", None) == PrototypeMember("toString")
    ensures T(language, "constructor", Some("Build")) == PrototypeMember("constructor")
    ensures T(language, "__proto__", Some("Proto")) == PrototypeMember("__proto__")
  {
    InheritedToString(language);
    InheritedConstructor(language);
    InheritedProto(language);
  }

  lemma InheritedToString(language: Language)
    ensures T(language, "toString", None) == PrototypeMember("toString")
  {
    assert ObjectPrototypeNames[5] == "toString";
  }

  lemma InheritedConstructor(language: Language)
    ensures T(language, "constructor", Some("Build")) == PrototypeMember("constructor")
  {
    assert ObjectPrototypeNames[0] == "constructor";
  }

  lemma InheritedProto(language: Language)
    ensures T(language, "__proto__", Some("Proto")) == PrototypeMember("__proto__")
  {
    assert ObjectPrototypeNames[11] == "__proto__";
  }

  /** The value the provider hands to its consumers. */
  datatype ContextValue = ContextValue(language: Language)

  /** The provider's state when it is first rendered. */
  function InitialContext(): (c: ContextValue)
    ensures c.language == English
  {
    ContextValue(English)
  }

  /** `setLanguage` replaces the language wholesale. */
  function SetLanguage(c: ContextValue, language: Language): (c': ContextValue)
    ensures c'.language == language
  {
    c.(language := language)
  }

  datatype Result<T> = Ok(value: T) | Error(message: string)

  /** `useLanguage`: the provider's value, or an error when there is no provider above the caller. */
  function UseLanguage(context: Option<ContextValue>): (r: Result<ContextValue>)
    ensures context.None? <==> r == Error("useLanguage must be used within a LanguageProvider")
    ensures context.Some? ==> r == Ok(context.value)
  {
    match context
    case None => Error("useLanguage must be used within a LanguageProvider")
    case Some(c) => Ok(c)
  }
}
