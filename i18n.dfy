/** Translation lookup (src/i18n/index.ts): the language trees loaded from
    the translation files, the current language with `en` as fallback, and
    `t`, which walks a dotted key through the tree of the current language,
    falls back to `en`, answers the key itself when nothing is found, and
    fills in `{param}` placeholders. The translation files are a parameter:
    what reading and parsing each one would give. */
module I18n {
  import opened Wrappers
  import Json
  import Text

  /** The languages `initialize` tries to load, in order. */
  const Languages: seq<string> := ["en", "ko", "zh", "es", "ja"]

  /** `fallbackLanguage`. */
  const Fallback := "en"

  /** `value[k]` when `value && typeof value === 'object' && k in value`:
      an own key of an object, or an index or `length` of an array;
      `None` when the test fails. */
  function Step(value: Json.Json, k: string): Option<Json.Json> {
    match value
    case JObj(fields) => if k in fields then Some(fields[k]) else None
    case JArr(items) =>
      if k == "length" then Some(Json.JNum(|items|))
      else
        var n := Text.ParseInt(k);
        if n.Some? && 0 <= n.value < |items| && Text.NatToString(n.value) == k then Some(items[n.value]) else None
    case _ => None
  }

  /** The value reached by following `keys` from `root`, or `None` when some
      step fails. */
  function Walk(root: Json.Json, keys: seq<string>): Option<Json.Json> {
    if keys == [] then Some(root)
    else
      match Walk(root, keys[..|keys| - 1])
      case None => None
      case Some(v) => Step(v, keys[|keys| - 1])
  }

  /** Following a key into an object and then the rest of the path is
      following the whole path. */
  lemma {:induction false} WalkFirst(root: Json.Json, k: string, rest: seq<string>)
    ensures Walk(root, [k] + rest) == (if Step(root, k).Some? then Walk(Step(root, k).value, rest) else None)
    decreases |rest|
  {
    if rest == [] {
      assert ([k] + rest)[..0] == [];
    } else {
      var init := rest[..|rest| - 1];
      WalkFirst(root, k, init);
      assert ([k] + rest)[..|rest|] == [k] + init;
    }
  }

  /** A path that reaches a non-object value cannot go further. */
  lemma {:induction false} WalkStops(root: Json.Json, keys: seq<string>, more: seq<string>)
    requires Walk(root, keys).Some? && !Walk(root, keys).value.JObj? && !Walk(root, keys).value.JArr?
    requires more != []
    ensures Walk(root, keys + more) == None
    decreases |more|
  {
    var init := more[..|more| - 1];
    assert (keys + more)[..|keys + more| - 1] == keys + init;
    if init == [] {
      assert keys + init == keys;
    } else {
      WalkStops(root, keys, init);
    }
  }

  /** `translations.get(lang)`, with its JavaScript truthiness. */
  function Loaded(translations: map<string, Json.Json>, lang: string): Option<Json.Json> {
    if lang in translations && translations[lang].Truthy() then Some(translations[lang]) else None
  }

  /** The string `t` finds for `key` before parameters are filled in, or
      `None` when it answers the key itself. The current tree is walked
      first (or the fallback tree when there is no current one); on a miss
      the fallback tree is walked from its root, unless the current
      language is the fallback itself. */
  function Resolve(translations: map<string, Json.Json>, current: string, key: string): Option<string> {
    var translation := Loaded(translations, current);
    var fallbackTranslation := Loaded(translations, Fallback);
    if translation.None? && fallbackTranslation.None? then None
    else
      var keys := Text.Split(key, ".");
      var root := if translation.Some? then translation.value else fallbackTranslation.value;
      var found :=
        match Walk(root, keys)
        case Some(v) => Some(v)
        case None => if fallbackTranslation.Some? && current != Fallback then Walk(fallbackTranslation.value, keys) else None;
      if found.Some? && found.value.JStr? then Some(found.value.s) else None
  }

  /** `value.replace(/\{param\}/g, String(paramValue))` for each parameter,
      in the order the parameters were given. */
  function ApplyParams(value: string, params: seq<(string, string)>): string {
    if params == [] then value
    else
      var (param, paramValue) := params[|params| - 1];
      Text.ReplaceAll(ApplyParams(value, params[..|params| - 1]), "{" + param + "}", paramValue)
  }

  /** `t(key, params)`. */
  function Translate(translations: map<string, Json.Json>, current: string, key: string,
                     params: seq<(string, string)>): string {
    match Resolve(translations, current, key)
    case None => key
    case Some(value) => ApplyParams(value, params)
  }

  /** Without any loaded tree, the key is the answer. */
  lemma NothingLoadedGivesKey(translations: map<string, Json.Json>, current: string, key: string,
                              params: seq<(string, string)>)
    requires Loaded(translations, current).None? && Loaded(translations, Fallback).None?
    ensures Translate(translations, current, key, params) == key
  {
  }

  /** A key found as a string in the current tree is answered from it,
      whatever the fallback holds. */
  lemma CurrentFirst(translations: map<string, Json.Json>, current: string, key: string, s: string)
    requires Loaded(translations, current).Some?
    requires Walk(Loaded(translations, current).value, Text.Split(key, ".")) == Some(Json.JStr(s))
    ensures Resolve(translations, current, key) == Some(s)
  {
  }

  /** A key missing from the current tree is looked up in the `en` tree. */
  lemma FallbackUsed(translations: map<string, Json.Json>, current: string, key: string)
    requires current != Fallback && Loaded(translations, Fallback).Some?
    requires Loaded(translations, current).None? || Walk(Loaded(translations, current).value, Text.Split(key, ".")).None?
    ensures var found := Walk(Loaded(translations, Fallback).value, Text.Split(key, "."));
      Resolve(translations, current, key) == if found.Some? && found.value.JStr? then Some(found.value.s) else None
  {
  }

  /** The key is the answer when the path is missing from both trees, or
      when what it reaches is not a string. */
  lemma MissGivesKey(translations: map<string, Json.Json>, current: string, key: string,
                     params: seq<(string, string)>)
    requires var keys := Text.Split(key, ".");
      var translation := Loaded(translations, current);
      var fallbackTranslation := Loaded(translations, Fallback);
      (translation.None? || Walk(translation.value, keys).None? || !Walk(translation.value, keys).value.JStr?)
      && (fallbackTranslation.None? || Walk(fallbackTranslation.value, keys).None?
          || !Walk(fallbackTranslation.value, keys).value.JStr?)
    ensures Translate(translations, current, key, params) == key
  {
  }

  /** Text without any of the placeholders comes back unchanged. */
  lemma {:induction false} NoPlaceholders(value: string, params: seq<(string, string)>)
    requires forall i :: 0 <= i < |params| ==> !Text.Contains(value, "{" + params[i].0 + "}")
    ensures ApplyParams(value, params) == value
  {
    if params != [] {
      NoPlaceholders(value, params[..|params| - 1]);
    }
  }

  /** One parameter cuts the text at every `{param}` and puts its value in
      each cut, keeping the text between them. */
  lemma OneParam(value: string, param: string, paramValue: string)
    ensures var placeholder := "{" + param + "}";
      Text.Join(Text.Split(value, placeholder), placeholder) == value
      && ApplyParams(value, [(param, paramValue)]) == Text.Join(Text.Split(value, placeholder), paramValue)
  {
    var placeholder := "{" + param + "}";
    Text.JoinSplit(value, placeholder);
    Text.ReplaceAllIsSplitJoin(value, placeholder, paramValue);
    assert [(param, paramValue)][..0] == [];
  }

  /** `translationPath` holds what reading and parsing it gave: a tree, or
      a missing or unparseable file, which `initialize` skips. */
  function LoadedFiles(files: map<string, Json.File<Json.Json>>, langs: seq<string>): map<string, Json.Json> {
    if langs == [] then map[]
    else
      var lang := langs[|langs| - 1];
      var earlier := LoadedFiles(files, langs[..|langs| - 1]);
      if lang in files && files[lang].Stored? then earlier[lang := files[lang].value] else earlier
  }

  /** Exactly the languages whose file parsed are loaded, each with its
      tree. */
  lemma {:induction false} LoadedFilesRule(files: map<string, Json.File<Json.Json>>, langs: seq<string>)
    ensures forall lang :: lang in LoadedFiles(files, langs) <==> lang in langs && lang in files && files[lang].Stored?
    ensures forall lang :: lang in LoadedFiles(files, langs) ==> LoadedFiles(files, langs)[lang] == files[lang].value
  {
    if langs != [] {
      LoadedFilesRule(files, langs[..|langs| - 1]);
      forall lang | lang in langs
        ensures lang in langs[..|langs| - 1] || lang == langs[|langs| - 1]
      {
        var i :| 0 <= i < |langs| && langs[i] == lang;
        if i < |langs| - 1 {
          assert langs[..|langs| - 1][i] == lang;
        }
      }
    }
  }

  /** `I18nManager`. */
  class I18nManager {
    var currentLanguage: string
    var translations: map<string, Json.Json>

    /** The current language is the fallback or a loaded one. */
    predicate Valid()
      reads this
    {
      currentLanguage == Fallback || currentLanguage in translations
    }

    constructor ()
      ensures currentLanguage == Fallback && translations == map[]
      ensures Valid()
    {
      currentLanguage := Fallback;
      translations := map[];
    }

    /** `initialize(language)`: loads every language whose file parses,
      then switches to `language` only when it was loaded. */
    method Initialize(language: Option<string>, files: map<string, Json.File<Json.Json>>)
      modifies this
      ensures translations == old(translations) + LoadedFiles(files, Languages)
      ensures currentLanguage ==
        if language.Some? && language.value != "" && language.value in translations then language.value
        else old(currentLanguage)
      ensures old(Valid()) ==> Valid()
    {
      for i := 0 to |Languages|
        invariant translations == old(translations) + LoadedFiles(files, Languages[..i])
        invariant currentLanguage == old(currentLanguage)
      {
        var lang := Languages[i];
        assert Languages[..i + 1][..i] == Languages[..i];
        if lang in files && files[lang].Stored? {
          translations := translations[lang := files[lang].value];
        }
      }
      assert Languages[..|Languages|] == Languages;
      if language.Some? && language.value != "" && language.value in translations {
        currentLanguage := language.value;
      }
    }

    /** `setLanguage(language)`: the language if it is loaded, else the
        fallback. */
    method SetLanguage(language: string)
      modifies this
      ensures currentLanguage == if language in translations then language else Fallback
      ensures translations == old(translations)
      ensures Valid()
    {
      if language in translations {
        currentLanguage := language;
      } else {
        currentLanguage := Fallback;
      }
    }

    /** `getCurrentLanguage()`: always the fallback or a loaded language. */
    function GetCurrentLanguage(): (lang: string)
      requires Valid()
      reads this
      ensures lang == Fallback || lang in translations
    {
      currentLanguage
    }

    /** `t(key, params)`. */
    method T(key: string, params: seq<(string, string)>) returns (text: string)
      ensures text == Translate(translations, currentLanguage, key, params)
    {
      var translation := Loaded(translations, currentLanguage);
      var fallbackTranslation := Loaded(translations, Fallback);
      if translation.None? && fallbackTranslation.None? {
        return key;
      }
      var keys := Text.Split(key, ".");
      var value := if translation.Some? then translation.value else fallbackTranslation.value;
      var found := WalkKeys(value, keys);
      if found.None? {
        if fallbackTranslation.Some? && currentLanguage != Fallback {
          found := WalkKeys(fallbackTranslation.value, keys);
          if found.None? {
            return key;
          }
        } else {
          return key;
        }
      }
      if !found.value.JStr? {
        return key;
      }
      text := found.value.s;
      ghost var s := text;
      for i := 0 to |params|
        invariant text == ApplyParams(s, params[..i])
      {
        var (param, paramValue) := params[i];
        assert params[..i + 1][..i] == params[..i];
        text := Text.ReplaceAll(text, "{" + param + "}", paramValue);
      }
      assert params[..|params|] == params;
    }
  }

  /** The key loop of `t`: follow the keys one by one, stopping at the
      first that the current value does not have. */
  method WalkKeys(root: Json.Json, keys: seq<string>) returns (value: Option<Json.Json>)
    ensures value == Walk(root, keys)
  {
    var v := root;
    for i := 0 to |keys|
      invariant Walk(root, keys[..i]) == Some(v)
    {
      assert keys[..i + 1][..i] == keys[..i];
      var next := Step(v, keys[i]);
      if next.None? {
        WalkMissStays(root, keys, i + 1);
        return None;
      }
      v := next.value;
    }
    assert keys[..|keys|] == keys;
    return Some(v);
  }

  /** Once a prefix of the path misses, the whole path misses. */
  lemma {:induction false} WalkMissStays(root: Json.Json, keys: seq<string>, n: nat)
    requires n <= |keys| && Walk(root, keys[..n]) == None
    ensures Walk(root, keys) == None
    decreases |keys| - n
  {
    if n < |keys| {
      assert keys[..n + 1][..n] == keys[..n];
      WalkMissStays(root, keys, n + 1);
    } else {
      assert keys[..n] == keys;
    }
  }
}
