/** The translation service of services/i18n.ts: a current language, a list of
    listeners, language detection with a French fallback, persistence of the
    choice, and key lookup with `{{name}}` placeholder substitution. */
module I18n {
  import opened Wrappers
  import opened Text
  import opened Listeners

  /** Storage key under which the chosen language is persisted. */
  const LanguageKey := "user_language"

  const SupportedLanguages: seq<string> := ["en", "fr", "es", "de", "it", "pt"]

  /** The language used when nothing better is known. */
  const FallbackLanguage := "fr"

  /** `isValidLanguage`: membership in the list of supported codes. */
  predicate IsValidLanguage(lang: string) {
    lang in SupportedLanguages
  }

  lemma ValidLanguagesAreTheSix(lang: string)
    ensures IsValidLanguage(lang) <==>
      lang == "en" || lang == "fr" || lang == "es" || lang == "de" || lang == "it" || lang == "pt"
  {
  }

  // ---------------------------------------------------------------------------
  // System language

  /** What the platform reports: the browser's `navigator.language`, or the
      device locales' language codes, first one first. */
  datatype SystemLocale = Web(navigatorLanguage: string) | Native(languageCodes: seq<Option<string>>)

  /** The code read from the platform before validation. */
  function SystemCandidate(sys: SystemLocale): string {
    match sys
    case Web(nav) => PrefixBefore(nav, '-')
    case Native(codes) => if |codes| > 0 then codes[0].GetOr(FallbackLanguage) else FallbackLanguage
  }

  /** `getSystemLanguage`: the platform's language if it is supported, else French. */
  function SystemLanguage(sys: SystemLocale): (lang: string)
    ensures IsValidLanguage(lang)
    ensures IsValidLanguage(SystemCandidate(sys)) ==> lang == SystemCandidate(sys)
    ensures !IsValidLanguage(SystemCandidate(sys)) ==> lang == FallbackLanguage
  {
    var candidate := SystemCandidate(sys);
    if IsValidLanguage(candidate) then candidate else FallbackLanguage
  }

  /** A browser reporting a regional variant gets its base language. */
  lemma WebRegionalVariant(base: string, region: string)
    requires IsValidLanguage(base)
    ensures SystemLanguage(Web(base + "-" + region)) == base
  {
    assert '-' !in base;
    PrefixBeforeRoundTrip(base, '-', region);
  }

  // ---------------------------------------------------------------------------
  // Lookup

  /** The tables registered in locales/index.ts: English and French only. Their
      entries are not part of this model. */
  datatype Catalog = Catalog(en: map<string, string>, fr: map<string, string>)

  /** `translations[lang]?.[key]`: absent when the language has no table or the
      table has no such key. */
  function Lookup(c: Catalog, lang: string, key: string): Option<string> {
    var table := if lang == "en" then Some(c.en) else if lang == "fr" then Some(c.fr) else None;
    if table.Some? && key in table.value then Some(table.value[key]) else None
  }

  /** A value JavaScript's `||` keeps: present and not the empty string. */
  predicate Truthy(o: Option<string>) {
    o.Some? && o.value != ""
  }

  /** `translations[lang]?.[key] || translations.en[key] || key` */
  function Resolve(c: Catalog, lang: string, key: string): (text: string)
    ensures text != "" || key == ""
    ensures text == key || text == Lookup(c, lang, key).GetOr("") || text == Lookup(c, "en", key).GetOr("")
  {
    var own := Lookup(c, lang, key);
    var english := Lookup(c, "en", key);
    if Truthy(own) then own.value else if Truthy(english) then english.value else key
  }

  /** The three levels, in order of precedence. */
  lemma ResolvePrecedence(c: Catalog, lang: string, key: string)
    ensures Truthy(Lookup(c, lang, key)) ==> Resolve(c, lang, key) == Lookup(c, lang, key).value
    ensures !Truthy(Lookup(c, lang, key)) && Truthy(Lookup(c, "en", key)) ==>
      Resolve(c, lang, key) == Lookup(c, "en", key).value
    ensures !Truthy(Lookup(c, lang, key)) && !Truthy(Lookup(c, "en", key)) ==> Resolve(c, lang, key) == key
  {
  }

  /** Spanish, German, Italian and Portuguese have no table, so they always
      resolve as English does. */
  lemma UntabledLanguagesUseEnglish(c: Catalog, lang: string, key: string)
    requires lang != "en" && lang != "fr"
    ensures Lookup(c, lang, key) == None
    ensures Resolve(c, lang, key) == Resolve(c, "en", key)
  {
  }

  // ---------------------------------------------------------------------------
  // Placeholders

  /** A parameter value: `String(value)` of a string or of an integer. */
  datatype ParamValue = Str(s: string) | Num(n: int)

  function Stringify(v: ParamValue): string {
    match v
    case Str(s) => s
    case Num(n) => IntToString(n)
  }

  /** The text `{{name}}` that a parameter named `name` replaces. */
  function Placeholder(name: string): (p: string)
    ensures |p| >= 4 && p[..2] == "{{"
  {
    "{{" + name + "}}"
  }

  /** The `reduce` over `Object.entries(params)`: one parameter at a time, in
      entry order, every occurrence of its placeholder replaced. */
  function ApplyParams(text: string, params: seq<(string, ParamValue)>): string
    decreases |params|
  {
    if params == [] then text
    else ApplyParams(ReplaceAll(text, Placeholder(params[0].0), Stringify(params[0].1)), params[1..])
  }

  /** `translate(key, params)` in the current language `lang`. */
  function Translate(c: Catalog, lang: string, key: string, params: Option<seq<(string, ParamValue)>>): string {
    var text := Resolve(c, lang, key);
    if params.Some? then ApplyParams(text, params.value) else text
  }

  /** Without parameters, or with none in the record, the looked-up text comes back unchanged. */
  lemma TranslateWithoutParams(c: Catalog, lang: string, key: string)
    ensures Translate(c, lang, key, None) == Resolve(c, lang, key)
    ensures Translate(c, lang, key, Some([])) == Resolve(c, lang, key)
  {
  }

  /** One parameter: the text split at its placeholder and joined with its value. */
  lemma OneParam(text: string, name: string, v: ParamValue)
    ensures ApplyParams(text, [(name, v)]) == Join(Split(text, Placeholder(name)), Stringify(v))
  {
    ReplaceAllIsSplitJoin(text, Placeholder(name), Stringify(v));
  }

  /** Substitution is sequential: the later parameters see the text the earlier
      ones produced. */
  lemma {:induction false} ParamsInSequence(text: string, ps: seq<(string, ParamValue)>, qs: seq<(string, ParamValue)>)
    ensures ApplyParams(text, ps + qs) == ApplyParams(ApplyParams(text, ps), qs)
    decreases |ps|
  {
    if ps == [] {
      assert ps + qs == qs;
    } else {
      assert (ps + qs)[0] == ps[0] && (ps + qs)[1..] == ps[1..] + qs;
      ParamsInSequence(ReplaceAll(text, Placeholder(ps[0].0), Stringify(ps[0].1)), ps[1..], qs);
    }
  }

  /** A text without any `{{` is returned unchanged whatever the parameters. */
  lemma {:induction false} NoMarkerNoChange(text: string, ps: seq<(string, ParamValue)>)
    requires !Occurs("{{", text)
    ensures ApplyParams(text, ps) == text
    decreases |ps|
  {
    if ps != [] {
      var p := Placeholder(ps[0].0);
      if Occurs(p, text) {
        assert p == "{{" + (ps[0].0 + "}}");
        OccursPrefix("{{", ps[0].0 + "}}", text);
      }
      ReplaceAllAbsent(text, p, Stringify(ps[0].1));
      NoMarkerNoChange(text, ps[1..]);
    }
  }

  // ---------------------------------------------------------------------------
  // The service object

  class I18nService {
    var currentLanguage: string
    var listeners: seq<ListenerId>
    /** The value persisted under `LanguageKey` (secure store or local storage). */
    var stored: Option<string>
    /** Every callback call made so far, with the language it was given. */
    var notifications: seq<(ListenerId, string)>

    constructor (persisted: Option<string>)
      ensures currentLanguage == FallbackLanguage && listeners == [] && notifications == []
      ensures stored == persisted
    {
      currentLanguage := FallbackLanguage;
      listeners := [];
      stored := persisted;
      notifications := [];
    }

    function GetCurrentLanguage(): string
      reads this
    {
      currentLanguage
    }

    /** `translate` on the service: the lookup in the current language. */
    function TranslateKey(c: Catalog, key: string, params: Option<seq<(string, ParamValue)>>): string
      reads this
    {
      Translate(c, currentLanguage, key, params)
    }

    method AddListener(cb: ListenerId)
      modifies this`listeners
      ensures listeners == old(listeners) + [cb]
    {
      listeners := listeners + [cb];
    }

    /** The function `addListener` returns. */
    method Unsubscribe(cb: ListenerId)
      modifies this`listeners
      ensures listeners == Without(old(listeners), cb)
    {
      listeners := Without(listeners, cb);
    }

    /** Calls each listener in order; a callback in `throwing` raises, which ends
        the iteration and reaches the caller (`raised`). */
    method NotifyListeners(language: string, throwing: set<ListenerId>) returns (raised: bool)
      modifies this`notifications
      ensures raised <==> Raises(listeners, throwing)
      ensures notifications == old(notifications) + Deliveries(listeners[..Reached(listeners, throwing)], language)
    {
      raised := false;
      var i := 0;
      while i < |listeners| && !raised
        invariant 0 <= i <= |listeners|
        invariant notifications == old(notifications) + Deliveries(listeners[..i], language)
        invariant forall j :: 0 <= j < i - 1 ==> listeners[j] !in throwing
        invariant i > 0 ==> (raised <==> listeners[i - 1] in throwing)
        invariant i == 0 ==> !raised
      {
        assert Deliveries(listeners[..i + 1], language) == Deliveries(listeners[..i], language) + [(listeners[i], language)];
        notifications := notifications + [(listeners[i], language)];
        raised := listeners[i] in throwing;
        i := i + 1;
      }
      if raised {
        ReachedFirstThrower(listeners, throwing, i - 1);
      } else {
        assert i == |listeners|;
        assert listeners[..i] == listeners;
        ReachedAll(listeners, throwing);
      }
    }

    /** `setLanguage`: the new language is current even when persisting fails
        (`writeFails`); then every listener is told. */
    method SetLanguage(language: string, writeFails: bool, throwing: set<ListenerId>) returns (raised: bool)
      modifies this`currentLanguage, this`stored, this`notifications
      ensures currentLanguage == language
      ensures stored == if writeFails then old(stored) else Some(language)
      ensures raised <==> Raises(listeners, throwing)
      ensures notifications == old(notifications) + Deliveries(listeners[..Reached(listeners, throwing)], language)
    {
      currentLanguage := language;
      if !writeFails {
        stored := Some(language);
      }
      raised := NotifyListeners(language, throwing);
    }

    /** `initialize`: a stored non-empty language wins (it is not validated);
        otherwise the system language is adopted and persisted; a listener that
        throws during that lands in the `catch`, which selects French. A failing
        read (`readFails`) counts as nothing stored. */
    method Initialize(readFails: bool, system: SystemLocale, writeFails: bool, throwing: set<ListenerId>)
      returns (lang: string)
      modifies this`currentLanguage, this`stored, this`notifications
      ensures lang == currentLanguage
      ensures IsValidLanguage(lang) || (!readFails && Truthy(old(stored)) && lang == old(stored).value)
      ensures var saved := if readFails then None else old(stored);
        if Truthy(saved) then
          lang == saved.value && stored == old(stored) && notifications == old(notifications)
        else
          && lang == (if Raises(listeners, throwing) then FallbackLanguage else SystemLanguage(system))
          && stored == (if writeFails then old(stored) else Some(SystemLanguage(system)))
          && notifications == old(notifications) + Deliveries(listeners[..Reached(listeners, throwing)], SystemLanguage(system))
    {
      var saved := if readFails then None else stored;
      if Truthy(saved) {
        currentLanguage := saved.value;
      } else {
        var systemLanguage := SystemLanguage(system);
        currentLanguage := systemLanguage;
        var raised := SetLanguage(systemLanguage, writeFails, throwing);
        if raised {
          currentLanguage := FallbackLanguage;
        }
      }
      lang := currentLanguage;
    }
  }

  /** When no listener throws, `setLanguage` tells every listener exactly once, in
      registration order. */
  lemma SetLanguageReachesEveryone(ls: seq<ListenerId>, throwing: set<ListenerId>, lang: string)
    requires !Raises(ls, throwing)
    ensures Deliveries(ls[..Reached(ls, throwing)], lang) == Deliveries(ls, lang)
  {
    ReachedAll(ls, throwing);
    assert ls[..|ls|] == ls;
  }
}
