/**
 * common/i18n/index.js: the translation manager. The Chinese and English packs are given when the
 * manager is built; the persisted language setting is a field standing for the app's storage.
 */
module I18n {
  import opened Options
  import opened JsString

  type Pack = map<string, string>

  /** One round of `t`'s argument loop: the first `%d`, then the first `%@`, become the argument. */
  function Step(text: string, arg: string): string {
    ReplaceFirst(ReplaceFirst(text, "%d", arg), "%@", arg)
  }

  /** `text` after the argument loop has run over `args` in order. */
  function Substitute(text: string, args: seq<string>): string
    decreases |args|
  {
    if args == [] then text else Step(Substitute(text, args[..|args| - 1]), args[|args| - 1])
  }

  /** What `t(key, ...args)` answers with a given pack: the key itself when the entry is missing or empty. */
  function Translate(pack: Pack, key: string, args: seq<string>): (r: string)
    ensures key !in pack || pack[key] == "" ==> r == key
    ensures key in pack && pack[key] != "" && args == [] ==> r == pack[key]
  {
    if key !in pack || pack[key] == "" then key else Substitute(pack[key], args)
  }

  /** The arguments are consumed first to last: the first one is substituted before the others. */
  lemma {:induction false} SubstituteFirst(text: string, arg: string, rest: seq<string>)
    ensures Substitute(text, [arg] + rest) == Substitute(Step(text, arg), rest)
    decreases |rest|
  {
    var all := [arg] + rest;
    if rest != [] {
      var init := rest[..|rest| - 1];
      var last := rest[|rest| - 1];
      assert all[..|all| - 1] == [arg] + init;
      assert all[|all| - 1] == last;
      SubstituteFirst(text, arg, init);
      calc {
        Substitute(text, all);
        Step(Substitute(text, [arg] + init), last);
        Step(Substitute(Step(text, arg), init), last);
        Substitute(Step(text, arg), rest);
      }
    } else {
      assert all[..0] == [];
      assert Substitute(text, all) == Step(Substitute(text, []), arg);
    }
  }

  /** A text without placeholders comes back unchanged, whatever the arguments. */
  lemma {:induction false} SubstituteNoPlaceholder(text: string, args: seq<string>)
    requires IndexOf(text, "%d").None? && IndexOf(text, "%@").None?
    ensures Substitute(text, args) == text
    decreases |args|
  {
    if args != [] {
      SubstituteNoPlaceholder(text, args[..|args| - 1]);
    }
  }

  /** A text without `%` holds no placeholder. */
  lemma NoPercentNoPlaceholder(text: string, placeholder: string)
    requires '%' !in text && |placeholder| > 0 && placeholder[0] == '%'
    ensures IndexOf(text, placeholder).None?
  {
  }

  /** In `before + "%d" + after` with no `%` in `before`, the first `%d` is right after `before`. */
  lemma FirstPlaceholderAt(before: string, after: string)
    requires '%' !in before
    ensures IndexOf(before + "%d" + after, "%d") == Some(|before|)
  {
    var text := before + "%d" + after;
    assert text[|before|..|before| + 2] == "%d";
    assert OccursAt(text, "%d", |before|);
    forall j | 0 <= j < |before| ensures !OccursAt(text, "%d", j) {
      assert text[j] == before[j];
    }
  }

  /**
   * One argument and one `%d`: the argument, if it holds no `$` or `%`, takes the place of the
   * `%d` and everything around it is kept.
   */
  lemma SubstituteOnePlaceholder(before: string, after: string, arg: string)
    requires '$' !in arg && '%' !in arg && '%' !in before && '%' !in after
    ensures Substitute(before + "%d" + after, [arg]) == before + arg + after
  {
    var text := before + "%d" + after;
    FirstPlaceholderAt(before, after);
    ReplaceFirstSpec(text, "%d", arg);
    assert text[..|before|] == before && text[|before| + 2..] == after;
    var once := before + arg + after;
    assert ReplaceFirst(text, "%d", arg) == once;
    NoPercentNoPlaceholder(once, "%@");
    assert ReplaceFirst(once, "%@", arg) == once;
    assert Substitute(text, [arg]) == Step(Substitute(text, []), arg);
  }

  /** The manager: the two packs, the current language, and the saved language setting. */
  class Manager {
    const zh: Pack
    const en: Pack
    var currentLanguage: string
    var savedLanguage: Option<string>

    /** The current language always has a pack. */
    ghost predicate Valid()
      reads this
    {
      currentLanguage in {"zh", "en"}
    }

    constructor (zh: Pack, en: Pack, saved: Option<string>)
      ensures Valid() && currentLanguage == "zh"
      ensures this.zh == zh && this.en == en && savedLanguage == saved
    {
      this.zh := zh;
      this.en := en;
      currentLanguage := "zh";
      savedLanguage := saved;
    }

    /** `languagePacks[lang]`: None for a language without a pack. */
    function PackOf(lang: string): (r: Option<Pack>)
      reads this
      ensures r.Some? <==> lang in {"zh", "en"}
      ensures lang == "zh" ==> r == Some(zh)
      ensures lang == "en" ==> r == Some(en)
    {
      if lang == "zh" then Some(zh) else if lang == "en" then Some(en) else None
    }

    /** `setLanguage(lang)`: switches and saves only a language that has a pack. */
    method SetLanguage(lang: string) returns (ok: bool)
      modifies this
      ensures ok <==> lang in {"zh", "en"}
      ensures ok ==> currentLanguage == lang && savedLanguage == Some(lang)
      ensures !ok ==> currentLanguage == old(currentLanguage) && savedLanguage == old(savedLanguage)
      ensures old(Valid()) ==> Valid()
    {
      if PackOf(lang).Some? {
        currentLanguage := lang;
        savedLanguage := Some(lang);
        return true;
      }
      return false;
    }

    /** `t(key, ...args)`: looks the key up in the current pack and substitutes the arguments. */
    method T(key: string, args: seq<string>) returns (text: string)
      ensures PackOf(currentLanguage).None? ==> text == key
      ensures PackOf(currentLanguage).Some? ==> text == Translate(PackOf(currentLanguage).value, key, args)
    {
      var pack := PackOf(currentLanguage);
      if pack.None? {
        return key;
      }
      if key !in pack.value || pack.value[key] == "" {
        return key;
      }
      text := pack.value[key];
      var i := 0;
      while i < |args|
        invariant 0 <= i <= |args|
        invariant text == Substitute(pack.value[key], args[..i])
      {
        assert args[..i + 1][..i] == args[..i];
        text := ReplaceFirst(text, "%d", args[i]);
        text := ReplaceFirst(text, "%@", args[i]);
        i := i + 1;
      }
      assert args[..|args|] == args;
    }

    /** `getAvailableLanguages()`: the languages that have a pack, in their declaration order (`zh`, then `en`). */
    function GetAvailableLanguages(): (r: seq<string>)
      ensures forall lang :: lang in r <==> PackOf(lang).Some?
      ensures |r| == 2 && r[0] == "zh"
    {
      ["zh", "en"]
    }

    /** `getLanguagePack(lang)`: the language's messages, or an empty object for an unknown language. */
    function GetLanguagePack(lang: string): (r: Pack)
      reads this
      ensures PackOf(lang).Some? ==> r == PackOf(lang).value
      ensures PackOf(lang).None? ==> r == map[]
    {
      match PackOf(lang)
      case Some(p) => p
      case None => map[]
    }

    /** `init()`: adopts the saved language if it has a pack; otherwise Chinese, which is then saved. */
    method Init()
      modifies this
      ensures Valid()
      ensures old(savedLanguage).Some? && PackOf(old(savedLanguage).value).Some? ==>
        currentLanguage == old(savedLanguage).value && savedLanguage == old(savedLanguage)
      ensures !(old(savedLanguage).Some? && PackOf(old(savedLanguage).value).Some?) ==>
        currentLanguage == "zh" && savedLanguage == Some("zh")
    {
      if savedLanguage.Some? && savedLanguage.value != "" && PackOf(savedLanguage.value).Some? {
        currentLanguage := savedLanguage.value;
      } else {
        currentLanguage := "zh";
        savedLanguage := Some("zh");
      }
    }
  }
}
