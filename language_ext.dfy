/** The language setting: the conversions between the app's language and the
    stored preference, and the marking of the chosen language in the list the
    settings screen shows. */
module LanguageExt {
  import opened Seqs

  /** A language of the app. */
  datatype Language = English | Indonesia | Arabic

  /** A language as the preference store keeps it. */
  datatype LanguagePreference = English | Indonesia | Arabic

  /** A row of the language list. `title` stands for the row's other fields,
      which the selection leaves alone. */
  datatype LanguageItem = LanguageItem(title: string, language: Language, applied: bool)

  /** The preference that stores language `l`. */
  function ToLanguagePreference(l: Language): (r: LanguagePreference)
    ensures l == Language.English <==> r == LanguagePreference.English
    ensures l == Language.Indonesia <==> r == LanguagePreference.Indonesia
    ensures l == Language.Arabic <==> r == LanguagePreference.Arabic
  {
    match l
    case English => LanguagePreference.English
    case Indonesia => LanguagePreference.Indonesia
    case Arabic => LanguagePreference.Arabic
  }

  /** The language a stored preference names; the inverse of
      ToLanguagePreference. */
  function ToLanguage(p: LanguagePreference): (r: Language)
    ensures ToLanguagePreference(r) == p
  {
    match p
    case English => Language.English
    case Indonesia => Language.Indonesia
    case Arabic => Language.Arabic
  }

  /** Storing a language and reading it back gives the same language. */
  lemma LanguageRoundTrip(l: Language)
    ensures ToLanguage(ToLanguagePreference(l)) == l
  {
    match l
    case English =>
    case Indonesia =>
    case Arabic =>
  }

  /** Reading a preference and storing it again gives the same preference. */
  lemma PreferenceRoundTrip(p: LanguagePreference)
    ensures ToLanguagePreference(ToLanguage(p)) == p
  {
  }

  /** The conversions are a bijection: different languages are stored as
      different preferences, and every preference stores some language. */
  lemma ToLanguagePreferenceBijective(l1: Language, l2: Language, p: LanguagePreference)
    ensures ToLanguagePreference(l1) == ToLanguagePreference(l2) ==> l1 == l2
    ensures exists l :: ToLanguagePreference(l) == p
  {
    LanguageRoundTrip(l1);
    LanguageRoundTrip(l2);
    PreferenceRoundTrip(p);
    assert ToLanguagePreference(ToLanguage(p)) == p;
  }

  function Mark(item: LanguageItem, language: Language): LanguageItem {
    item.(applied := item.language == language)
  }

  /** The list with exactly the rows of `language` marked as applied; row
      order and every other field stay as they were. */
  function Select(items: seq<LanguageItem>, language: Language): (r: seq<LanguageItem>)
    ensures |r| == |items|
    ensures forall i :: 0 <= i < |r| ==> (r[i].applied <==> items[i].language == language)
    ensures forall i :: 0 <= i < |r| ==> r[i].title == items[i].title && r[i].language == items[i].language
  {
    Map(items, (item: LanguageItem) => Mark(item, language))
  }

  /** Selecting again overrides the earlier selection. */
  lemma {:induction false} SelectLastWins(items: seq<LanguageItem>, l1: Language, l2: Language)
    ensures Select(Select(items, l1), l2) == Select(items, l2)
  {
    var a := Select(Select(items, l1), l2);
    var b := Select(items, l2);
    forall i | 0 <= i < |a| ensures a[i] == b[i] {
      assert a[i].title == b[i].title && a[i].language == b[i].language && a[i].applied == b[i].applied;
    }
  }

  /** Selecting the same language twice is the same as selecting it once. */
  lemma SelectIdempotent(items: seq<LanguageItem>, language: Language)
    ensures Select(Select(items, language), language) == Select(items, language)
  {
    SelectLastWins(items, language, language);
  }

  function LanguageOf(item: LanguageItem): Language {
    item.language
  }

  /** In a list with one row per language, a selected language that has a
      row leaves exactly that row applied. */
  lemma SelectMarksOne(items: seq<LanguageItem>, language: Language, k: nat)
    requires Distinct(items, LanguageOf)
    requires k < |items| && items[k].language == language
    ensures Select(items, language)[k].applied
    ensures forall i :: 0 <= i < |items| && i != k ==> !Select(items, language)[i].applied
  {
    var r := Select(items, language);
    forall i | 0 <= i < |items| && i != k ensures !r[i].applied {
      if i < k {
        assert LanguageOf(items[i]) != LanguageOf(items[k]);
      } else {
        assert LanguageOf(items[k]) != LanguageOf(items[i]);
      }
    }
  }
}
