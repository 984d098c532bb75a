/**
 * `get_city_code` (ProcessingSHP.py:302-345): the cascade of lookups that
 * turns a file stem into an administrative code. The table is a parameter
 * `d`, so the cascade is stated for every dict; the lemmas at the end apply
 * it to `CityCodeMapping`.
 */
module CityResolver {

  import opened Wrappers
  import opened PyText
  import opened PyDict
  import opened CityCodes

  /** The Chinese suffixes tried, in order. */
  const CjkSuffixes: seq<string> := ["市", "区", "州", "县"]

  /** The romanised suffixes tried, in order, on the lower-cased name. */
  const LatinSuffixes: seq<string> := ["shi", "city", "qu", "district"]

  /** `name` ends with `suffix` and the title-cased rest is a key. */
  predicate SuffixHit(d: Dict<string, string>, name: string, suffix: string)
  {
    EndsWith(name, suffix) && Has(d, Title(name[..|name| - |suffix|]))
  }

  /**
   * One suffix loop from position `i` of the list on: for each suffix in turn,
   * if `name` ends with it, look the title-cased remainder up; the first hit
   * returns.
   */
  function SuffixLookupFrom(d: Dict<string, string>, name: string, suffixes: seq<string>, i: nat): (r: Option<string>)
    requires i <= |suffixes|
    ensures r.None? <==> forall j :: i <= j < |suffixes| ==> !SuffixHit(d, name, suffixes[j])
    ensures r.Some? ==>
      exists j :: i <= j < |suffixes| && SuffixHit(d, name, suffixes[j])
        && r.value == Get(d, Title(name[..|name| - |suffixes[j]|]))
        && forall m :: i <= m < j ==> !SuffixHit(d, name, suffixes[m])
    decreases |suffixes| - i
  {
    if i == |suffixes| then None
    else if SuffixHit(d, name, suffixes[i]) then Some(Get(d, Title(name[..|name| - |suffixes[i]|])))
    else SuffixLookupFrom(d, name, suffixes, i + 1)
  }

  /** The whole suffix loop. */
  function SuffixLookup(d: Dict<string, string>, name: string, suffixes: seq<string>): Option<string>
  {
    SuffixLookupFrom(d, name, suffixes, 0)
  }

  /** The fuzzy test: one of the lower-cased key and the lower-cased name contains the other. */
  predicate FuzzyMatch(key: string, lowerName: string)
  {
    Contains(lowerName, Lower(key)) || Contains(Lower(key), lowerName)
  }

  function FuzzyTest(lowerName: string): string -> bool
  {
    key => FuzzyMatch(key, lowerName)
  }

  /** The fuzzy loop: the value of the first key, in iteration order, that passes the fuzzy test. */
  function FuzzyLookup(d: Dict<string, string>, lowerName: string): (r: Option<string>)
    ensures r.None? <==> forall i :: 0 <= i < |d| ==> !FuzzyMatch(d[i].0, lowerName)
    ensures r.Some? ==>
      exists i :: 0 <= i < |d| && FuzzyMatch(d[i].0, lowerName)
        && Has(d, d[i].0) && r.value == Get(d, d[i].0)
        && forall j :: 0 <= j < i ==> !FuzzyMatch(d[j].0, lowerName)
  {
    FirstKeyWhereSpec(d, FuzzyTest(lowerName));
    match FirstKeyWhere(d, FuzzyTest(lowerName))
    case None => None
    case Some(k) => Some(Get(d, k))
  }

  /** `get_city_code(city_name)` against the table `d`. */
  function GetCityCode(d: Dict<string, string>, cityName: string): (r: Option<string>)
    ensures cityName == [] ==> r == None
    ensures cityName != [] && Has(d, cityName) ==> r == Some(Get(d, cityName))
    ensures r.Some? ==> exists k :: Has(d, k) && Get(d, k) == r.value
  {
    if cityName == [] then None
    else if Has(d, cityName) then Some(Get(d, cityName))
    else
      var cleaned := Clean(cityName);
      var lowerName := Lower(cleaned);
      if cleaned != [] && Has(d, Title(cleaned)) then Some(Get(d, Title(cleaned)))
      else if Has(d, lowerName) then Some(Get(d, lowerName))
      else
        match SuffixLookup(d, cleaned, CjkSuffixes)
        case Some(code) => Some(code)
        case None =>
          match SuffixLookup(d, lowerName, LatinSuffixes)
          case Some(code) => Some(code)
          case None => FuzzyLookup(d, lowerName)
  }

  // ---------------------------------------------------------------------------
  // The cascade on any table

  lemma LowerOfUncased(s: string)
    requires forall i :: 0 <= i < |s| ==> !IsCased(s[i])
    ensures Lower(s) == s
  {
  }

  /** When exactly one suffix of the list ends `name` and it is a hit, the loop returns its code. */
  lemma SuffixLookupSingleHit(d: Dict<string, string>, name: string, suffixes: seq<string>, k: nat)
    requires k < |suffixes| && SuffixHit(d, name, suffixes[k])
    requires forall j :: 0 <= j < |suffixes| && j != k ==> !EndsWith(name, suffixes[j])
    ensures SuffixLookup(d, name, suffixes) == Some(Get(d, Title(name[..|name| - |suffixes[k]|])))
  {
  }

  /** No suffix of the list ends `name`, so the loop finds nothing. */
  lemma SuffixLookupNoHit(d: Dict<string, string>, name: string, suffixes: seq<string>)
    requires forall j :: 0 <= j < |suffixes| ==> !EndsWith(name, suffixes[j])
    ensures SuffixLookup(d, name, suffixes) == None
  {
  }

  /** The four Chinese suffixes are single, distinct CJK characters. */
  lemma CjkSuffixesAreDistinctChars()
    ensures forall j :: 0 <= j < |CjkSuffixes| ==> |CjkSuffixes[j]| == 1 && IsCjk(CjkSuffixes[j][0])
    ensures forall i, j :: 0 <= i < j < |CjkSuffixes| ==> CjkSuffixes[i][0] != CjkSuffixes[j][0]
  {
  }

  /** The four romanised suffixes are lower-case words with distinct last letters. */
  lemma LatinSuffixesEndDistinctly()
    ensures forall j :: 0 <= j < |LatinSuffixes| ==> |LatinSuffixes[j]| > 0 && IsLower(LatinSuffixes[j][|LatinSuffixes[j]| - 1])
    ensures forall i, j :: 0 <= i < j < |LatinSuffixes| ==>
      LatinSuffixes[i][|LatinSuffixes[i]| - 1] != LatinSuffixes[j][|LatinSuffixes[j]| - 1]
  {
  }

  /**
   * A name of word characters that is not a key in any of the forms tried
   * before the suffix loops, and that is a title-form key followed by one of
   * 市, 区, 州, 县, resolves to that key's code. The key may be romanised, as
   * in "Kunming市", or Chinese.
   */
  lemma CjkSuffixOnWordStem(d: Dict<string, string>, stem: string, suffix: string)
    requires forall i :: 0 <= i < |stem| ==> IsWordChar(stem[i])
    requires Title(stem) == stem && Has(d, stem)
    requires suffix in CjkSuffixes
    requires !Has(d, stem + suffix) && !Has(d, Title(stem + suffix)) && !Has(d, Lower(stem + suffix))
    ensures GetCityCode(d, stem + suffix) == Some(Get(d, stem))
  {
    var name := stem + suffix;
    CjkSuffixesAreDistinctChars();
    var k :| 0 <= k < |CjkSuffixes| && CjkSuffixes[k] == suffix;
    assert Clean(name) == name by {
      assert forall i :: 0 <= i < |name| ==> IsWordChar(name[i]) by {
        forall i | 0 <= i < |name| ensures IsWordChar(name[i]) {
          if i >= |stem| { assert name[i] == suffix[0]; }
        }
      }
      CleanKeepsWordChars(name);
    }
    assert SuffixLookup(d, name, CjkSuffixes) == Some(Get(d, stem)) by {
      assert name[..|name| - |suffix|] == stem;
      forall j | 0 <= j < |CjkSuffixes| && j != k ensures !EndsWith(name, CjkSuffixes[j]) {
        assert name[|name| - 1] == suffix[0];
      }
      SuffixLookupSingleHit(d, name, CjkSuffixes, k);
    }
  }

  /**
   * A Chinese name that is not a key but ends with one of 市, 区, 州, 县
   * resolves to the code of the name without that suffix.
   */
  lemma CjkSuffixStripped(d: Dict<string, string>, stem: string, suffix: string)
    requires forall i :: 0 <= i < |stem| ==> IsCjk(stem[i])
    requires suffix in CjkSuffixes
    requires !Has(d, stem + suffix) && Has(d, stem)
    ensures GetCityCode(d, stem + suffix) == Some(Get(d, stem))
  {
    var name := stem + suffix;
    CjkSuffixesAreDistinctChars();
    assert forall i :: 0 <= i < |name| ==> IsCjk(name[i]) by {
      forall i | 0 <= i < |name| ensures IsCjk(name[i]) {
        if i >= |stem| { assert name[i] == suffix[0]; }
      }
    }
    TitleOfUncased(stem);
    TitleOfUncased(name);
    LowerOfUncased(name);
    CjkSuffixOnWordStem(d, stem, suffix);
  }

  /**
   * A name that is not a key, and whose cleaned form is a non-empty non-key,
   * resolves exactly as its cleaned form does: every step after the exact
   * lookup sees only the cleaned name.
   */
  lemma CleanedNameResolvesAsClean(d: Dict<string, string>, name: string)
    requires name != [] && !Has(d, name)
    requires Clean(name) != [] && !Has(d, Clean(name))
    ensures GetCityCode(d, name) == GetCityCode(d, Clean(name))
  {
    CleanIdempotent(name);
  }

  /** A Chinese name that is not a key is decided by the Chinese suffix loop or later. */
  lemma CjkReachesCjkLoop(d: Dict<string, string>, name: string)
    requires name != [] && forall i :: 0 <= i < |name| ==> IsCjk(name[i])
    requires !Has(d, name)
    ensures GetCityCode(d, name) ==
      match SuffixLookup(d, name, CjkSuffixes)
      case Some(code) => Some(code)
      case None =>
        match SuffixLookup(d, name, LatinSuffixes)
        case Some(code) => Some(code)
        case None => FuzzyLookup(d, name)
  {
    CleanKeepsWordChars(name);
    TitleOfUncased(name);
    LowerOfUncased(name);
  }

  /** A name of letters ends with none of the Chinese suffixes. */
  lemma NoCjkSuffixOnLetters(d: Dict<string, string>, name: string)
    requires forall i :: 0 <= i < |name| ==> IsCased(name[i])
    ensures SuffixLookup(d, name, CjkSuffixes) == None
  {
    CjkSuffixesAreDistinctChars();
    assert forall j :: 0 <= j < |CjkSuffixes| ==> !EndsWith(name, CjkSuffixes[j]);
    SuffixLookupNoHit(d, name, CjkSuffixes);
  }

  /** A lower-cased name ending with one romanised suffix ends with no other. */
  lemma OneLatinSuffix(lowerName: string, k: nat)
    requires k < |LatinSuffixes| && EndsWith(lowerName, LatinSuffixes[k])
    ensures forall j :: 0 <= j < |LatinSuffixes| && j != k ==> !EndsWith(lowerName, LatinSuffixes[j])
  {
    LatinSuffixesEndDistinctly();
    forall j | 0 <= j < |LatinSuffixes| && j != k ensures !EndsWith(lowerName, LatinSuffixes[j]) {
      assert lowerName[|lowerName| - 1] == LatinSuffixes[k][|LatinSuffixes[k]| - 1];
    }
  }

  /**
   * A romanised name of letters that is not a key in any case form but whose
   * lower-cased form ends with shi, city, qu or district resolves to the code
   * of the title-cased rest.
   */
  lemma LatinSuffixStripped(d: Dict<string, string>, name: string, suffix: string)
    requires forall i :: 0 <= i < |name| ==> IsCased(name[i])
    requires suffix in LatinSuffixes && EndsWith(Lower(name), suffix)
    requires !Has(d, name) && !Has(d, Title(name)) && !Has(d, Lower(name))
    requires Has(d, Title(name[..|name| - |suffix|]))
    ensures GetCityCode(d, name) == Some(Get(d, Title(name[..|name| - |suffix|])))
  {
    var lowerName := Lower(name);
    var stem := name[..|name| - |suffix|];
    var k :| 0 <= k < |LatinSuffixes| && LatinSuffixes[k] == suffix;
    assert SuffixLookup(d, lowerName, LatinSuffixes) == Some(Get(d, Title(stem))) by {
      assert lowerName[..|name| - |suffix|] == Lower(stem);
      TitleIgnoresCase(stem);
      OneLatinSuffix(lowerName, k);
      SuffixLookupSingleHit(d, lowerName, LatinSuffixes, k);
    }
    LettersReachLatinLoop(d, name);
  }

  /** A name of letters that is not a key in any case form is decided by the romanised suffix loop or later. */
  lemma LettersReachLatinLoop(d: Dict<string, string>, name: string)
    requires name != [] && forall i :: 0 <= i < |name| ==> IsCased(name[i])
    requires !Has(d, name) && !Has(d, Title(name)) && !Has(d, Lower(name))
    ensures GetCityCode(d, name) ==
      match SuffixLookup(d, Lower(name), LatinSuffixes)
      case Some(code) => Some(code)
      case None => FuzzyLookup(d, Lower(name))
  {
    CleanKeepsWordChars(name);
    assert Clean(name) == name;
    NoCjkSuffixOnLetters(d, name);
  }

  /**
   * A name made only of characters cleaning removes (punctuation, spaces),
   * when neither it nor the empty string is a key, reaches the fuzzy loop with
   * an empty name, which every key contains: it resolves to the first key.
   */
  lemma NoWordCharsResolveToFirstKey(d: Dict<string, string>, name: string)
    requires name != [] && forall i :: 0 <= i < |name| ==> !IsWordChar(name[i])
    requires !Has(d, name) && !Has(d, []) && d != []
    ensures GetCityCode(d, name) == Some(Get(d, d[0].0))
  {
    CleanKeepsWordChars(name);
    assert Lower([]) == [];
    assert Contains(Lower(d[0].0), []) by { assert [] <= Lower(d[0].0)[0..]; }
    assert Has(d, d[0].0);
  }

  /**
   * A name of word characters that differs from a title-form key only in the
   * case of its letters resolves to that key.
   */
  lemma CaseVariantResolves(d: Dict<string, string>, name: string, key: string)
    requires name != [] && forall i :: 0 <= i < |name| ==> IsWordChar(name[i])
    requires Has(d, key) && Title(key) == key && Lower(name) == Lower(key)
    requires !Has(d, name)
    ensures GetCityCode(d, name) == Some(Get(d, key))
  {
    CleanKeepsWordChars(name);
    TitleIgnoresCase(name);
    TitleIgnoresCase(key);
  }

  // ---------------------------------------------------------------------------
  // The cascade on CITY_CODE_MAPPING

  /** The fuzzy loop meets the table's keys in the order the display first writes them. */
  lemma FuzzyFollowsDisplayOrder(lowerName: string)
    ensures (forall i :: 0 <= i < |Display| ==> !FuzzyMatch(Display[i].0, lowerName))
      ==> FuzzyLookup(CityCodeMapping, lowerName) == None
    ensures forall i ::
      (0 <= i < |Display| && FuzzyMatch(Display[i].0, lowerName)
       && (forall j :: 0 <= j < i ==> !FuzzyMatch(Display[j].0, lowerName)))
      ==>
      (Has(CityCodeMapping, Display[i].0)
       && FuzzyLookup(CityCodeMapping, lowerName) == Some(Get(CityCodeMapping, Display[i].0)))
  {
    var p := FuzzyTest(lowerName);
    FromDisplayFirstKey(Display, p);
    FirstKeyWhereSpec(Display, p);
    FirstKeyWhereSpec(CityCodeMapping, p);
    forall i | 0 <= i < |Display| && FuzzyMatch(Display[i].0, lowerName)
      && (forall j :: 0 <= j < i ==> !FuzzyMatch(Display[j].0, lowerName))
      ensures Has(CityCodeMapping, Display[i].0)
        && FuzzyLookup(CityCodeMapping, lowerName) == Some(Get(CityCodeMapping, Display[i].0))
    {
      FromDisplayHas(Display, Display[i].0);
      var i' :| 0 <= i' < |Display| && Display[i'].0 == FirstKeyWhere(Display, p).value && p(Display[i'].0)
                && forall j :: 0 <= j < i' ==> !p(Display[j].0);
      assert i' == i;
    }
  }

  /** Every code the resolver returns from the table is six decimal digits. */
  lemma ResolvedCodesAreSixDigits(name: string)
    ensures GetCityCode(CityCodeMapping, name).Some? ==> IsSixDigitCode(GetCityCode(CityCodeMapping, name).value)
  {
    if GetCityCode(CityCodeMapping, name).Some? {
      var k :| Has(CityCodeMapping, k) && Get(CityCodeMapping, k) == GetCityCode(CityCodeMapping, name).value;
      MappingIsWellFormed(k);
    }
  }

  /** Keys resolve to their own code; the repeated keys resolve to their second code. */
  lemma ExactNamesResolve()
    ensures GetCityCode(CityCodeMapping, "Beijing") == Some("110100")
    ensures GetCityCode(CityCodeMapping, "北京") == Some("110100")
    ensures GetCityCode(CityCodeMapping, "Suzhou") == Some("341300")
    ensures GetCityCode(CityCodeMapping, "Yulin") == Some("610800")
  {
    BeijingCode();
    SuzhouIsAnhuiCode();
    YulinIsShaanxiCode();
  }

  /** "昆明市" loses its suffix and resolves to Kunming's code. */
  lemma CjkSuffixedNameResolves()
    ensures GetCityCode(CityCodeMapping, "昆明市") == Some("530100")
  {
    KunmingCode();
    KunmingVariantsAreNotKeys();
    assert "昆明市" == "昆明" + "市";
    CjkSuffixStripped(CityCodeMapping, "昆明", "市");
  }

  lemma KunmingshiForms()
    ensures Title("Kunmingshi") == "Kunmingshi" && Lower("Kunmingshi") == "kunmingshi"
    ensures "Kunmingshi"[..7] == "Kunming" && Title("Kunming") == "Kunming"
  {
  }

  /** "Kunmingshi" loses its suffix and resolves to Kunming's code. */
  lemma LatinSuffixedNameResolves()
    ensures GetCityCode(CityCodeMapping, "Kunmingshi") == Some("530100")
  {
    KunmingCode();
    KunmingVariantsAreNotKeys();
    KunmingshiForms();
    if Has(CityCodeMapping, "kunmingshi") { MappingIsWellFormed("kunmingshi"); }
    assert LatinSuffixes[0] == "shi";
    LatinSuffixStripped(CityCodeMapping, "Kunmingshi", "shi");
  }

  /** A lower-case spelling of a key resolves through the title-case step. */
  lemma LowerCaseNameResolves()
    ensures GetCityCode(CityCodeMapping, "beijing") == Some("110100")
  {
    BeijingCode();
    assert Title("Beijing") == "Beijing";
    assert Lower("beijing") == Lower("Beijing");
    if Has(CityCodeMapping, "beijing") { MappingIsWellFormed("beijing"); }
    CaseVariantResolves(CityCodeMapping, "beijing", "Beijing");
  }

  /** A name of punctuation only, such as "!!!", resolves to the first key, Beijing. */
  lemma PunctuationResolvesToBeijing(name: string)
    requires name != [] && forall i :: 0 <= i < |name| ==> !IsWordChar(name[i])
    ensures GetCityCode(CityCodeMapping, name) == Some("110100")
  {
    if Has(CityCodeMapping, name) { MappingIsWellFormed(name); }
    if Has(CityCodeMapping, []) { MappingIsWellFormed([]); }
    BeijingCode();
    FirstKeyIsBeijing();
    NoWordCharsResolveToFirstKey(CityCodeMapping, name);
  }

  lemma MixedKunmingForms()
    ensures "Kunming市" == "Kunming" + "市" && Title("Kunming") == "Kunming"
    ensures Title("Kunming市") == "Kunming市" && Lower("Kunming市") == "kunming市"
  {
  }

  /** "Kunming市", a romanised key with a Chinese suffix, loses the suffix and resolves to Kunming's code. */
  lemma MixedSuffixedNameResolves()
    ensures GetCityCode(CityCodeMapping, "Kunming市") == Some("530100")
  {
    KunmingCode();
    MixedKunmingNamesAreNotKeys();
    MixedKunmingForms();
    if Has(CityCodeMapping, "kunming市") { MappingIsWellFormed("kunming市"); }
    CjkSuffixOnWordStem(CityCodeMapping, "Kunming", "市");
  }

  /** A non-key name whose cleaned, title-cased form is a key resolves to that key's code. */
  lemma CleanedTitleKeyResolves(d: Dict<string, string>, name: string)
    requires name != [] && !Has(d, name)
    requires Clean(name) != [] && Has(d, Title(Clean(name)))
    ensures GetCityCode(d, name) == Some(Get(d, Title(Clean(name))))
  {
  }

  /** On any table where "Kunming" is a key and "Kun-ming" is not, "Kun-ming" resolves to Kunming's code. */
  lemma HyphenatedKunming(d: Dict<string, string>)
    requires Has(d, "Kunming") && !Has(d, "Kun-ming")
    ensures GetCityCode(d, "Kun-ming") == Some(Get(d, "Kunming"))
  {
    assert Clean("Kun-ming") == "Kunming" && Title("Kunming") == "Kunming" by {
      CleanHyphenatedName();
    }
    CleanedTitleKeyResolves(d, "Kun-ming");
  }

  /** "Kun-ming" is cleaned to "Kunming", which the title-case step finds. */
  lemma HyphenatedNameResolves()
    ensures GetCityCode(CityCodeMapping, "Kun-ming") == Some("530100")
  {
    KunmingCode();
    MixedKunmingNamesAreNotKeys();
    HyphenatedKunming(CityCodeMapping);
  }

  lemma FirstKeyIsBeijing()
    ensures CityCodeMapping != [] && CityCodeMapping[0].0 == "Beijing"
  {
    var all := (k: string) => true;
    assert Display == Municipalities + Concat(Provinces[1..]);
    assert Display[0].0 == "Beijing";
    FromDisplayFirstKey(Display, all);
  }

  lemma ThreeBangsResolveToBeijing()
    ensures GetCityCode(CityCodeMapping, "!!!") == Some("110100")
  {
    PunctuationResolvesToBeijing("!!!");
  }
}
