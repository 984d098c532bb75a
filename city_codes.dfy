/**
 * The constant city-name -> administrative-code table (ProcessingSHP.py:75-282),
 * entry for entry as the dict display writes it, grouped by the province
 * comments of the display. The display repeats two keys: "Suzhou" (lines 105
 * and 125) and "Yulin" (lines 179 and 233); the dict it builds keeps each at its
 * first position with its last value.
 */
module CityCodes {

  import opened PyText
  import opened PyDict

  type Entry = (string, string)

  /** Entries for the four municipalities (ProcessingSHP.py:77-87). */
  const Municipalities: seq<Entry> := [
    ("Beijing", "110100"),
    ("北京", "110100"),
    ("Tianjin", "120100"),
    ("天津", "120100"),
    ("Shanghai", "310100"),
    ("上海", "310100"),
    ("Chongqing", "500100"),
    ("重庆", "500100")
  ]

  /** Entries for Shanxi (ProcessingSHP.py:89-99). */
  const Shanxi: seq<Entry> := [
    ("Taiyuan", "140100"),
    ("Datong", "140200"),
    ("Yangquan", "140300"),
    ("Changzhi", "140400"),
    ("Jincheng", "140500"),
    ("Shuozhou", "140600"),
    ("Jinzhong", "140700"),
    ("Yuncheng", "140800"),
    ("Xinzhou", "140900"),
    ("Linfen", "141000"),
    ("Luliang", "141100")
  ]

  /** Entries for Jiangsu (ProcessingSHP.py:101-113). */
  const Jiangsu: seq<Entry> := [
    ("Nanjing", "320100"),
    ("Wuxi", "320200"),
    ("Xuzhou", "320300"),
    ("Changzhou", "320400"),
    ("Suzhou", "320500"),
    ("Nantong", "320600"),
    ("Lianyungang", "320700"),
    ("Huai'an", "320800"),
    ("Yancheng", "320900"),
    ("Yangzhou", "321000"),
    ("Zhenjiang", "321100"),
    ("Taizhou", "321200"),
    ("Suqian", "321300")
  ]

  /** Entries for Anhui (ProcessingSHP.py:115-129). */
  const Anhui: seq<Entry> := [
    ("Hefei", "340100"),
    ("Bengbu", "340300"),
    ("Huainan", "340400"),
    ("Maanshan", "340500"),
    ("Huaibei", "340600"),
    ("Tongling", "340700"),
    ("Anqing", "340800"),
    ("Huangshan", "341000"),
    ("Chuzhou", "341100"),
    ("Fuyang", "341200"),
    ("Suzhou", "341300"),
    ("Liuan", "341500"),
    ("Bozhou", "341600"),
    ("Chizhou", "341700"),
    ("Xuancheng", "341800")
  ]

  /** Entries for Shandong (ProcessingSHP.py:131-147). */
  const Shandong: seq<Entry> := [
    ("Jinan", "370100"),
    ("Qingdao", "370200"),
    ("Zibo", "370300"),
    ("Zaozhuang", "370400"),
    ("Dongying", "370500"),
    ("Yantai", "370600"),
    ("Weifang", "370700"),
    ("Jining", "370800"),
    ("Taian", "370900"),
    ("Weihai", "371000"),
    ("Rizhao", "371100"),
    ("Laiwu", "371200"),
    ("Linyi", "371300"),
    ("Dezhou", "371400"),
    ("Liaocheng", "371500"),
    ("Binzhou", "371600"),
    ("Heze", "371700")
  ]

  /** Entries for Guangdong (ProcessingSHP.py:149-169). */
  const Guangdong: seq<Entry> := [
    ("Guangzhou", "440100"),
    ("Shenzhen", "440300"),
    ("Zhuhai", "440400"),
    ("Shantou", "440500"),
    ("Foshan", "440600"),
    ("Shaoguan", "440200"),
    ("Zhanjiang", "440800"),
    ("Maoming", "440900"),
    ("Jiangmen", "440700"),
    ("Zhaoqing", "441200"),
    ("Huizhou", "441300"),
    ("Meizhou", "441400"),
    ("Shanwei", "441500"),
    ("Heyuan", "441600"),
    ("Yangjiang", "441700"),
    ("Qingyuan", "441800"),
    ("Dongguan", "441900"),
    ("Zhongshan", "442000"),
    ("Chaozhou", "445100"),
    ("Jieyang", "445200"),
    ("Yunfu", "445300")
  ]

  /** Entries for Guangxi (ProcessingSHP.py:171-184). */
  const Guangxi: seq<Entry> := [
    ("Nanning", "450100"),
    ("Liuzhou", "450200"),
    ("Guilin", "450300"),
    ("Wuzhou", "450400"),
    ("Beihai", "450500"),
    ("Fangchenggang", "450600"),
    ("Qinzhou", "450700"),
    ("Guigang", "450800"),
    ("Yulin", "450900"),
    ("Baise", "451000"),
    ("Hezhou", "451100"),
    ("Hechi", "451200"),
    ("Laibin", "451300"),
    ("Chongzuo", "451400")
  ]

  /** Entries for Yunnan (ProcessingSHP.py:186-217). */
  const Yunnan: seq<Entry> := [
    ("Kunming", "530100"),
    ("昆明", "530100"),
    ("Qujing", "530300"),
    ("曲靖", "530300"),
    ("Yuxi", "530400"),
    ("玉溪", "530400"),
    ("Baoshan", "530500"),
    ("保山", "530500"),
    ("Zhaotong", "530600"),
    ("昭通", "530600"),
    ("Lijiang", "530700"),
    ("丽江", "530700"),
    ("Puer", "530800"),
    ("普洱", "530800"),
    ("Lincang", "530900"),
    ("临沧", "530900"),
    ("Chuxiong", "532300"),
    ("楚雄", "532300"),
    ("Honghe", "532500"),
    ("红河", "532500"),
    ("Wenshan", "532600"),
    ("文山", "532600"),
    ("Xishuangbanna", "532800"),
    ("西双版纳", "532800"),
    ("Dali", "532900"),
    ("大理", "532900"),
    ("Dehong", "533100"),
    ("德宏", "533100"),
    ("Nujiang", "533300"),
    ("怒江", "533300"),
    ("Diqing", "533400"),
    ("迪庆", "533400")
  ]

  /** Entries for Tibet (ProcessingSHP.py:219-224). */
  const Tibet: seq<Entry> := [
    ("Lasa", "540100"),
    ("Shigatse", "540200"),
    ("Shannan", "540500"),
    ("Linzhi", "540400"),
    ("Naqu", "540600"),
    ("Ali", "542500")
  ]

  /** Entries for Shaanxi (ProcessingSHP.py:226-235). */
  const Shaanxi: seq<Entry> := [
    ("Xian", "610100"),
    ("Tongchuan", "610200"),
    ("Baoji", "610300"),
    ("Xianyang", "610400"),
    ("Weinan", "610500"),
    ("Yanan", "610600"),
    ("Hanzhong", "610700"),
    ("Yulin", "610800"),
    ("Ankang", "610900"),
    ("Shangluo", "611000")
  ]

  /** Entries for Gansu (ProcessingSHP.py:237-249). */
  const Gansu: seq<Entry> := [
    ("Lanzhou", "620100"),
    ("Jiayuguan", "620200"),
    ("Jinchang", "620300"),
    ("Baiyin", "620400"),
    ("Tianshui", "620500"),
    ("Wuwei", "620600"),
    ("Zhangye", "620700"),
    ("Pingliang", "620800"),
    ("Qingyang", "621000"),
    ("Dingxi", "621100"),
    ("Longnan", "621200"),
    ("Gannan", "623000"),
    ("Linxia", "622900")
  ]

  /** Entries for Qinghai (ProcessingSHP.py:251-258). */
  const Qinghai: seq<Entry> := [
    ("Xining", "630100"),
    ("Haidong", "630200"),
    ("Haibei", "632200"),
    ("Huangnan", "632300"),
    ("Hainan", "632500"),
    ("Guoluo", "632600"),
    ("Yushu", "632700"),
    ("Haixi", "632800")
  ]

  /** Entries for Ningxia (ProcessingSHP.py:260-264). */
  const Ningxia: seq<Entry> := [
    ("Yinchuan", "640100"),
    ("Shizuishan", "640200"),
    ("Wuzhong", "640300"),
    ("Guyuan", "640400"),
    ("Zhongwei", "640500")
  ]

  /** Entries for Xinjiang (ProcessingSHP.py:266-281). */
  const Xinjiang: seq<Entry> := [
    ("Urumqi", "650100"),
    ("Kelamayi", "650200"),
    ("Turpan", "650400"),
    ("Hami", "650500"),
    ("Shihezi", "659001"),
    ("Alaer", "659002"),
    ("Tumushuke", "659003"),
    ("Changji", "652300"),
    ("Bayinguoleng", "652800"),
    ("Aksu", "652900"),
    ("Kashi", "653100"),
    ("Hetian", "653200"),
    ("Kezhou", "653000"),
    ("Yili", "654000"),
    ("Tacheng", "654200"),
    ("Altay", "654300")
  ]

  /** The display's entries, province by province, in source order. */
  const Provinces: seq<seq<Entry>> := [Municipalities, Shanxi, Jiangsu, Anhui, Shandong, Guangdong, Guangxi, Yunnan, Tibet, Shaanxi, Gansu, Qinghai, Ningxia, Xinjiang]

  function Concat(cs: seq<seq<Entry>>): seq<Entry>
  {
    if cs == [] then [] else cs[0] + Concat(cs[1..])
  }

  /** Where the entries of `cs[c]` start in `Concat(cs)`. */
  function Offset(cs: seq<seq<Entry>>, c: nat): nat
    requires c <= |cs|
  {
    if c == 0 then 0 else |cs[0]| + Offset(cs[1..], c - 1)
  }

  /** All 189 entries of the display, in source order (duplicates included). */
  const Display: seq<Entry> := Concat(Provinces)

  /** `CITY_CODE_MAPPING` */
  const CityCodeMapping: Dict<string, string> := FromDisplay(Display)

  /** A code as the table writes it: six decimal digits. */
  predicate IsSixDigitCode(s: string)
  {
    |s| == 6 && forall j :: 0 <= j < 6 ==> IsDigit(s[j])
  }

  predicate AllSixDigitCodes(entries: seq<Entry>)
  {
    forall i :: 0 <= i < |entries| ==> IsSixDigitCode(entries[i].1)
  }

  /**
   * The shape every key of the table has: it starts with an upper-case letter
   * (the romanised names) or a CJK ideograph (the Chinese names).
   */
  predicate IsTableKey(k: string)
  {
    k != [] && (IsUpper(k[0]) || IsCjk(k[0]))
  }

  predicate AllTableKeys(entries: seq<Entry>)
  {
    forall i :: 0 <= i < |entries| ==> IsTableKey(entries[i].0)
  }

  // ---------------------------------------------------------------------------
  // Concatenation of the province groups

  lemma {:induction false} ConcatHas(cs: seq<seq<Entry>>, k: string)
    ensures Has(Concat(cs), k) <==> exists c :: 0 <= c < |cs| && Has(cs[c], k)
  {
    if cs != [] {
      ConcatHas(cs[1..], k);
      var head: seq<Entry>, rest: seq<Entry> := cs[0], Concat(cs[1..]);
      if Has(head + rest, k) {
        var i: int :| 0 <= i < |head + rest| && (head + rest)[i].0 == k;
        if i < |head| { assert head[i].0 == k; } else { assert rest[i - |head|].0 == k; }
      }
      if exists c :: 0 <= c < |cs| && Has(cs[c], k) {
        var c :| 0 <= c < |cs| && Has(cs[c], k);
        if c == 0 {
          var i :| 0 <= i < |head| && head[i].0 == k;
          assert (head + rest)[i] == head[i];
        } else {
          assert cs[1..][c - 1] == cs[c];
          var i :| 0 <= i < |rest| && rest[i].0 == k;
          assert (head + rest)[|head| + i] == rest[i];
        }
      }
    }
  }

  lemma {:induction false} ConcatWellFormed(cs: seq<seq<Entry>>)
    requires forall c :: 0 <= c < |cs| ==> AllSixDigitCodes(cs[c]) && AllTableKeys(cs[c])
    ensures AllSixDigitCodes(Concat(cs)) && AllTableKeys(Concat(cs))
  {
    if cs != [] {
      assert forall c :: 0 <= c < |cs[1..]| ==> cs[1..][c] == cs[c + 1];
      ConcatWellFormed(cs[1..]);
      var head: seq<Entry>, rest: seq<Entry> := cs[0], Concat(cs[1..]);
      forall i: int | 0 <= i < |head + rest|
        ensures IsTableKey((head + rest)[i].0) && IsSixDigitCode((head + rest)[i].1)
      {
        if i >= |head| { assert (head + rest)[i] == rest[i - |head|]; }
      }
    }
  }

  /**
   * The entry at position `p` of group `c` is the last one with its key: it
   * sits at `Offset(cs, c) + p` of the concatenation and no later entry has
   * that key.
   */
  lemma {:induction false} ConcatLastEntry(cs: seq<seq<Entry>>, c: nat, p: nat)
    requires c < |cs| && p < |cs[c]|
    requires forall q :: p < q < |cs[c]| ==> cs[c][q].0 != cs[c][p].0
    requires forall e :: c < e < |cs| ==> !Has(cs[e], cs[c][p].0)
    ensures Offset(cs, c) + p < |Concat(cs)|
    ensures Concat(cs)[Offset(cs, c) + p] == cs[c][p]
    ensures forall j :: Offset(cs, c) + p < j < |Concat(cs)| ==> Concat(cs)[j].0 != cs[c][p].0
  {
    var head: seq<Entry>, rest: seq<Entry> := cs[0], Concat(cs[1..]);
    var k := cs[c][p].0;
    if c == 0 {
      ConcatHas(cs[1..], k);
      assert forall e :: 0 <= e < |cs[1..]| ==> cs[1..][e] == cs[e + 1];
      forall j: int | p < j < |head + rest| ensures (head + rest)[j].0 != k {
        if j >= |head| {
          assert (head + rest)[j] == rest[j - |head|];
        }
      }
    } else {
      assert cs[1..][c - 1] == cs[c];
      assert forall e :: c - 1 < e < |cs[1..]| ==> cs[1..][e] == cs[e + 1];
      ConcatLastEntry(cs[1..], c - 1, p);
      var i := Offset(cs[1..], c - 1) + p;
      assert (head + rest)[|head| + i] == rest[i];
      forall j | |head| + i < j < |head + rest| ensures (head + rest)[j].0 != k {
        assert (head + rest)[j] == rest[j - |head|];
      }
    }
  }

  // ---------------------------------------------------------------------------
  // Facts about CITY_CODE_MAPPING

  /** A name no group of the display mentions is not a key of the table. */
  lemma NotAKey(k: string)
    requires !Has(Municipalities, k) && !Has(Shanxi, k) && !Has(Jiangsu, k) && !Has(Anhui, k)
    requires !Has(Shandong, k) && !Has(Guangdong, k) && !Has(Guangxi, k) && !Has(Yunnan, k)
    requires !Has(Tibet, k) && !Has(Shaanxi, k) && !Has(Gansu, k) && !Has(Qinghai, k)
    requires !Has(Ningxia, k) && !Has(Xinjiang, k)
    ensures !Has(CityCodeMapping, k)
  {
    ConcatHas(Provinces, k);
    FromDisplayHas(Display, k);
  }

  /** The last entry for a key in the display gives that key's value in the table. */
  lemma LastEntryWins(c: nat, p: nat)
    requires c < |Provinces| && p < |Provinces[c]|
    requires forall q :: p < q < |Provinces[c]| ==> Provinces[c][q].0 != Provinces[c][p].0
    requires forall e :: c < e < |Provinces| ==> !Has(Provinces[e], Provinces[c][p].0)
    ensures Has(CityCodeMapping, Provinces[c][p].0)
    ensures Get(CityCodeMapping, Provinces[c][p].0) == Provinces[c][p].1
  {
    ConcatLastEntry(Provinces, c, p);
    FromDisplayLastWins(Display, Offset(Provinces, c) + p);
  }

  // The per-group lemmas below (six-digit codes here, absent keys further
  // down) only split the solver's work: each one checks a few province
  // groups, and a lemma over the whole table combines them.
  lemma SixDigitCodesInMunicipalitiesShanxiJiangsu()
    ensures AllSixDigitCodes(Municipalities) && AllSixDigitCodes(Shanxi) && AllSixDigitCodes(Jiangsu)
  {
  }

  lemma SixDigitCodesInAnhuiShandong()
    ensures AllSixDigitCodes(Anhui) && AllSixDigitCodes(Shandong)
  {
  }

  lemma SixDigitCodesInGuangdongGuangxi()
    ensures AllSixDigitCodes(Guangdong) && AllSixDigitCodes(Guangxi)
  {
  }

  lemma SixDigitCodesInYunnan()
    ensures AllSixDigitCodes(Yunnan)
  {
  }

  lemma SixDigitCodesInTibetShaanxiGansu()
    ensures AllSixDigitCodes(Tibet) && AllSixDigitCodes(Shaanxi) && AllSixDigitCodes(Gansu)
  {
  }

  lemma SixDigitCodesInQinghaiNingxiaXinjiang()
    ensures AllSixDigitCodes(Qinghai) && AllSixDigitCodes(Ningxia) && AllSixDigitCodes(Xinjiang)
  {
  }

  lemma TableKeysInMunicipalitiesShanxiJiangsuAnhui()
    ensures AllTableKeys(Municipalities) && AllTableKeys(Shanxi) && AllTableKeys(Jiangsu) && AllTableKeys(Anhui)
  {
  }

  lemma TableKeysInShandongGuangxi()
    ensures AllTableKeys(Shandong) && AllTableKeys(Guangxi)
  {
  }

  lemma TableKeysInGuangdong()
    ensures AllTableKeys(Guangdong)
  {
  }

  lemma TableKeysInYunnan()
    ensures AllTableKeys(Yunnan)
  {
  }

  lemma TableKeysInTibetToXinjiang()
    ensures AllTableKeys(Tibet) && AllTableKeys(Shaanxi) && AllTableKeys(Gansu)
    ensures AllTableKeys(Qinghai) && AllTableKeys(Ningxia) && AllTableKeys(Xinjiang)
  {
  }

  lemma ProvincesWellFormed()
    ensures forall c :: 0 <= c < |Provinces| ==> AllSixDigitCodes(Provinces[c]) && AllTableKeys(Provinces[c])
  {
    SixDigitCodesInMunicipalitiesShanxiJiangsu();
    SixDigitCodesInAnhuiShandong();
    SixDigitCodesInGuangdongGuangxi();
    SixDigitCodesInYunnan();
    SixDigitCodesInTibetShaanxiGansu();
    SixDigitCodesInQinghaiNingxiaXinjiang();
    TableKeysInMunicipalitiesShanxiJiangsuAnhui();
    TableKeysInShandongGuangxi();
    TableKeysInGuangdong();
    TableKeysInYunnan();
    TableKeysInTibetToXinjiang();
  }

  /**
   * Every key of the table has the key shape and every code is six decimal
   * digits (so no code is empty).
   */
  lemma MappingIsWellFormed(k: string)
    requires Has(CityCodeMapping, k)
    ensures IsTableKey(k) && IsSixDigitCode(Get(CityCodeMapping, k))
  {
    ProvincesWellFormed();
    ConcatWellFormed(Provinces);
    FromDisplayValues(Display, k);
  }

  /** No province after Anhui mentions "Suzhou". */
  lemma SuzhouOnlyUpToAnhui()
    ensures forall e :: 3 < e < |Provinces| ==> !Has(Provinces[e], "Suzhou")
  {
    SuzhouNotInShandongToTibet();
    assert !Has(Shaanxi, "Suzhou") && !Has(Gansu, "Suzhou") && !Has(Qinghai, "Suzhou");
    assert !Has(Ningxia, "Suzhou") && !Has(Xinjiang, "Suzhou");
  }

  lemma SuzhouNotInShandongToTibet()
    ensures !Has(Shandong, "Suzhou") && !Has(Guangdong, "Suzhou") && !Has(Guangxi, "Suzhou")
    ensures !Has(Yunnan, "Suzhou") && !Has(Tibet, "Suzhou")
  {
  }

  /** "Suzhou" is written twice; the table keeps the second (Anhui, line 125) value. */
  lemma SuzhouIsAnhuiCode()
    ensures Has(CityCodeMapping, "Suzhou") && Get(CityCodeMapping, "Suzhou") == "341300"
  {
    assert Provinces[3] == Anhui && Anhui[10] == ("Suzhou", "341300");
    SuzhouOnlyUpToAnhui();
    LastEntryWins(3, 10);
  }

  /** "Yulin" is written twice; the table keeps the second (Shaanxi, line 233) value. */
  lemma YulinIsShaanxiCode()
    ensures Has(CityCodeMapping, "Yulin") && Get(CityCodeMapping, "Yulin") == "610800"
  {
    assert Provinces[9] == Shaanxi && Shaanxi[7] == ("Yulin", "610800");
    assert !Has(Gansu, "Yulin") && !Has(Qinghai, "Yulin") && !Has(Ningxia, "Yulin");
    assert !Has(Xinjiang, "Yulin");
    LastEntryWins(9, 7);
  }


  // ---------------------------------------------------------------------------
  // Facts about particular names

  lemma BeijingNamesNotInShanxiToShandong()
    ensures !Has(Shanxi, "Beijing") && !Has(Jiangsu, "Beijing") && !Has(Anhui, "Beijing") && !Has(Shandong, "Beijing")
    ensures !Has(Shanxi, "北京") && !Has(Jiangsu, "北京") && !Has(Anhui, "北京") && !Has(Shandong, "北京")
  {
  }

  lemma BeijingNamesNotInGuangdongToTibet()
    ensures !Has(Guangdong, "Beijing") && !Has(Guangxi, "Beijing") && !Has(Yunnan, "Beijing") && !Has(Tibet, "Beijing")
    ensures !Has(Guangdong, "北京") && !Has(Guangxi, "北京") && !Has(Yunnan, "北京") && !Has(Tibet, "北京")
  {
  }

  lemma BeijingNamesNotInShaanxiToXinjiang()
    ensures !Has(Shaanxi, "Beijing") && !Has(Gansu, "Beijing") && !Has(Qinghai, "Beijing")
    ensures !Has(Ningxia, "Beijing") && !Has(Xinjiang, "Beijing")
    ensures !Has(Shaanxi, "北京") && !Has(Gansu, "北京") && !Has(Qinghai, "北京")
    ensures !Has(Ningxia, "北京") && !Has(Xinjiang, "北京")
  {
  }

  /** Both names of Beijing map to 110100. */
  lemma BeijingCode()
    ensures Has(CityCodeMapping, "Beijing") && Get(CityCodeMapping, "Beijing") == "110100"
    ensures Has(CityCodeMapping, "北京") && Get(CityCodeMapping, "北京") == "110100"
  {
    BeijingNamesNotInShanxiToShandong();
    BeijingNamesNotInGuangdongToTibet();
    BeijingNamesNotInShaanxiToXinjiang();
    assert Provinces[0] == Municipalities;
    LastEntryWins(0, 0);
    LastEntryWins(0, 1);
  }

  lemma KunmingNamesNotAfterYunnan()
    ensures !Has(Tibet, "Kunming") && !Has(Shaanxi, "Kunming") && !Has(Gansu, "Kunming")
    ensures !Has(Qinghai, "Kunming") && !Has(Ningxia, "Kunming") && !Has(Xinjiang, "Kunming")
    ensures !Has(Tibet, "昆明") && !Has(Shaanxi, "昆明") && !Has(Gansu, "昆明")
    ensures !Has(Qinghai, "昆明") && !Has(Ningxia, "昆明") && !Has(Xinjiang, "昆明")
  {
  }

  /** Both names of Kunming map to 530100. */
  lemma KunmingCode()
    ensures Has(CityCodeMapping, "Kunming") && Get(CityCodeMapping, "Kunming") == "530100"
    ensures Has(CityCodeMapping, "昆明") && Get(CityCodeMapping, "昆明") == "530100"
  {
    KunmingNamesNotAfterYunnan();
    assert Provinces[7] == Yunnan;
    LastEntryWins(7, 0);
    LastEntryWins(7, 1);
  }

  lemma KunmingVariantsNotInMunicipalitiesToAnhui()
    ensures !Has(Municipalities, "Kunmingshi") && !Has(Shanxi, "Kunmingshi") && !Has(Jiangsu, "Kunmingshi") && !Has(Anhui, "Kunmingshi")
    ensures !Has(Municipalities, "昆明市") && !Has(Shanxi, "昆明市") && !Has(Jiangsu, "昆明市") && !Has(Anhui, "昆明市")
  {
  }

  lemma KunmingVariantsNotInShandongToGuangxi()
    ensures !Has(Shandong, "Kunmingshi") && !Has(Guangdong, "Kunmingshi") && !Has(Guangxi, "Kunmingshi")
    ensures !Has(Shandong, "昆明市") && !Has(Guangdong, "昆明市") && !Has(Guangxi, "昆明市")
  {
  }

  lemma KunmingVariantsNotInYunnan()
    ensures !Has(Yunnan, "Kunmingshi") && !Has(Yunnan, "昆明市")
  {
  }

  lemma KunmingVariantsNotInTibetToXinjiang()
    ensures !Has(Tibet, "Kunmingshi") && !Has(Shaanxi, "Kunmingshi") && !Has(Gansu, "Kunmingshi")
    ensures !Has(Qinghai, "Kunmingshi") && !Has(Ningxia, "Kunmingshi") && !Has(Xinjiang, "Kunmingshi")
    ensures !Has(Tibet, "昆明市") && !Has(Shaanxi, "昆明市") && !Has(Gansu, "昆明市")
    ensures !Has(Qinghai, "昆明市") && !Has(Ningxia, "昆明市") && !Has(Xinjiang, "昆明市")
  {
  }

  lemma MixedKunmingNamesNotInMunicipalitiesToAnhui()
    ensures !Has(Municipalities, "Kunming市") && !Has(Shanxi, "Kunming市") && !Has(Jiangsu, "Kunming市") && !Has(Anhui, "Kunming市")
    ensures !Has(Municipalities, "Kun-ming") && !Has(Shanxi, "Kun-ming") && !Has(Jiangsu, "Kun-ming") && !Has(Anhui, "Kun-ming")
  {
  }

  lemma MixedKunmingNamesNotInShandongToGuangxi()
    ensures !Has(Shandong, "Kunming市") && !Has(Guangdong, "Kunming市") && !Has(Guangxi, "Kunming市")
    ensures !Has(Shandong, "Kun-ming") && !Has(Guangdong, "Kun-ming") && !Has(Guangxi, "Kun-ming")
  {
  }

  lemma MixedKunmingNamesNotInYunnan()
    ensures !Has(Yunnan, "Kunming市") && !Has(Yunnan, "Kun-ming")
  {
  }

  lemma MixedKunmingNamesNotInTibetToXinjiang()
    ensures !Has(Tibet, "Kunming市") && !Has(Shaanxi, "Kunming市") && !Has(Gansu, "Kunming市")
    ensures !Has(Qinghai, "Kunming市") && !Has(Ningxia, "Kunming市") && !Has(Xinjiang, "Kunming市")
    ensures !Has(Tibet, "Kun-ming") && !Has(Shaanxi, "Kun-ming") && !Has(Gansu, "Kun-ming")
    ensures !Has(Qinghai, "Kun-ming") && !Has(Ningxia, "Kun-ming") && !Has(Xinjiang, "Kun-ming")
  {
  }

  /** Neither "Kunming市" nor "Kun-ming" is itself a key. */
  lemma MixedKunmingNamesAreNotKeys()
    ensures !Has(CityCodeMapping, "Kunming市") && !Has(CityCodeMapping, "Kun-ming")
  {
    MixedKunmingNamesNotInMunicipalitiesToAnhui();
    MixedKunmingNamesNotInShandongToGuangxi();
    MixedKunmingNamesNotInYunnan();
    MixedKunmingNamesNotInTibetToXinjiang();
    NotAKey("Kunming市");
    NotAKey("Kun-ming");
  }

  /** Neither "Kunmingshi" nor "昆明市" is itself a key. */
  lemma KunmingVariantsAreNotKeys()
    ensures !Has(CityCodeMapping, "Kunmingshi") && !Has(CityCodeMapping, "昆明市")
  {
    KunmingVariantsNotInMunicipalitiesToAnhui();
    KunmingVariantsNotInShandongToGuangxi();
    KunmingVariantsNotInYunnan();
    KunmingVariantsNotInTibetToXinjiang();
    NotAKey("Kunmingshi");
    NotAKey("昆明市");
  }
}
