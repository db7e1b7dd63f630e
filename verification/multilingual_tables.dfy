/** The rows of the multilingual serializer's unit test, stated as facts
    about the model: four serializations (record mode and indexed mode,
    with and without records delivered in another language) and two
    filters (a plain code list and a set of fallback chains). The texts of
    each row are parameters: the rows hold for any texts, provided the
    ones the test gives as non-empty are non-empty. */
module MultilingualTables {
  import opened Wrappers
  import opened OrderedMaps
  import opened PhpValues
  import opened SerializationOptions
  import opened MultilingualSerializer

  lemma BareFields(key: string, t: string, indexTags: bool)
    requires t != ""
    ensures TermFields(key, Bare(t), indexTags) == [(LanguageField, VStr(key)), (ValueField, VStr(t))]
  {
  }

  lemma EmptyBareFields(key: string, indexTags: bool)
    ensures TermFields(key, Bare(""), indexTags) == [(LanguageField, VStr(key)), (RemovedField, VStr(""))]
  {
  }

  /** Record mode, bare values, one of them empty (the test uses the
      texts for Italy's capital in English, German and Finnish). */
  lemma SerializeBareRecordMode(en: string, de: string, fi: string)
    requires en != "" && de != "" && fi != ""
    ensures SerializeMultilingualValues([("en", Bare(en)), ("de", Bare(de)), ("it", Bare("")), ("fi", Bare(fi))], false) ==
      [(Name("en"), VArr([(LanguageField, VStr("en")), (ValueField, VStr(en))])),
       (Name("de"), VArr([(LanguageField, VStr("de")), (ValueField, VStr(de))])),
       (Name("it"), VArr([(LanguageField, VStr("it")), (RemovedField, VStr(""))])),
       (Name("fi"), VArr([(LanguageField, VStr("fi")), (ValueField, VStr(fi))]))]
  {
    var r := SerializeMultilingualValues([("en", Bare(en)), ("de", Bare(de)), ("it", Bare("")), ("fi", Bare(fi))], false);
    BareFields("en", en, false);
    BareFields("de", de, false);
    EmptyBareFields("it", false);
    BareFields("fi", fi, false);
    assert r == [r[0], r[1], r[2], r[3]];
  }

  /** Indexed mode, bare values: the objects are keyed by position. */
  lemma SerializeBareIndexedMode(en: string, de: string, it: string, fi: string)
    requires en != "" && de != "" && it != "" && fi != ""
    ensures SerializeMultilingualValues([("en", Bare(en)), ("de", Bare(de)), ("it", Bare(it)), ("fi", Bare(fi))], true) ==
      [(Idx(0), VArr([(LanguageField, VStr("en")), (ValueField, VStr(en))])),
       (Idx(1), VArr([(LanguageField, VStr("de")), (ValueField, VStr(de))])),
       (Idx(2), VArr([(LanguageField, VStr("it")), (ValueField, VStr(it))])),
       (Idx(3), VArr([(LanguageField, VStr("fi")), (ValueField, VStr(fi))]))]
  {
    var r := SerializeMultilingualValues([("en", Bare(en)), ("de", Bare(de)), ("it", Bare(it)), ("fi", Bare(fi))], true);
    BareFields("en", en, true);
    BareFields("de", de, true);
    BareFields("it", it, true);
    BareFields("fi", fi, true);
    assert r == [r[0], r[1], r[2], r[3]];
  }

  /** The record-mode row with records: one delivered in a base language,
      one converted from another variant, one delivered through a fallback
      with a source; record mode writes no `for-language`. */
  function RomeValues(rome: string, rom: string, zh: string): TermMap {
    [("en", Bare(rome)),
     ("de-formal", Record(rom, "de", None)),
     ("it", Bare("")),
     ("zh-tw", Record(zh, "zh-tw", Some("zh-cn"))),
     ("sr-ec", Record(rome, "en", Some("en")))]
  }

  lemma SerializeRecordsRecordMode(rome: string, rom: string, zh: string)
    requires rome != "" && rom != "" && zh != ""
    ensures SerializeMultilingualValues(RomeValues(rome, rom, zh), false) ==
      [(Name("en"), VArr([(LanguageField, VStr("en")), (ValueField, VStr(rome))])),
       (Name("de-formal"), VArr([(LanguageField, VStr("de")), (ValueField, VStr(rom))])),
       (Name("it"), VArr([(LanguageField, VStr("it")), (RemovedField, VStr(""))])),
       (Name("zh-tw"), VArr([(LanguageField, VStr("zh-tw")), (SourceField, VStr("zh-cn")), (ValueField, VStr(zh))])),
       (Name("sr-ec"), VArr([(LanguageField, VStr("en")), (SourceField, VStr("en")), (ValueField, VStr(rome))]))]
  {
    var r := SerializeMultilingualValues(RomeValues(rome, rom, zh), false);
    BareFields("en", rome, false);
    EmptyBareFields("it", false);
    RomeRecordFields(rome, rom, zh);
    assert r == [r[0], r[1], r[2], r[3], r[4]];
  }

  /** The record entries' objects in record mode. */
  lemma RomeRecordFields(rome: string, rom: string, zh: string)
    requires rome != "" && rom != "" && zh != ""
    ensures TermFields("de-formal", Record(rom, "de", None), false) == [(LanguageField, VStr("de")), (ValueField, VStr(rom))]
    ensures TermFields("zh-tw", Record(zh, "zh-tw", Some("zh-cn")), false) ==
      [(LanguageField, VStr("zh-tw")), (SourceField, VStr("zh-cn")), (ValueField, VStr(zh))]
    ensures TermFields("sr-ec", Record(rome, "en", Some("en")), false) ==
      [(LanguageField, VStr("en")), (SourceField, VStr("en")), (ValueField, VStr(rome))]
  {
  }

  /** The indexed-mode row with records, two of them empty:
      `for-language` names the key of every entry delivered in another
      language. */
  function RomeIndexedValues(rome: string, rom: string, zh: string): TermMap {
    [("en", Bare(rome)),
     ("de-formal", Record(rom, "de", None)),
     ("it", Bare("")),
     ("fr", Record("", "fr", None)),
     ("zh-tw", Record(zh, "zh-tw", Some("zh-cn"))),
     ("sr-ec", Record(rome, "en", Some("en")))]
  }

  lemma SerializeRecordsIndexedMode(rome: string, rom: string, zh: string)
    requires rome != "" && rom != "" && zh != ""
    ensures SerializeMultilingualValues(RomeIndexedValues(rome, rom, zh), true) ==
      [(Idx(0), VArr([(LanguageField, VStr("en")), (ValueField, VStr(rome))])),
       (Idx(1), VArr([(LanguageField, VStr("de")), (ForField, VStr("de-formal")), (ValueField, VStr(rom))])),
       (Idx(2), VArr([(LanguageField, VStr("it")), (RemovedField, VStr(""))])),
       (Idx(3), VArr([(LanguageField, VStr("fr")), (RemovedField, VStr(""))])),
       (Idx(4), VArr([(LanguageField, VStr("zh-tw")), (SourceField, VStr("zh-cn")), (ValueField, VStr(zh))])),
       (Idx(5), VArr([(LanguageField, VStr("en")), (SourceField, VStr("en")), (ForField, VStr("sr-ec")), (ValueField, VStr(rome))]))]
  {
    var r := SerializeMultilingualValues(RomeIndexedValues(rome, rom, zh), true);
    BareFields("en", rome, true);
    EmptyBareFields("it", true);
    RomeIndexedFields(rome, rom, zh);
    assert r == [r[0], r[1], r[2], r[3], r[4], r[5]];
  }

  /** The record entries' objects in indexed mode. */
  lemma RomeIndexedFields(rome: string, rom: string, zh: string)
    requires rome != "" && rom != "" && zh != ""
    ensures TermFields("de-formal", Record(rom, "de", None), true) ==
      [(LanguageField, VStr("de")), (ForField, VStr("de-formal")), (ValueField, VStr(rom))]
    ensures TermFields("fr", Record("", "fr", None), true) == [(LanguageField, VStr("fr")), (RemovedField, VStr(""))]
    ensures TermFields("zh-tw", Record(zh, "zh-tw", Some("zh-cn")), true) ==
      [(LanguageField, VStr("zh-tw")), (SourceField, VStr("zh-cn")), (ValueField, VStr(zh))]
    ensures TermFields("sr-ec", Record(rome, "en", Some("en")), true) ==
      [(LanguageField, VStr("en")), (SourceField, VStr("en")), (ForField, VStr("sr-ec")), (ValueField, VStr(rome))]
  {
  }

  /** A plain code list keeps the requested languages the map holds, each
      in its own language with no source, the empty text included; the
      requested language the map lacks and the unrequested one are dropped.
      The test compares the arrays without regard to order, so the lemma
      states the entries by key. */
  lemma FilterPlainCodes(en: string, de: string, fi: string, convert: Converter)
    ensures var r := FilterPreferredMultilingualValues(
        [("en", en), ("de", de), ("it", ""), ("fi", fi)], Some(Plain(["en", "it", "de", "fr"])), convert);
      && Lookup(r, "en") == Some(Record(en, "en", None))
      && Lookup(r, "de") == Some(Record(de, "de", None))
      && Lookup(r, "it") == Some(Record("", "it", None))
      && !HasKey(r, "fr") && !HasKey(r, "fi")
      && forall k :: HasKey(r, k) ==> k in ["en", "it", "de", "fr"]
  {
    var m := [("en", en), ("de", de), ("it", ""), ("fi", fi)];
    var codes := ["en", "it", "de", "fr"];
    LookupFirst(m, 0, "en");
    LookupFirst(m, 1, "de");
    LookupFirst(m, 2, "it");
    assert !HasKey(m, "fr") by {
      assert forall j :: 0 <= j < |m| ==> m[j].0 != "fr";
    }
    assert "fi" !in codes;
    PlainLookup(m, codes, "en");
    PlainLookup(m, codes, "de");
    PlainLookup(m, codes, "it");
    PlainLookup(m, codes, "fr");
    PlainLookup(m, codes, "fi");
  }

  /** What a plain code list yields for one key. */
  lemma PlainLookup(m: TextMap, codes: seq<string>, k: string)
    ensures Lookup(FilterPlain(m, codes), k) ==
      if k in codes && HasKey(m, k) then Some(Record(Lookup(m, k).value, k, None)) else None
  {
    var r := FilterPlain(m, codes);
    assert Lookup(r, k).Some? <==> HasKey(r, k);
  }

  /** The stored texts of the second filter row. */
  function RomeTexts(en: string, de: string, fi: string, zh: string, gan: string): TextMap {
    [("en", en), ("de", de), ("fi", fi), ("zh-tw", zh), ("gan-hant", gan)]
  }

  /** The chains of the second filter row, abridged to the candidates that
      matter for these texts: `de-formal` falls back to `de`, then `en`;
      `zh-cn` may be converted from `zh-tw`; the chain for `fr` under the
      key `key-fr` falls back to `en`; the self-only chain for `zh-cn`
      under the key `sr-ec`; and `gan-hant` itself. */
  const RomeChains: seq<(string, Chain)> :=
    [("de-formal", DeFormalChain), ("zh-cn", ZhCnChain), ("key-fr", FrChain), ("sr-ec", ZhCnSelf), ("gan-hant", GanHantChain)]

  const DeFormalChain: Chain := [Candidate("de-formal", None), Candidate("de", None), Candidate("en", None)]
  const ZhCnChain: Chain := [Candidate("zh-cn", None), Candidate("zh-cn", Some("zh-tw")), Candidate("en", None)]
  const FrChain: Chain := [Candidate("fr", None), Candidate("en", None)]
  const ZhCnSelf: Chain := [Candidate("zh-cn", None)]
  const GanHantChain: Chain := [Candidate("gan-hant", None), Candidate("gan-hant", Some("gan-hans")), Candidate("gan", None)]

  /** Each key gets the first candidate of its chain the map holds, in that
      candidate's language; the converted one reports its source and
      carries the converter's text; the key whose chain finds nothing is
      left out. */
  lemma FilterFallbackChains(en: string, de: string, fi: string, zh: string, gan: string, convert: Converter)
    ensures var r := FilterPreferredMultilingualValues(RomeTexts(en, de, fi, zh, gan), Some(Fallback(RomeChains)), convert);
      && Lookup(r, "de-formal") == Some(Record(de, "de", None))
      && Lookup(r, "zh-cn") == Some(Record(convert("zh-cn", "zh-tw", zh), "zh-cn", Some("zh-tw")))
      && Lookup(r, "key-fr") == Some(Record(en, "en", None))
      && Lookup(r, "gan-hant") == Some(Record(gan, "gan-hant", None))
      && !HasKey(r, "sr-ec")
      && forall j :: 0 <= j < |r| ==> r[j].0 in ["de-formal", "zh-cn", "key-fr", "sr-ec", "gan-hant"]
  {
    RomeChainsDistinct();
    RomeChainsLookups(en, de, fi, zh, gan, convert);
  }

  lemma RomeChainsLookups(en: string, de: string, fi: string, zh: string, gan: string, convert: Converter)
    ensures var r := FilterChains(RomeTexts(en, de, fi, zh, gan), RomeChains, convert);
      && Lookup(r, "de-formal") == Some(Record(de, "de", None))
      && Lookup(r, "zh-cn") == Some(Record(convert("zh-cn", "zh-tw", zh), "zh-cn", Some("zh-tw")))
      && Lookup(r, "key-fr") == Some(Record(en, "en", None))
      && Lookup(r, "gan-hant") == Some(Record(gan, "gan-hant", None))
      && Lookup(r, "sr-ec") == None
  {
    var m := RomeTexts(en, de, fi, zh, gan);
    var r := FilterChains(m, RomeChains, convert);
    RomeChainsDistinct();
    RomeChainsPreferred(en, de, fi, zh, gan, convert);
    assert Lookup(r, RomeChains[0].0) == Preferred(RomeChains[0].1, m, convert);
    assert Lookup(r, RomeChains[1].0) == Preferred(RomeChains[1].1, m, convert);
    assert Lookup(r, RomeChains[2].0) == Preferred(RomeChains[2].1, m, convert);
    assert Lookup(r, RomeChains[3].0) == Preferred(RomeChains[3].1, m, convert);
    assert Lookup(r, RomeChains[4].0) == Preferred(RomeChains[4].1, m, convert);
  }

  lemma RomeChainsDistinct()
    ensures UniqueKeys(RomeChains)
    ensures KeysOf(RomeChains) == ["de-formal", "zh-cn", "key-fr", "sr-ec", "gan-hant"]
  {
  }

  lemma RomeTextsLookups(en: string, de: string, fi: string, zh: string, gan: string)
    ensures var m := RomeTexts(en, de, fi, zh, gan);
      && Lookup(m, "de") == Some(de) && Lookup(m, "en") == Some(en)
      && Lookup(m, "zh-tw") == Some(zh) && Lookup(m, "gan-hant") == Some(gan)
      && Lookup(m, "de-formal") == None && Lookup(m, "zh-cn") == None && Lookup(m, "fr") == None
  {
    var m := RomeTexts(en, de, fi, zh, gan);
    LookupFirst(m, 0, "en");
    LookupFirst(m, 1, "de");
    LookupFirst(m, 3, "zh-tw");
    LookupFirst(m, 4, "gan-hant");
    assert forall j :: 0 <= j < |m| ==> m[j].0 != "de-formal" && m[j].0 != "zh-cn" && m[j].0 != "fr";
  }

  lemma RomeChainsPreferred(en: string, de: string, fi: string, zh: string, gan: string, convert: Converter)
    ensures var m := RomeTexts(en, de, fi, zh, gan);
      && Preferred(DeFormalChain, m, convert) == Some(Record(de, "de", None))
      && Preferred(ZhCnChain, m, convert) == Some(Record(convert("zh-cn", "zh-tw", zh), "zh-cn", Some("zh-tw")))
      && Preferred(FrChain, m, convert) == Some(Record(en, "en", None))
      && Preferred(ZhCnSelf, m, convert) == None
      && Preferred(GanHantChain, m, convert) == Some(Record(gan, "gan-hant", None))
  {
    var m := RomeTexts(en, de, fi, zh, gan);
    RomeTextsLookups(en, de, fi, zh, gan);
    SecondMatches(DeFormalChain, m, convert);
    SecondMatches(ZhCnChain, m, convert);
    SecondMatches(FrChain, m, convert);
    FirstMatches(GanHantChain, m, convert);
    NoMatch(ZhCnSelf, m, convert);
  }

  lemma NoMatch(chain: Chain, m: TextMap, convert: Converter)
    requires |chain| == 1 && Lookup(m, chain[0].FetchCode()).None?
    ensures Preferred(chain, m, convert) == None
  {
    assert FirstMatch(chain[1..], m) == None;
  }

  lemma FirstMatches(chain: Chain, m: TextMap, convert: Converter)
    requires 0 < |chain| && Lookup(m, chain[0].FetchCode()).Some?
    ensures Preferred(chain, m, convert) == Some(Deliver(chain[0], Lookup(m, chain[0].FetchCode()).value, convert))
  {
  }

  lemma SecondMatches(chain: Chain, m: TextMap, convert: Converter)
    requires 1 < |chain| && Lookup(m, chain[0].FetchCode()).None? && Lookup(m, chain[1].FetchCode()).Some?
    ensures Preferred(chain, m, convert) == Some(Deliver(chain[1], Lookup(m, chain[1].FetchCode()).value, convert))
  {
    assert FirstMatch(chain, m) == FirstMatch(chain[1..], m);
  }
}
