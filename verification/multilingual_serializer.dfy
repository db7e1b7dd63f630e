/** The multilingual value serializer: full projection of a term map into
    the result format, and the filter that picks one preferred value per
    requested language, directly or through a fallback chain.
    The serializer class itself is not part of this model; its behaviour is
    fixed here by the rows of its unit test. */
module MultilingualSerializer {
  import opened Wrappers
  import opened OrderedMaps
  import opened PhpValues
  import opened SerializationOptions

  /** A stored term: bare text filed under its own language, or a record
      giving the language the text is really in and, if the text was
      converted, the language it was converted from. */
  datatype TermValue =
    | Bare(text: string)
    | Record(value: string, language: string, source: Option<string>)
  {
    function Text(): string {
      match this
      case Bare(t) => t
      case Record(v, _, _) => v
    }
  }

  /** Request key (a language or variant code) to term, in insertion order. */
  type TermMap = seq<(string, TermValue)>

  /** Language code to plain text: what the filter reads. */
  type TextMap = seq<(string, string)>

  /** Script or variant conversion: (target language, source language, text). */
  type Converter = (string, string, string) -> string

  function LanguageOf(key: string, tv: TermValue): string {
    if tv.Bare? then key else tv.language
  }

  const LanguageField: Key := Name("language")
  const SourceField: Key := Name("source-language")
  const ForField: Key := Name("for-language")
  const ValueField: Key := Name("value")
  const RemovedField: Key := Name("removed")

  predicate IsTermField(k: Key) {
    k == LanguageField || k == SourceField || k == ForField || k == ValueField || k == RemovedField
  }

  /** The five field names differ (already in their lengths). */
  lemma FieldNamesDistinct()
    ensures LanguageField != SourceField && LanguageField != ForField && LanguageField != ValueField
    ensures LanguageField != RemovedField && SourceField != ForField && SourceField != ValueField
    ensures SourceField != RemovedField && ForField != ValueField && ForField != RemovedField
    ensures ValueField != RemovedField
  {
    assert |LanguageField.s| == 8 && |SourceField.s| == 15 && |ForField.s| == 12;
    assert |ValueField.s| == 5 && |RemovedField.s| == 7;
  }

  /** The `language` field, and `source-language` when the record has a
      source. */
  function LanguageAndSource(key: string, tv: TermValue): (h: Entries)
    ensures UniqueKeys(h)
    ensures forall e :: e in h ==> e.0 == LanguageField || e.0 == SourceField
    ensures Lookup(h, LanguageField) == Some(VStr(LanguageOf(key, tv)))
    ensures Lookup(h, SourceField) ==
      (if tv.Record? && tv.source.Some? then Some(VStr(tv.source.value)) else None)
  {
    FieldNamesDistinct();
    var withLanguage: Entries := [(LanguageField, VStr(LanguageOf(key, tv)))];
    assert Lookup(withLanguage, SourceField) == None;
    if tv.Record? && tv.source.Some? then Put(withLanguage, SourceField, VStr(tv.source.value))
    else withLanguage
  }

  /** The fields before the text: language, source and, in indexed mode,
      `for-language` when the language is not the key. */
  function TermHead(key: string, tv: TermValue, indexTags: bool): (h: Entries)
    ensures UniqueKeys(h)
    ensures forall e :: e in h ==> e.0 == LanguageField || e.0 == SourceField || e.0 == ForField
    ensures Lookup(h, LanguageField) == Some(VStr(LanguageOf(key, tv)))
    ensures Lookup(h, SourceField) ==
      (if tv.Record? && tv.source.Some? then Some(VStr(tv.source.value)) else None)
    ensures Lookup(h, ForField) ==
      (if indexTags && LanguageOf(key, tv) != key then Some(VStr(key)) else None)
  {
    FieldNamesDistinct();
    var ls := LanguageAndSource(key, tv);
    assert Lookup(ls, ForField) == None;
    if indexTags && LanguageOf(key, tv) != key then Put(ls, ForField, VStr(key)) else ls
  }

  /** The output object for one entry, as the serializer assigns it one
      field at a time: the head fields, then the text as `value`, or the
      empty text as a `removed` marker. */
  function AssignedFields(key: string, tv: TermValue, indexTags: bool): Entries {
    var head := TermHead(key, tv, indexTags);
    if tv.Text() == "" then Put(head, RemovedField, VStr(""))
    else Put(head, ValueField, VStr(tv.Text()))
  }

  /** The output object for one entry, written out in field order. */
  function TermFields(key: string, tv: TermValue, indexTags: bool): Entries {
    [(LanguageField, VStr(LanguageOf(key, tv)))]
    + (if tv.Record? && tv.source.Some? then [(SourceField, VStr(tv.source.value))] else [])
    + (if indexTags && LanguageOf(key, tv) != key then [(ForField, VStr(key))] else [])
    + [if tv.Text() == "" then (RemovedField, VStr("")) else (ValueField, VStr(tv.Text()))]
  }

  /** What the output object for (key, tv) must say, field by field:
      its language; the empty text as a `removed` marker instead of a
      `value`; a `source-language` exactly when the record has a source;
      a `for-language` exactly in indexed mode when the language is not
      the key; and no other field. */
  ghost predicate DescribesTerm(fs: Entries, key: string, tv: TermValue, indexTags: bool) {
    && UniqueKeys(fs)
    && (forall i :: 0 <= i < |fs| ==> IsTermField(fs[i].0))
    && Lookup(fs, LanguageField) == Some(VStr(LanguageOf(key, tv)))
    && (tv.Text() == "" ==> Lookup(fs, RemovedField) == Some(VStr("")) && !HasKey(fs, ValueField))
    && (tv.Text() != "" ==> Lookup(fs, ValueField) == Some(VStr(tv.Text())) && !HasKey(fs, RemovedField))
    && Lookup(fs, SourceField) ==
         (if tv.Record? && tv.source.Some? then Some(VStr(tv.source.value)) else None)
    && Lookup(fs, ForField) ==
         (if indexTags && LanguageOf(key, tv) != key then Some(VStr(key)) else None)
  }

  lemma TermFieldsDescribe(key: string, tv: TermValue, indexTags: bool)
    ensures DescribesTerm(TermFields(key, tv, indexTags), key, tv, indexTags)
  {
    AssignedFieldsInOrder(key, tv, indexTags);
    AssignedFieldsDescribe(key, tv, indexTags);
  }

  lemma AssignedFieldsDescribe(key: string, tv: TermValue, indexTags: bool)
    ensures DescribesTerm(AssignedFields(key, tv, indexTags), key, tv, indexTags)
  {
    FieldNamesDistinct();
    var head := TermHead(key, tv, indexTags);
    assert Lookup(head, ValueField) == None && Lookup(head, RemovedField) == None;
    var fs := AssignedFields(key, tv, indexTags);
    forall i | 0 <= i < |fs|
      ensures IsTermField(fs[i].0)
    {
      assert fs[i] in fs;
    }
  }

  /** Assigning the fields one at a time lays them out in field order:
      `language`, then `source-language` if any, then `for-language` if
      any, and last the text as `value` or the `removed` marker. */
  lemma AssignedFieldsInOrder(key: string, tv: TermValue, indexTags: bool)
    ensures AssignedFields(key, tv, indexTags) == TermFields(key, tv, indexTags)
  {
    HeadOrder(key, tv, indexTags);
    var head := TermHead(key, tv, indexTags);
    FieldNamesDistinct();
    assert !HasKey(head, ValueField) && !HasKey(head, RemovedField);
  }

  lemma HeadOrder(key: string, tv: TermValue, indexTags: bool)
    ensures TermHead(key, tv, indexTags) ==
      [(LanguageField, VStr(LanguageOf(key, tv)))]
      + (if tv.Record? && tv.source.Some? then [(SourceField, VStr(tv.source.value))] else [])
      + (if indexTags && LanguageOf(key, tv) != key then [(ForField, VStr(key))] else [])
  {
    LanguageAndSourceOrder(key, tv);
    FieldNamesDistinct();
    assert !HasKey(LanguageAndSource(key, tv), ForField);
  }

  lemma LanguageAndSourceOrder(key: string, tv: TermValue)
    ensures LanguageAndSource(key, tv) ==
      [(LanguageField, VStr(LanguageOf(key, tv)))]
      + (if tv.Record? && tv.source.Some? then [(SourceField, VStr(tv.source.value))] else [])
  {
    FieldNamesDistinct();
    var withLanguage: Entries := [(LanguageField, VStr(LanguageOf(key, tv)))];
    assert !HasKey(withLanguage, SourceField);
  }

  /** `serializeMultilingualValues`: one output object per entry, in map
      order, keyed by the entry's key in record mode and by position in
      indexed mode. */
  function SerializeMultilingualValues(m: TermMap, indexTags: bool): (r: Entries)
    ensures |r| == |m|
    ensures forall i :: 0 <= i < |m| ==> r[i].0 == (if indexTags then Idx(i) else Name(m[i].0))
    ensures forall i :: 0 <= i < |m| ==> r[i].1.VArr?
    ensures UniqueKeys(m) ==> UniqueKeys(r)
  {
    seq(|m|, i requires 0 <= i < |m| =>
      (if indexTags then Idx(i) else Name(m[i].0), VArr(TermFields(m[i].0, m[i].1, indexTags))))
  }

  /** Each serialized object describes its entry. */
  lemma SerializedDescribes(m: TermMap, indexTags: bool, i: int)
    requires 0 <= i < |m|
    ensures DescribesTerm(SerializeMultilingualValues(m, indexTags)[i].1.entries, m[i].0, m[i].1, indexTags)
  {
    TermFieldsDescribe(m[i].0, m[i].1, indexTags);
  }

  /** `for-language` appears only in indexed mode, and there exactly for
      the entries whose language is not their key. */
  lemma ForLanguageSymmetry(m: TermMap, indexTags: bool, i: int)
    requires 0 <= i < |m|
    ensures var fs := SerializeMultilingualValues(m, indexTags)[i].1.entries;
      HasKey(fs, ForField) <==> indexTags && LanguageOf(m[i].0, m[i].1) != m[i].0
  {
    var fs := SerializeMultilingualValues(m, indexTags)[i].1.entries;
    SerializedDescribes(m, indexTags, i);
    assert Lookup(fs, ForField).Some? <==> HasKey(fs, ForField);
  }

  /** The first candidate of the chain whose fetch code the map holds, with
      the text found there. */
  function FirstMatch(chain: Chain, m: TextMap): (r: Option<(Candidate, string)>)
    ensures r.None? <==> forall c :: c in chain ==> !HasKey(m, c.FetchCode())
    ensures r.Some? ==> Lookup(m, r.value.0.FetchCode()) == Some(r.value.1)
    ensures r.Some? ==>
      exists i :: 0 <= i < |chain| && chain[i] == r.value.0 &&
        forall j :: 0 <= j < i ==> !HasKey(m, chain[j].FetchCode())
    decreases |chain|
  {
    if |chain| == 0 then None
    else
      var c := chain[0];
      var found := Lookup(m, c.FetchCode());
      if found.Some? then Some((c, found.value))
      else
        var r := FirstMatch(chain[1..], m);
        assert forall x :: x in chain <==> x == c || x in chain[1..];
        if r.Some? then
          var i :| 0 <= i < |chain[1..]| && chain[1..][i] == r.value.0 &&
            forall j :: 0 <= j < i ==> !HasKey(m, chain[1..][j].FetchCode());
          assert chain[i + 1] == r.value.0;
          assert forall j :: 0 <= j < i + 1 ==> !HasKey(m, chain[j].FetchCode()) by {
            forall j | 0 <= j < i + 1
              ensures !HasKey(m, chain[j].FetchCode())
            {
              if j > 0 {
                assert chain[j] == chain[1..][j - 1];
              }
            }
          }
          r
        else
          r
  }

  /** The record a matched candidate yields: the text, converted when the
      candidate names a source language, with that source reported. */
  function Deliver(c: Candidate, text: string, convert: Converter): TermValue {
    Record(if c.source.Some? then convert(c.language, c.source.value, text) else text, c.language, c.source)
  }

  function Preferred(chain: Chain, m: TextMap, convert: Converter): Option<TermValue> {
    match FirstMatch(chain, m)
    case None => None
    case Some(p) => Some(Deliver(p.0, p.1, convert))
  }

  /** Filtering through fallback chains: each requested key gets the value
      of the first candidate of its chain the map holds, and is left out
      when none is held. */
  function FilterChains(m: TextMap, chains: seq<(string, Chain)>, convert: Converter): (r: TermMap)
    ensures UniqueKeys(r)
    ensures forall j :: 0 <= j < |r| ==> r[j].0 in KeysOf(chains)
    ensures UniqueKeys(chains) ==>
      forall i :: 0 <= i < |chains| ==> Lookup(r, chains[i].0) == Preferred(chains[i].1, m, convert)
    decreases |chains|
  {
    if |chains| == 0 then []
    else
      var front := chains[..|chains| - 1];
      var pre := FilterChains(m, front, convert);
      var last := chains[|chains| - 1];
      var tv := Preferred(last.1, m, convert);
      var r := if tv.Some? then Put(pre, last.0, tv.value) else pre;
      FilterChainsStep(pre, front, chains, r, tv, m, convert);
      r
  }

  lemma FilterChainsStep(pre: TermMap, front: seq<(string, Chain)>, chains: seq<(string, Chain)>,
                         r: TermMap, tv: Option<TermValue>, m: TextMap, convert: Converter)
    requires |chains| > 0 && front == chains[..|chains| - 1]
    requires forall j :: 0 <= j < |pre| ==> pre[j].0 in KeysOf(front)
    requires UniqueKeys(front) ==>
      forall i :: 0 <= i < |front| ==> Lookup(pre, front[i].0) == Preferred(front[i].1, m, convert)
    requires tv == Preferred(chains[|chains| - 1].1, m, convert)
    requires r == if tv.Some? then Put(pre, chains[|chains| - 1].0, tv.value) else pre
    ensures forall j :: 0 <= j < |r| ==> r[j].0 in KeysOf(chains)
    ensures UniqueKeys(chains) ==>
      forall i :: 0 <= i < |chains| ==> Lookup(r, chains[i].0) == Preferred(chains[i].1, m, convert)
  {
    var last := chains[|chains| - 1];
    assert KeysOf(chains) == KeysOf(front) + [last.0];
    FilterChainsKeys(pre, front, chains, r, tv);
    if UniqueKeys(chains) {
      FilterChainsLookups(pre, front, chains, r, tv, m, convert);
    }
  }

  lemma FilterChainsKeys(pre: TermMap, front: seq<(string, Chain)>, chains: seq<(string, Chain)>,
                         r: TermMap, tv: Option<TermValue>)
    requires |chains| > 0 && front == chains[..|chains| - 1]
    requires forall j :: 0 <= j < |pre| ==> pre[j].0 in KeysOf(front)
    requires r == if tv.Some? then Put(pre, chains[|chains| - 1].0, tv.value) else pre
    ensures forall j :: 0 <= j < |r| ==> r[j].0 in KeysOf(chains)
  {
    var last := chains[|chains| - 1];
    assert KeysOf(chains) == KeysOf(front) + [last.0];
    forall j | 0 <= j < |r|
      ensures r[j].0 in KeysOf(chains)
    {
      assert r[j] in r;
      if r[j] !in pre {
        assert r[j].0 == last.0;
      } else {
        var t :| 0 <= t < |pre| && pre[t] == r[j];
      }
    }
  }

  lemma FilterChainsLookups(pre: TermMap, front: seq<(string, Chain)>, chains: seq<(string, Chain)>,
                            r: TermMap, tv: Option<TermValue>, m: TextMap, convert: Converter)
    requires |chains| > 0 && front == chains[..|chains| - 1]
    requires UniqueKeys(chains)
    requires forall j :: 0 <= j < |pre| ==> pre[j].0 in KeysOf(front)
    requires UniqueKeys(front) ==>
      forall i :: 0 <= i < |front| ==> Lookup(pre, front[i].0) == Preferred(front[i].1, m, convert)
    requires tv == Preferred(chains[|chains| - 1].1, m, convert)
    requires r == if tv.Some? then Put(pre, chains[|chains| - 1].0, tv.value) else pre
    ensures forall i :: 0 <= i < |chains| ==> Lookup(r, chains[i].0) == Preferred(chains[i].1, m, convert)
  {
    var last := chains[|chains| - 1];
    assert UniqueKeys(front);
    forall i | 0 <= i < |front|
      ensures front[i].0 != last.0
    {
      assert front[i] == chains[i];
    }
    forall j | 0 <= j < |pre|
      ensures pre[j].0 != last.0
    {
      var i :| 0 <= i < |front| && KeysOf(front)[i] == pre[j].0;
    }
    assert !HasKey(pre, last.0);
    forall i | 0 <= i < |chains|
      ensures Lookup(r, chains[i].0) == Preferred(chains[i].1, m, convert)
    {
      if i < |chains| - 1 {
        assert chains[i] == front[i];
      }
    }
  }

  /** Filtering by a plain list of codes: each requested code the map holds
      yields its text unchanged, in that language, with no source. */
  function FilterPlain(m: TextMap, codes: seq<string>): (r: TermMap)
    ensures UniqueKeys(r)
    ensures forall k :: HasKey(r, k) <==> k in codes && HasKey(m, k)
    ensures forall k :: HasKey(r, k) ==>
      Lookup(m, k).Some? && Lookup(r, k) == Some(Record(Lookup(m, k).value, k, None))
    decreases |codes|
  {
    if |codes| == 0 then []
    else
      var front := codes[..|codes| - 1];
      var pre := FilterPlain(m, front);
      var c := codes[|codes| - 1];
      var found := Lookup(m, c);
      var r := if found.Some? then Put(pre, c, Record(found.value, c, None)) else pre;
      assert forall k :: k in codes <==> k in front || k == c by {
        assert codes == front + [c];
      }
      assert forall k :: HasKey(r, k) <==> k in codes && HasKey(m, k) by {
        forall k
          ensures HasKey(r, k) <==> k in codes && HasKey(m, k)
        {
          assert Lookup(r, k).Some? <==> HasKey(r, k);
          assert Lookup(pre, k).Some? <==> HasKey(pre, k);
          assert Lookup(m, k).Some? <==> HasKey(m, k);
        }
      }
      r
  }

  /** The self-only chain for each code: what a plain code list means. */
  function SelfChains(codes: seq<string>): (r: seq<(string, Chain)>)
    ensures |r| == |codes|
    ensures forall i :: 0 <= i < |codes| ==> r[i] == (codes[i], [Candidate(codes[i], None)])
  {
    seq(|codes|, i requires 0 <= i < |codes| => (codes[i], [Candidate(codes[i], None)]))
  }

  /** A plain code list filters exactly as the chains that try only the
      code itself. */
  lemma {:induction false} PlainIsSelfChains(m: TextMap, codes: seq<string>, convert: Converter)
    ensures FilterPlain(m, codes) == FilterChains(m, SelfChains(codes), convert)
    decreases |codes|
  {
    if |codes| > 0 {
      var front := codes[..|codes| - 1];
      PlainIsSelfChains(m, front, convert);
      assert SelfChains(codes)[..|codes| - 1] == SelfChains(front);
      var c := codes[|codes| - 1];
      var chain := [Candidate(c, None)];
      assert chain[0].FetchCode() == c;
      if HasKey(m, c) {
        assert FirstMatch(chain, m) == Some((chain[0], Lookup(m, c).value));
      } else {
        assert FirstMatch(chain, m) == None by {
          assert forall x :: x in chain ==> x == chain[0];
        }
      }
    }
  }

  /** `filterPreferredMultilingualValues`: with no language selection the
      values pass through as they are; otherwise one preferred value per
      requested key, keyed by that key. */
  function FilterPreferredMultilingualValues(m: TextMap, languages: Option<Languages>, convert: Converter): (r: TermMap)
    ensures languages.None? ==>
      |r| == |m| && forall i :: 0 <= i < |m| ==> r[i] == (m[i].0, Bare(m[i].1))
    ensures languages.Some? && languages.value.Plain? ==> r == FilterPlain(m, languages.value.codes)
    ensures languages.Some? && languages.value.Fallback? ==>
      r == FilterChains(m, languages.value.chains, convert)
  {
    match languages
    case None => seq(|m|, i requires 0 <= i < |m| => (m[i].0, Bare(m[i].1)))
    case Some(Plain(codes)) => FilterPlain(m, codes)
    case Some(Fallback(chains)) => FilterChains(m, chains, convert)
  }

  /** Filtering through chains and then serializing in indexed mode: every
      output object belongs to a requested key whose chain matched, and it
      carries `for-language` exactly when the matched candidate's language
      is not that key (a variant key served by its base language). */
  lemma FilterThenSerialize(m: TextMap, chains: seq<(string, Chain)>, convert: Converter, j: int)
    requires UniqueKeys(chains)
    requires 0 <= j < |FilterChains(m, chains, convert)|
    ensures var f := FilterChains(m, chains, convert);
      var fs := SerializeMultilingualValues(f, true)[j].1.entries;
      exists i :: 0 <= i < |chains| && chains[i].0 == f[j].0 &&
        FirstMatch(chains[i].1, m).Some? &&
        Lookup(fs, LanguageField) == Some(VStr(FirstMatch(chains[i].1, m).value.0.language)) &&
        (HasKey(fs, ForField) <==> FirstMatch(chains[i].1, m).value.0.language != chains[i].0)
  {
    var f := FilterChains(m, chains, convert);
    var fs := SerializeMultilingualValues(f, true)[j].1.entries;
    SerializedDescribes(f, true, j);
    assert f[j].0 in KeysOf(chains);
    var i :| 0 <= i < |chains| && KeysOf(chains)[i] == f[j].0;
    LookupAt(f, j);
    assert Preferred(chains[i].1, m, convert) == Some(f[j].1);
    assert Lookup(fs, ForField).Some? <==> HasKey(fs, ForField);
  }
}
