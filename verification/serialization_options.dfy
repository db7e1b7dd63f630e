/** The serialization options handed to serializers. The options class is
    not part of this model; it is represented as a record whose fields are
    either unset or explicitly set, so that merging can let the other
    side's set fields win and leave its unset ones alone. */
module SerializationOptions {
  import opened Wrappers

  datatype SortOrder = SortNone | SortAsc | SortDesc

  /** One step of a language fallback chain: the language a value is
      delivered in, and the language it is fetched and converted from when
      that is another one. */
  datatype Candidate = Candidate(language: string, source: Option<string>) {
    /** The map key the candidate reads. */
    function FetchCode(): string {
      source.OrElse(language)
    }
  }

  type Chain = seq<Candidate>

  /** The requested languages: a plain list of codes, or a fallback chain
      per output key. Leaving the option unset requests every language. */
  datatype Languages =
    | Plain(codes: seq<string>)
    | Fallback(chains: seq<(string, Chain)>)

  datatype Options = Options(
    languages: Option<Languages>,
    indexTags: Option<bool>,
    sortOrder: Option<SortOrder>,
    parts: Option<seq<string>>,
    groupByProperties: Option<seq<string>>)

  /** A fresh `SerializationOptions`: nothing set. */
  const Unset: Options := Options(None, None, None, None, None)

  function MergeField<T>(base: Option<T>, over: Option<T>): (r: Option<T>)
    ensures over.Some? ==> r == over
    ensures over.None? ==> r == base
  {
    if over.Some? then over else base
  }

  /** `$base->merge( $other )`: every field `other` set replaces the base's,
      every field it left unset keeps the base's value. */
  function Merge(base: Options, other: Options): (r: Options)
    ensures r.languages == MergeField(base.languages, other.languages)
    ensures r.indexTags == MergeField(base.indexTags, other.indexTags)
    ensures r.sortOrder == MergeField(base.sortOrder, other.sortOrder)
    ensures r.parts == MergeField(base.parts, other.parts)
    ensures r.groupByProperties == MergeField(base.groupByProperties, other.groupByProperties)
  {
    Options(
      MergeField(base.languages, other.languages),
      MergeField(base.indexTags, other.indexTags),
      MergeField(base.sortOrder, other.sortOrder),
      MergeField(base.parts, other.parts),
      MergeField(base.groupByProperties, other.groupByProperties))
  }

  /** Merging twice in a row is merging once with the merge of the two. */
  lemma MergeAssociative(a: Options, b: Options, c: Options)
    ensures Merge(Merge(a, b), c) == Merge(a, Merge(b, c))
  {
  }

  /** Merging an untouched option set changes nothing, and merging a set
      onto itself gives it back. */
  lemma MergeNeutral(a: Options)
    ensures Merge(a, Unset) == a && Merge(Unset, a) == a && Merge(a, a) == a
  {
  }

  function SetSortOrder(o: Options, s: SortOrder): (r: Options)
    ensures r.sortOrder == Some(s)
    ensures r == o.(sortOrder := r.sortOrder)
  {
    o.(sortOrder := Some(s))
  }

  /** `addToOption( OPT_PARTS, part )`: the part is added to the set of
      parts (an unset parts option counts as empty); nothing else moves. */
  function AddToParts(o: Options, part: string): (r: Options)
    ensures r.parts.Some? && part in r.parts.value
    ensures forall p :: p in o.parts.OrElse([]) ==> p in r.parts.value
    ensures forall p :: p in r.parts.value ==> p == part || p in o.parts.OrElse([])
    ensures r == o.(parts := r.parts)
  {
    var current := o.parts.OrElse([]);
    o.(parts := Some(if part in current then current else current + [part]))
  }
}
