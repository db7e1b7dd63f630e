/** `ResultBuilder`: the one place where the entity API modules write into
    the API result. The builder keeps the result tree, whether the result is
    in raw (indexed, XML-style) mode, its own serialization options (created
    on first use) and the counter that numbers missing entities without a
    key. Every operation returns the new builder, or the error that PHP
    raises as an exception. */
module ResultBuilder {
  import opened Wrappers
  import opened OrderedMaps
  import opened PhpValues
  import opened ApiTree
  import opened SerializationOptions

  datatype EntityId = EntityId(serialization: string, entityType: string)

  /** An entity is opaque to the builder apart from its id. */
  datatype Entity = Entity(id: EntityId, content: Value)

  datatype EntityRevision = EntityRevision(entity: Entity, revision: int, timestamp: string)

  datatype Title = Title(articleId: int, namespace: int, prefixedText: string)

  /** The builder's collaborators: the title lookup, `wfTimestamp` in ISO
      8601 form, and one serializer per kind of data, each a function of
      the options it is created with. */
  datatype Services = Services(
    titleFor: EntityId -> Title,
    isoTimestamp: string -> string,
    serializeEntity: (Options, Entity) -> Entries,
    serializeLabels: (Options, Value) -> Entries,
    serializeDescriptions: (Options, Value) -> Entries,
    serializeAliases: (Options, Value) -> Entries,
    serializeSiteLinks: (Options, Value) -> Entries,
    serializeClaims: (Options, Value) -> Entries,
    serializeClaim: (Options, Value) -> Value,
    serializeReference: (Options, Value) -> Value)

  datatype Builder = Builder(data: Entries, raw: bool, options: Option<Options>, missingCounter: int)

  datatype BuildError =
    | InvalidArgument(message: string)
      /** ApiResult could not place the value (a scalar in the way, or a
          path element that cannot be an array key). */
    | ResultConflict
      /** A method called on something that is not an object: a PHP fatal
          error. */
    | NotAnObject

  const PathMessage := "$path must be an array (or null)"
  const NameMessage := "$name must be a string"
  const KeyMessage := "$key must be a string, int, or null"
  const TagMessage := "$tag must be a string"
  const ListMessage := "$value must not be a list"
  const SuccessMessage := "$wasSuccess must evaluate to either 1 or 0 when using intval()"

  /** The key every entity record and missing entity is written under. */
  const EntitiesPath: Path := [Name("entities")]

  /** A builder over `data`; the first keyless missing entity gets -1. */
  function NewBuilder(data: Entries, raw: bool): Builder {
    Builder(data, raw, None, -1)
  }

  // ---------------------------------------------------------------------
  // Options

  /** The options `getOptions` creates on first use. */
  function DefaultOptions(raw: bool): Options {
    Unset.(indexTags := Some(raw), sortOrder := Some(SortNone))
  }

  /** `getOptions`: the builder's options, created on the first call with
      tags indexed exactly in raw mode and no sorting. */
  function GetOptions(b: Builder): (r: (Builder, Options))
    ensures r.0.options == Some(r.1)
    ensures r.0 == b.(options := r.0.options)
    ensures b.options.Some? ==> r.1 == b.options.value
    ensures b.options.None? ==>
      r.1.indexTags == Some(b.raw) && r.1.sortOrder == Some(SortNone) &&
      r.1.languages.None? && r.1.parts.None? && r.1.groupByProperties.None?
  {
    var o := if b.options.Some? then b.options.value else DefaultOptions(b.raw);
    (b.(options := Some(o)), o)
  }

  /** Asking for the options again changes nothing and returns the same
      object. */
  lemma GetOptionsIdempotent(b: Builder)
    ensures GetOptions(GetOptions(b).0) == GetOptions(b)
  {
  }

  // ---------------------------------------------------------------------
  // Argument checks

  /** `checkPathType`: a string stands for a one-step path; arrays and null
      pass; anything else is refused. */
  predicate PathTypeOk(path: Value) {
    path.VNull? || path.VStr? || path.VArr?
  }

  /** `checkKeyType`. */
  predicate KeyTypeOk(key: Value) {
    key.VNull? || key.VStr? || key.VInt?
  }

  /** The array key a PHP value names, when it can name one. */
  function KeyOfValue(v: Value): (r: Option<Key>)
    ensures r.Some? <==> v.VStr? || v.VInt?
    ensures v.VStr? ==> r == Some(Name(v.s))
    ensures v.VInt? ==> r == Some(Idx(v.i))
  {
    match v
    case VStr(s) => Some(Name(s))
    case VInt(i) => Some(Idx(i))
    case _ => None
  }

  /** The keys an array path lists, in order, if each can be a key. */
  function PathKeys(es: Entries): (r: Option<Path>)
    ensures r.Some? <==> forall i :: 0 <= i < |es| ==> KeyOfValue(es[i].1).Some?
    ensures r.Some? ==> |r.value| == |es|
    ensures r.Some? ==> forall i :: 0 <= i < |es| ==> Some(r.value[i]) == KeyOfValue(es[i].1)
  {
    if |es| == 0 then Some([])
    else
      match (KeyOfValue(es[0].1), PathKeys(es[1..]))
      case (Some(k), Some(rest)) => Some([k] + rest)
      case _ => None
  }

  /** The path ApiResult walks for a path argument. */
  function PathOf(path: Value): (r: Option<Path>)
    ensures path.VNull? ==> r == Some([])
    ensures path.VStr? ==> r == Some([Name(path.s)])
    ensures path.VArr? ==> r == PathKeys(path.entries)
    ensures !PathTypeOk(path) ==> r.None?
  {
    match path
    case VNull => Some([])
    case VStr(s) => Some([Name(s)])
    case VArr(es) => PathKeys(es)
    case _ => None
  }

  /** ApiResult can write below this path argument. */
  ghost predicate Placeable(data: Entries, path: Value) {
    PathOf(path).Some? && !Blocked(data, PathOf(path).value)
  }

  // ---------------------------------------------------------------------
  // Writing

  /** `ApiResult::addValue` on the builder's tree. */
  function Place(b: Builder, p: Path, name: Option<Key>, v: Value): (r: Result<Builder, BuildError>)
    ensures r.Err? <==> Blocked(b.data, p)
    ensures r.Err? ==> r.error == ResultConflict
    ensures r.Ok? ==> r.value == b.(data := r.value.data)
    ensures r.Ok? ==> Get(VArr(r.value.data), p) == Some(VArr(Written(NodeAt(b.data, p), name, v)))
    ensures r.Ok? ==> OffPathSame(b.data, r.value.data, p)
  {
    match AddValue(b.data, p, name, v)
    case Ok(d) => Ok(b.(data := d))
    case Err(_) => Err(ResultConflict)
  }

  /** `after` is `before` with `v` stored under `k` in the node at `p`:
      readable there, every other key of the node as it was, nothing off
      the path touched. */
  ghost predicate StoredAt(before: Entries, after: Entries, p: Path, k: Key, v: Value) {
    Get(VArr(after), p + [k]) == Some(v) &&
    (forall k' :: k' != k ==> Lookup(NodeAt(after, p), k') == Lookup(NodeAt(before, p), k')) &&
    KeepsKeys(before, after, p) &&
    OffPathSame(before, after, p)
  }

  /** `setValue`. */
  function SetValue(b: Builder, path: Value, name: Value, value: Value): (r: Result<Builder, BuildError>)
    ensures !PathTypeOk(path) ==> r == Err(InvalidArgument(PathMessage))
    ensures PathTypeOk(path) && !name.VStr? ==> r == Err(InvalidArgument(NameMessage))
    ensures PathTypeOk(path) && name.VStr? && IsList(value) ==> r == Err(InvalidArgument(ListMessage))
    ensures r.Ok? <==> PathTypeOk(path) && name.VStr? && !IsList(value) && Placeable(b.data, path)
    ensures r.Ok? ==> r.value == b.(data := r.value.data)
    ensures r.Ok? ==> StoredAt(b.data, r.value.data, PathOf(path).value, Name(name.s), value)
  {
    if !PathTypeOk(path) then Err(InvalidArgument(PathMessage))
    else if !name.VStr? then Err(InvalidArgument(NameMessage))
    else if IsList(value) then Err(InvalidArgument(ListMessage))
    else if PathOf(path).None? then Err(ResultConflict)
    else
      var p := PathOf(path).value;
      var r := Place(b, p, Some(Name(name.s)), value);
      if r.Err? then r
      else
        ReadAfterWrite(b.data, r.value.data, p, Some(Name(name.s)), value);
        r
  }

  /** The array `setList` stores for `values`: as given, or in raw mode the
      values without their `_element` entry, renumbered from 0 in order,
      with the tag recorded instead. */
  function StoredList(values: Entries, tag: string, raw: bool): (r: Entries)
    ensures !raw ==> r == values
    ensures raw ==> Lookup(r, ElementKey) == Some(VStr(tag))
    ensures raw ==> var kept := RemoveKey(values, ElementKey);
      |r| == |kept| + 1 &&
      forall i :: 0 <= i < |kept| ==> r[i] == (Idx(i), kept[i].1)
  {
    if raw then Put(ArrayValues(RemoveKey(values, ElementKey)), ElementKey, VStr(tag))
    else values
  }

  /** `setList`. */
  function SetList(b: Builder, path: Value, name: Value, values: Entries, tag: Value): (r: Result<Builder, BuildError>)
    ensures !PathTypeOk(path) ==> r == Err(InvalidArgument(PathMessage))
    ensures PathTypeOk(path) && !name.VStr? ==> r == Err(InvalidArgument(NameMessage))
    ensures PathTypeOk(path) && name.VStr? && !tag.VStr? ==> r == Err(InvalidArgument(TagMessage))
    ensures r.Ok? <==> PathTypeOk(path) && name.VStr? && tag.VStr? && Placeable(b.data, path)
    ensures r.Ok? ==> r.value == b.(data := r.value.data)
    ensures r.Ok? ==> StoredAt(b.data, r.value.data, PathOf(path).value, Name(name.s),
                               VArr(StoredList(values, tag.s, b.raw)))
  {
    if !PathTypeOk(path) then Err(InvalidArgument(PathMessage))
    else if !name.VStr? then Err(InvalidArgument(NameMessage))
    else if !tag.VStr? then Err(InvalidArgument(TagMessage))
    else if PathOf(path).None? then Err(ResultConflict)
    else
      var p := PathOf(path).value;
      var list := VArr(StoredList(values, tag.s, b.raw));
      var r := Place(b, p, Some(Name(name.s)), list);
      if r.Err? then r
      else
        ReadAfterWrite(b.data, r.value.data, p, Some(Name(name.s)), list);
        r
  }

  /** The key `appendValue` hands to ApiResult: none in raw mode, where the
      value is appended positionally. */
  function AppendKey(raw: bool, key: Value): Option<Key> {
    if raw then None else KeyOfValue(key)
  }

  /** `appendValue`. In raw mode the key is ignored, the value takes the
      node's first free index and the node is tagged; otherwise the value
      is stored under the key, or appended when the key is null. */
  function AppendValue(b: Builder, path: Value, key: Value, value: Value, tag: Value): (r: Result<Builder, BuildError>)
    ensures !PathTypeOk(path) ==> r == Err(InvalidArgument(PathMessage))
    ensures PathTypeOk(path) && !KeyTypeOk(key) ==> r == Err(InvalidArgument(KeyMessage))
    ensures PathTypeOk(path) && KeyTypeOk(key) && !tag.VStr? ==> r == Err(InvalidArgument(TagMessage))
    ensures PathTypeOk(path) && KeyTypeOk(key) && tag.VStr? && IsList(value) ==> r == Err(InvalidArgument(ListMessage))
    ensures r.Ok? <==>
      PathTypeOk(path) && KeyTypeOk(key) && tag.VStr? && !IsList(value) && Placeable(b.data, path)
    ensures r.Ok? ==> r.value == b.(data := r.value.data)
    ensures r.Ok? ==> var p := PathOf(path).value;
      var k := WrittenKey(NodeAt(b.data, p), AppendKey(b.raw, key));
      Get(VArr(r.value.data), p + [k]) == Some(value) &&
      KeepsKeys(b.data, r.value.data, p) &&
      OffPathSame(b.data, r.value.data, p)
    ensures r.Ok? && b.raw ==> Lookup(NodeAt(r.value.data, PathOf(path).value), ElementKey) == Some(VStr(tag.s))
    ensures r.Ok? ==> var p := PathOf(path).value;
      forall k' :: k' != WrittenKey(NodeAt(b.data, p), AppendKey(b.raw, key)) && (b.raw ==> k' != ElementKey) ==>
        Lookup(NodeAt(r.value.data, p), k') == Lookup(NodeAt(b.data, p), k')
  {
    if !PathTypeOk(path) then Err(InvalidArgument(PathMessage))
    else if !KeyTypeOk(key) then Err(InvalidArgument(KeyMessage))
    else if !tag.VStr? then Err(InvalidArgument(TagMessage))
    else if IsList(value) then Err(InvalidArgument(ListMessage))
    else if PathOf(path).None? then Err(ResultConflict)
    else
      var p := PathOf(path).value;
      var name := AppendKey(b.raw, key);
      var r1 := Place(b, p, name, value);
      if r1.Err? then r1
      else
        ReadAfterWrite(b.data, r1.value.data, p, name, value);
        if !b.raw then r1
        else TagAfterAppend(b, r1.value, p, value, tag.s)
  }

  /** The second half of a raw-mode append: tagging the node the value was
      just appended to, which cannot fail. */
  function TagAfterAppend(b: Builder, b1: Builder, p: Path, value: Value, tag: string): (r: Result<Builder, BuildError>)
    requires b1 == b.(data := b1.data)
    requires Get(VArr(b1.data), p + [Idx(NextIndex(NodeAt(b.data, p)))]) == Some(value)
    requires NodeAt(b1.data, p) == Append(NodeAt(b.data, p), value)
    requires Get(VArr(b1.data), p) == Some(VArr(NodeAt(b1.data, p)))
    requires KeepsKeys(b.data, b1.data, p) && OffPathSame(b.data, b1.data, p)
    ensures r.Ok? && r.value == b.(data := r.value.data)
    ensures Get(VArr(r.value.data), p + [Idx(NextIndex(NodeAt(b.data, p)))]) == Some(value)
    ensures Lookup(NodeAt(r.value.data, p), ElementKey) == Some(VStr(tag))
    ensures KeepsKeys(b.data, r.value.data, p) && OffPathSame(b.data, r.value.data, p)
    ensures forall k' :: k' != Idx(NextIndex(NodeAt(b.data, p))) && k' != ElementKey ==>
      Lookup(NodeAt(r.value.data, p), k') == Lookup(NodeAt(b.data, p), k')
  {
    ArrayAtPathNotBlocked(b1.data, p);
    var r := Place(b1, p, Some(ElementKey), VStr(tag));
    var n := Idx(NextIndex(NodeAt(b.data, p)));
    ReadAfterWrite(b1.data, r.value.data, p, Some(ElementKey), VStr(tag));
    GetSnoc(VArr(b1.data), p, n);
    GetSnoc(VArr(r.value.data), p, n);
    r
  }

  // ---------------------------------------------------------------------
  // Success flag

  /** `markSuccess`: `success` is set to `intval` of the argument, which
      must be 0 or 1. */
  function MarkSuccess(b: Builder, success: Value): (r: Result<Builder, BuildError>)
    ensures r.Err? <==> Intval(success) != 0 && Intval(success) != 1
    ensures r.Err? ==> r.error == InvalidArgument(SuccessMessage)
    ensures r.Ok? ==> r.value == b.(data := r.value.data)
    ensures r.Ok? ==> Get(VArr(r.value.data), [Name("success")]) == Some(VInt(Intval(success)))
    ensures r.Ok? ==> forall q :: |q| > 0 && q[0] != Name("success") ==>
      Get(VArr(r.value.data), q) == Get(VArr(b.data), q)
  {
    var v := Intval(success);
    if v != 1 && v != 0 then Err(InvalidArgument(SuccessMessage))
    else
      var r := Place(b, [], Some(Name("success")), VInt(v));
      assert !Blocked(b.data, []);
      ReadAfterWrite(b.data, r.value.data, [], Some(Name("success")), VInt(v));
      assert forall q :: |q| > 0 && q[0] != Name("success") ==>
        Get(VArr(r.value.data), q) == Get(VArr(b.data), q) by {
        forall q | |q| > 0 && q[0] != Name("success")
          ensures Get(VArr(r.value.data), q) == Get(VArr(b.data), q)
        {
          GetThroughPut(b.data, Name("success"), VInt(v), q);
        }
      }
      r
  }

  // ---------------------------------------------------------------------
  // Entities

  /** The `$props` argument of `addEntityRevision`: a list of field names,
      or a single string (the default is "all"). */
  datatype Props = PropsString(s: string) | PropsList(names: seq<string>)

  /** Page information is included for "all" and for lists naming "info". */
  predicate WantsInfo(props: Props) {
    match props
    case PropsString(s) => s == "all"
    case PropsList(names) => "info" in names
  }

  /** The page information fields, in the order they are set. */
  function InfoFields(svc: Services, er: EntityRevision): Entries {
    var title := svc.titleFor(er.entity.id);
    [(Name("pageid"), VInt(title.articleId)),
     (Name("ns"), VInt(title.namespace)),
     (Name("title"), VStr(title.prefixedText)),
     (Name("lastrevid"), VInt(er.revision)),
     (Name("modified"), VStr(svc.isoTimestamp(er.timestamp)))]
  }

  /** The `site` of a site link record; an absent one reads as null. */
  function SiteOf(link: Entries): Value {
    Lookup(link, Name("site")).OrElse(VNull)
  }

  /** `in_array( $site, $siteIds )`, PHP's loose comparison against a list
      of site id strings: null equals only the empty string, a boolean
      equals every id with the same truth value, a string must be listed
      (ids are compared as text, not as numbers), and an array matches no
      string. */
  predicate SiteListed(site: Value, siteIds: seq<string>) {
    match site
    case VNull => "" in siteIds
    case VBool(b) => exists id :: id in siteIds && Truthy(VStr(id)) == b
    case VStr(s) => s in siteIds
    case _ => false
  }

  /** A site link entry survives the filter unless it is a record whose
      site is not listed. */
  predicate KeepsLink(link: Value, siteIds: seq<string>) {
    !link.VArr? || SiteListed(SiteOf(link.entries), siteIds)
  }

  /** The site links the filter keeps, in their original order. */
  function KeepSiteLinks(links: Entries, siteIds: seq<string>): (r: Entries)
    ensures FilteredLinks(links, siteIds, r)
    decreases |links|
  {
    if |links| == 0 then []
    else
      var rest := KeepSiteLinks(links[1..], siteIds);
      if KeepsLink(links[0].1, siteIds) then
        LinkKept(links, siteIds, rest);
        [links[0]] + rest
      else
        LinkDropped(links, siteIds, rest);
        rest
  }

  /** `r` holds exactly the entries of `links` the filter keeps, in the
      order of `links`, no more of them, and no key twice when `links` has
      none twice. */
  ghost predicate FilteredLinks(links: Entries, siteIds: seq<string>, r: Entries) {
    && (forall e :: e in r <==> e in links && KeepsLink(e.1, siteIds))
    && |r| <= |links|
    && IsSubsequence(r, links)
    && (UniqueKeys(links) ==> UniqueKeys(r))
  }

  lemma LinkKept(links: Entries, siteIds: seq<string>, rest: Entries)
    requires |links| > 0 && KeepsLink(links[0].1, siteIds)
    requires FilteredLinks(links[1..], siteIds, rest)
    ensures FilteredLinks(links, siteIds, [links[0]] + rest)
  {
    assert forall e :: e in links <==> e == links[0] || e in links[1..];
    if UniqueKeys(links) {
      assert UniqueKeys(links[1..]);
      forall j | 0 <= j < |rest|
        ensures rest[j].0 != links[0].0
      {
        assert rest[j] in links[1..];
        var t :| 0 <= t < |links[1..]| && links[1..][t] == rest[j];
        assert links[t + 1] == rest[j];
      }
    }
  }

  lemma LinkDropped(links: Entries, siteIds: seq<string>, rest: Entries)
    requires |links| > 0 && !KeepsLink(links[0].1, siteIds)
    requires FilteredLinks(links[1..], siteIds, rest)
    ensures FilteredLinks(links, siteIds, rest)
  {
    assert forall e :: e in links <==> e == links[0] || e in links[1..];
    if UniqueKeys(links) {
      assert UniqueKeys(links[1..]);
    }
  }

  /** The site filter of `addEntityRevision`: with a non-empty list of site
      ids, site link records of other sites are dropped from the
      serialization's `sitelinks`; everything else is left alone. */
  function FilterSiteLinks(serialization: Entries, siteIds: seq<string>): (r: Entries)
    ensures siteIds == [] || !HasKey(serialization, Name("sitelinks")) ==> r == serialization
    ensures forall k :: k != Name("sitelinks") ==> Lookup(r, k) == Lookup(serialization, k)
    ensures HasKey(r, Name("sitelinks")) <==> HasKey(serialization, Name("sitelinks"))
    ensures siteIds != [] ==> forall links ::
      Lookup(serialization, Name("sitelinks")) == Some(VArr(links)) ==>
      Lookup(r, Name("sitelinks")) == Some(VArr(KeepSiteLinks(links, siteIds)))
    ensures UniqueKeys(serialization) ==> UniqueKeys(r)
  {
    if siteIds == [] || !HasKey(serialization, Name("sitelinks")) then serialization
    else
      var links: Option<Value> := Lookup(serialization, Name("sitelinks"));
      if links.Some? && links.value.VArr? then
        Put(serialization, Name("sitelinks"), VArr(KeepSiteLinks(links.value.entries, siteIds)))
      else serialization
  }

  /** The record `addEntityRevision` appends: id and type only for an empty
      props list, otherwise the page information when asked for, merged
      with the filtered entity serialization. */
  function EntityRecord(svc: Services, options: Options, er: EntityRevision, props: Props, siteIds: seq<string>): (r: Entries)
    ensures props == PropsList([]) ==>
      r == [(Name("id"), VStr(er.entity.id.serialization)), (Name("type"), VStr(er.entity.id.entityType))]
    ensures UniqueKeys(r)
  {
    if props == PropsList([]) then
      [(Name("id"), VStr(er.entity.id.serialization)), (Name("type"), VStr(er.entity.id.entityType))]
    else
      var info := if WantsInfo(props) then InfoFields(svc, er) else [];
      ArrayMerge(info, FilterSiteLinks(svc.serializeEntity(options, er.entity), siteIds))
  }

  /** What a record built from a non-empty props list holds: every string
      key of the filtered serialization with its value, and otherwise the
      page information when it was asked for. */
  lemma EntityRecordContents(svc: Services, options: Options, er: EntityRevision, props: Props, siteIds: seq<string>, s: string)
    requires props != PropsList([])
    requires UniqueKeys(svc.serializeEntity(options, er.entity))
    ensures var ser := FilterSiteLinks(svc.serializeEntity(options, er.entity), siteIds);
      var info := if WantsInfo(props) then InfoFields(svc, er) else [];
      Lookup(EntityRecord(svc, options, er, props, siteIds), Name(s)) ==
        (if HasKey(ser, Name(s)) then Lookup(ser, Name(s)) else Lookup(info, Name(s)))
  {
    var info := if WantsInfo(props) then InfoFields(svc, er) else [];
    assert UniqueKeys(info);
  }

  /** Where a record appended to `entities` with `key` lands: under the
      key, or in raw mode, where the key is ignored, at the next free
      index. */
  function RecordKey(b: Builder, key: Key): Key {
    if b.raw then Idx(FirstFree(b)) else key
  }

  /** The index the next positional append to `entities` takes. */
  function FirstFree(b: Builder): nat {
    NextIndex(NodeAt(b.data, EntitiesPath))
  }

  /** The `entities` node `after` is `before` with `rec` at `k`, tagged
      `entity` in raw mode, and with no other entry changed. */
  ghost predicate RecordAt(before: Entries, after: Entries, k: Key, rec: Entries, raw: bool) {
    && Lookup(after, k) == Some(VArr(rec))
    && (raw ==> Lookup(after, ElementKey) == Some(VStr("entity")))
    && forall k' :: k' != k && (raw ==> k' != ElementKey) ==> Lookup(after, k') == Lookup(before, k')
  }

  /** A successful append of `rec` to `entities` under a usable `key`
      leaves the record where `RecordKey` says. */
  lemma AppendedRecordAt(b: Builder, path: Value, key: Value, rec: Entries, r: Builder)
    requires PathOf(path) == Some(EntitiesPath) && KeyOfValue(key).Some?
    requires AppendValue(b, path, key, VArr(rec), VStr("entity")) == Ok(r)
    ensures RecordAt(NodeAt(b.data, EntitiesPath), NodeAt(r.data, EntitiesPath), RecordKey(b, KeyOfValue(key).value), rec, b.raw)
  {
    var k := WrittenKey(NodeAt(b.data, EntitiesPath), AppendKey(b.raw, key));
    assert k == RecordKey(b, KeyOfValue(key).value);
    GetSnoc(VArr(r.data), EntitiesPath, k);
    ReadableBelowNotBlocked(r.data, EntitiesPath, k);
  }

  /** `addEntityRevision`: the caller's options are merged into the
      builder's own (and stay merged), the record is built with them and
      appended to `entities` under the key, which defaults to the entity's
      id. */
  function AddEntityRevision(b: Builder, svc: Services, key: Option<string>, er: EntityRevision,
                             options: Option<Options>, props: Props, siteIds: seq<string>): (r: Result<Builder, BuildError>)
    ensures var merged := if options.Some? then Merge(GetOptions(b).1, options.value) else GetOptions(b).1;
      var record := EntityRecord(svc, merged, er, props, siteIds);
      && (r.Ok? <==> !IsList(VArr(record)) && !Blocked(b.data, EntitiesPath))
      && (r.Ok? ==> r.value == b.(data := r.value.data, options := Some(merged)))
      && (r.Ok? ==> KeepsKeys(b.data, r.value.data, EntitiesPath) && !Blocked(r.value.data, EntitiesPath))
      && (r.Ok? ==> RecordAt(NodeAt(b.data, EntitiesPath), NodeAt(r.value.data, EntitiesPath),
                             RecordKey(b, Name(key.OrElse(er.entity.id.serialization))), record, b.raw))
  {
    var (b1, current) := GetOptions(b);
    var merged := if options.Some? then Merge(current, options.value) else current;
    AppendRecord(b, key.OrElse(er.entity.id.serialization), merged, EntityRecord(svc, merged, er, props, siteIds))
  }

  /** The last step of `addEntityRevision`, once the options are merged and
      the record is built: the options are kept and the record is appended
      to `entities` under `key`. */
  function AppendRecord(b: Builder, key: string, merged: Options, record: Entries): (r: Result<Builder, BuildError>)
    ensures r.Ok? <==> !IsList(VArr(record)) && !Blocked(b.data, EntitiesPath)
    ensures r.Ok? ==> r.value == b.(data := r.value.data, options := Some(merged))
    ensures r.Ok? ==> KeepsKeys(b.data, r.value.data, EntitiesPath) && !Blocked(r.value.data, EntitiesPath)
    ensures r.Ok? ==> RecordAt(NodeAt(b.data, EntitiesPath), NodeAt(r.value.data, EntitiesPath), RecordKey(b, Name(key)), record, b.raw)
  {
    var b2 := b.(options := Some(merged));
    assert PathKeys([(Idx(0), VStr("entities"))]) == Some(EntitiesPath) by {
      var es := [(Idx(0), VStr("entities"))];
      assert KeyOfValue(es[0].1) == Some(Name("entities"));
      var ks := PathKeys(es);
      assert ks.Some? && |ks.value| == 1 && ks.value[0] == Name("entities");
      assert ks.value == EntitiesPath;
    }
    var r := AppendValue(b2, VArr([(Idx(0), VStr("entities"))]), VStr(key), VArr(record), VStr("entity"));
    if r.Err? then r
    else
      ReadableBelowNotBlocked(r.value.data, EntitiesPath, WrittenKey(NodeAt(b.data, EntitiesPath), AppendKey(b.raw, VStr(key))));
      r
  }

  /** `addBasicEntityInformation`: the id and the entity type are set below
      the path. */
  function AddBasicEntityInformation(b: Builder, id: EntityId, path: Value): (r: Result<Builder, BuildError>)
    ensures r.Ok? <==> PathTypeOk(path) && Placeable(b.data, path)
    ensures !PathTypeOk(path) ==> r == Err(InvalidArgument(PathMessage))
    ensures r.Ok? ==> r.value == b.(data := r.value.data)
    ensures r.Ok? ==>
      Get(VArr(r.value.data), PathOf(path).value + [Name("id")]) == Some(VStr(id.serialization)) &&
      Get(VArr(r.value.data), PathOf(path).value + [Name("type")]) == Some(VStr(id.entityType))
    ensures r.Ok? ==> OffPathSame(b.data, r.value.data, PathOf(path).value)
    ensures r.Ok? ==> forall k' :: k' != Name("id") && k' != Name("type") ==>
      Lookup(NodeAt(r.value.data, PathOf(path).value), k') == Lookup(NodeAt(b.data, PathOf(path).value), k')
  {
    var r1 := SetValue(b, path, VStr("id"), VStr(id.serialization));
    if r1.Err? then r1
    else
      var p := PathOf(path).value;
      GetSnoc(VArr(r1.value.data), p, Name("id"));
      ArrayAtPathNotBlocked(r1.value.data, p);
      var r2 := SetValue(r1.value, path, VStr("type"), VStr(id.entityType));
      assert Lookup(NodeAt(r2.value.data, p), Name("id")) == Lookup(NodeAt(r1.value.data, p), Name("id"));
      GetSnoc(VArr(r2.value.data), p, Name("id"));
      r2
  }

  // ---------------------------------------------------------------------
  // Terms, site links and statements

  /** `addLabels`: the serialized labels become the list `labels`, tagged
      `label`. */
  function AddLabels(b: Builder, svc: Services, labels: Value, path: Value): (r: Result<Builder, BuildError>)
    ensures r.Ok? <==> PathTypeOk(path) && Placeable(b.data, path)
    ensures r.Ok? ==> r.value == GetOptions(b).0.(data := r.value.data)
    ensures r.Ok? ==> StoredAt(b.data, r.value.data, PathOf(path).value, Name("labels"),
      VArr(StoredList(svc.serializeLabels(GetOptions(b).1, labels), "label", b.raw)))
  {
    var (b1, o) := GetOptions(b);
    SetList(b1, path, VStr("labels"), svc.serializeLabels(o, labels), VStr("label"))
  }

  /** `addDescriptions`: the list `descriptions`, tagged `description`. */
  function AddDescriptions(b: Builder, svc: Services, descriptions: Value, path: Value): (r: Result<Builder, BuildError>)
    ensures r.Ok? <==> PathTypeOk(path) && Placeable(b.data, path)
    ensures r.Ok? ==> r.value == GetOptions(b).0.(data := r.value.data)
    ensures r.Ok? ==> StoredAt(b.data, r.value.data, PathOf(path).value, Name("descriptions"),
      VArr(StoredList(svc.serializeDescriptions(GetOptions(b).1, descriptions), "description", b.raw)))
  {
    var (b1, o) := GetOptions(b);
    SetList(b1, path, VStr("descriptions"), svc.serializeDescriptions(o, descriptions), VStr("description"))
  }

  /** `addAliases`: the list `aliases`, tagged `alias`. */
  function AddAliases(b: Builder, svc: Services, aliases: Value, path: Value): (r: Result<Builder, BuildError>)
    ensures r.Ok? <==> PathTypeOk(path) && Placeable(b.data, path)
    ensures r.Ok? ==> r.value == GetOptions(b).0.(data := r.value.data)
    ensures r.Ok? ==> StoredAt(b.data, r.value.data, PathOf(path).value, Name("aliases"),
      VArr(StoredList(svc.serializeAliases(GetOptions(b).1, aliases), "alias", b.raw)))
  {
    var (b1, o) := GetOptions(b);
    SetList(b1, path, VStr("aliases"), svc.serializeAliases(o, aliases), VStr("alias"))
  }

  /** The entries of `addSiteLinks`' option array: the two sort constants
      and plain words such as "url" and "removed". */
  datatype SiteLinkOption = SortAscending | SortDescending | Word(w: string)

  /** How `addSiteLinks` adjusts the builder's options: ascending order wins
      over descending, "url" and "removed" add their parts; without an
      option array nothing changes. */
  function SiteLinkOptions(o: Options, flags: Option<seq<SiteLinkOption>>): (r: Options)
    ensures flags.None? ==> r == o
    ensures flags.Some? && SortAscending in flags.value ==> r.sortOrder == Some(SortAsc)
    ensures flags.Some? && SortAscending !in flags.value && SortDescending in flags.value ==>
      r.sortOrder == Some(SortDesc)
    ensures flags.None? || (SortAscending !in flags.value && SortDescending !in flags.value) ==>
      r.sortOrder == o.sortOrder
    ensures "sitelinks/urls" in r.parts.OrElse([]) <==>
      "sitelinks/urls" in o.parts.OrElse([]) || (flags.Some? && Word("url") in flags.value)
    ensures "sitelinks/removed" in r.parts.OrElse([]) <==>
      "sitelinks/removed" in o.parts.OrElse([]) || (flags.Some? && Word("removed") in flags.value)
    ensures forall p :: p in r.parts.OrElse([]) ==>
      p in o.parts.OrElse([]) || p == "sitelinks/urls" || p == "sitelinks/removed"
    ensures r.languages == o.languages && r.indexTags == o.indexTags &&
      r.groupByProperties == o.groupByProperties
  {
    if flags.None? then o
    else
      var fs := flags.value;
      var sorted :=
        if SortAscending in fs then SetSortOrder(o, SortAsc)
        else if SortDescending in fs then SetSortOrder(o, SortDesc)
        else o;
      var withUrls := if Word("url") in fs then AddToParts(sorted, "sitelinks/urls") else sorted;
      if Word("removed") in fs then AddToParts(withUrls, "sitelinks/removed") else withUrls
  }

  /** `addSiteLinks`: the builder's options are adjusted for good, the
      links are serialized with them, and an empty serialization writes
      nothing. */
  function AddSiteLinks(b: Builder, svc: Services, links: Value, path: Value,
                        flags: Option<seq<SiteLinkOption>>): (r: Result<Builder, BuildError>)
    ensures var o := SiteLinkOptions(GetOptions(b).1, flags);
      var values := svc.serializeSiteLinks(o, links);
      && (values == [] ==> r == Ok(b.(options := Some(o))))
      && (values != [] ==> (r.Ok? <==> PathTypeOk(path) && Placeable(b.data, path)))
      && (r.Ok? ==> r.value == b.(data := r.value.data, options := Some(o)))
      && (r.Ok? && values != [] ==> StoredAt(b.data, r.value.data, PathOf(path).value, Name("sitelinks"),
            VArr(StoredList(values, "sitelink", b.raw))))
  {
    var (b1, current) := GetOptions(b);
    var o := SiteLinkOptions(current, flags);
    var b2 := b1.(options := Some(o));
    var values := svc.serializeSiteLinks(o, links);
    if values == [] then Ok(b2)
    else SetList(b2, path, VStr("sitelinks"), values, VStr("sitelink"))
  }

  /** The tag `addClaims` uses: the serialization's own `_element` entry
      when it has a non-null one, otherwise `claim`. */
  function ClaimsTag(values: Entries): (r: Value)
    ensures Isset(values, ElementKey) ==> Some(r) == Lookup(values, ElementKey)
    ensures !Isset(values, ElementKey) ==> r == VStr("claim")
  {
    if Isset(values, ElementKey) then Lookup(values, ElementKey).value else VStr("claim")
  }

  /** `addClaims`: the list `claims`; a serialization that brings a
      non-string tag of its own is refused. */
  function AddClaims(b: Builder, svc: Services, claims: Value, path: Value): (r: Result<Builder, BuildError>)
    ensures var values := svc.serializeClaims(GetOptions(b).1, claims);
      && (PathTypeOk(path) && !ClaimsTag(values).VStr? ==> r == Err(InvalidArgument(TagMessage)))
      && (r.Ok? <==> PathTypeOk(path) && ClaimsTag(values).VStr? && Placeable(b.data, path))
      && (r.Ok? ==> r.value == GetOptions(b).0.(data := r.value.data))
      && (r.Ok? ==> StoredAt(b.data, r.value.data, PathOf(path).value, Name("claims"),
            VArr(StoredList(values, ClaimsTag(values).s, b.raw))))
  {
    var (b1, o) := GetOptions(b);
    var values := svc.serializeClaims(o, claims);
    SetList(b1, path, VStr("claims"), values, ClaimsTag(values))
  }

  /** `addClaim`: the serialized claim becomes the top-level `claim`. */
  function AddClaim(b: Builder, svc: Services, claim: Value): (r: Result<Builder, BuildError>)
    ensures var value := svc.serializeClaim(GetOptions(b).1, claim);
      && (r.Err? <==> IsList(value))
      && (r.Err? ==> r.error == InvalidArgument(ListMessage))
      && (r.Ok? ==> r.value == GetOptions(b).0.(data := r.value.data))
      && (r.Ok? ==> StoredAt(b.data, r.value.data, [], Name("claim"), value))
  {
    var (b1, o) := GetOptions(b);
    assert !Blocked(b.data, []);
    SetValue(b1, VNull, VStr("claim"), svc.serializeClaim(o, claim))
  }

  /** `addReference`: the serialized reference becomes the top-level
      `reference`. */
  function AddReference(b: Builder, svc: Services, reference: Value): (r: Result<Builder, BuildError>)
    ensures var value := svc.serializeReference(GetOptions(b).1, reference);
      && (r.Err? <==> IsList(value))
      && (r.Err? ==> r.error == InvalidArgument(ListMessage))
      && (r.Ok? ==> r.value == GetOptions(b).0.(data := r.value.data))
      && (r.Ok? ==> StoredAt(b.data, r.value.data, [], Name("reference"), value))
  {
    var (b1, o) := GetOptions(b);
    assert !Blocked(b.data, []);
    SetValue(b1, VNull, VStr("reference"), svc.serializeReference(o, reference))
  }

  // ---------------------------------------------------------------------
  // Missing entities, normalized titles, revision ids

  /** The key `addMissingEntity` uses: the given one, else the details'
      non-null `id`, else the counter. */
  function MissingKey(counter: int, key: Value, details: Entries): (r: Value)
    ensures r != VNull
    ensures key != VNull ==> r == key
    ensures key == VNull && Isset(details, Name("id")) ==> Some(r) == Lookup(details, Name("id"))
    ensures key == VNull && !Isset(details, Name("id")) ==> r == VInt(counter)
  {
    var k := if key == VNull && Isset(details, Name("id")) then Lookup(details, Name("id")).value else key;
    if k == VNull then VInt(counter) else k
  }

  /** The record stored for a missing entity: its details plus an empty
      `missing` marker. */
  function MissingRecord(details: Entries): (r: Entries)
    ensures Lookup(r, Name("missing")) == Some(VStr(""))
    ensures UniqueKeys(details) ==> forall s :: s != "missing" ==> Lookup(r, Name(s)) == Lookup(details, Name(s))
    ensures UniqueKeys(r)
    ensures NamedOnly(details) ==> !IsList(VArr(r))
  {
    var marker := [(Name("missing"), VStr(""))];
    var r := ArrayMerge(details, marker);
    assert NamedOnly(details) ==> !IsList(VArr(r)) by {
      if NamedOnly(details) {
        assert NamedOnly(marker);
        NamedOnlyNotList(r);
      }
    }
    r
  }

  /** `addMissingEntity`: the record is appended to `entities` and the
      counter moves down, but only once the append has succeeded. */
  function AddMissingEntity(b: Builder, key: Value, details: Entries): (r: Result<Builder, BuildError>)
    ensures var k := MissingKey(b.missingCounter, key, details);
      && (r.Ok? <==> KeyTypeOk(k) && !IsList(VArr(MissingRecord(details))) && !Blocked(b.data, EntitiesPath))
      && (!KeyTypeOk(k) ==> r == Err(InvalidArgument(KeyMessage)))
      && (r.Ok? ==> r.value == b.(data := r.value.data, missingCounter := b.missingCounter - 1))
      && (r.Ok? ==> KeepsKeys(b.data, r.value.data, EntitiesPath) && !Blocked(r.value.data, EntitiesPath))
      && (r.Ok? ==> RecordAt(NodeAt(b.data, EntitiesPath), NodeAt(r.value.data, EntitiesPath),
                             RecordKey(b, KeyOfValue(k).value), MissingRecord(details), b.raw))
  {
    AddRecord(b, key, details, MissingRecord(details))
  }

  /** The append `addMissingEntity` performs, once `rec` has been built
      from `details`. */
  function AddRecord(b: Builder, key: Value, details: Entries, rec: Entries): (r: Result<Builder, BuildError>)
    ensures var k := MissingKey(b.missingCounter, key, details);
      && (r.Ok? <==> KeyTypeOk(k) && !IsList(VArr(rec)) && !Blocked(b.data, EntitiesPath))
      && (!KeyTypeOk(k) ==> r == Err(InvalidArgument(KeyMessage)))
      && (r.Ok? ==> r.value == b.(data := r.value.data, missingCounter := b.missingCounter - 1))
      && (r.Ok? ==> KeepsKeys(b.data, r.value.data, EntitiesPath) && !Blocked(r.value.data, EntitiesPath))
      && (r.Ok? ==> RecordAt(NodeAt(b.data, EntitiesPath), NodeAt(r.value.data, EntitiesPath),
                             RecordKey(b, KeyOfValue(k).value), rec, b.raw))
  {
    var k := MissingKey(b.missingCounter, key, details);
    var r := AppendValue(b, VStr("entities"), k, VArr(rec), VStr("entity"));
    if r.Err? then r
    else
      ReadableBelowNotBlocked(r.value.data, EntitiesPath, WrittenKey(NodeAt(b.data, EntitiesPath), AppendKey(b.raw, k)));
      AppendedRecordAt(b, VStr("entities"), k, rec, r.value);
      Ok(r.value.(missingCounter := b.missingCounter - 1))
  }

  /** `addNormalizedTitle`: the pair is set under `normalized`, keyed by
      `name`, which `setValue` requires to be a string. */
  function AddNormalizedTitle(b: Builder, from: string, to: string, name: Value): (r: Result<Builder, BuildError>)
    ensures !name.VStr? ==> r == Err(InvalidArgument(NameMessage))
    ensures r.Ok? <==> name.VStr? && !Blocked(b.data, [Name("normalized")])
    ensures r.Ok? ==> r.value == b.(data := r.value.data)
    ensures r.Ok? ==> StoredAt(b.data, r.value.data, [Name("normalized")], Name(name.s),
      VArr([(Name("from"), VStr(from)), (Name("to"), VStr(to))]))
  {
    var pair := [(Name("from"), VStr(from)), (Name("to"), VStr(to))];
    assert !IsList(VArr(pair)) by {
      assert pair[0].0 != Idx(0) && pair[1].0 != Idx(0);
    }
    SetValue(b, VStr("normalized"), name, VArr(pair))
  }

  /** The `revision` of a save status value, or null. */
  function StatusRevision(status: Value): (r: Value)
    ensures status.VArr? && Isset(status.entries, Name("revision")) ==>
      Some(r) == Lookup(status.entries, Name("revision"))
    ensures !(status.VArr? && Isset(status.entries, Name("revision"))) ==> r == VNull
  {
    if status.VArr? && Isset(status.entries, Name("revision")) then
      Lookup(status.entries, Name("revision")).value
    else VNull
  }

  /** `addRevisionIdFromStatusToResult`: a revision object in the status
      value puts its id under `lastrevid`; no revision changes nothing; any
      other truthy value is a fatal error. */
  function AddRevisionIdFromStatus(b: Builder, status: Value, path: Value): (r: Result<Builder, BuildError>)
    ensures var rev := StatusRevision(status);
      && (!Truthy(rev) ==> r == Ok(b))
      && (Truthy(rev) && !rev.VRevision? ==> r == Err(NotAnObject))
      && (rev.VRevision? ==> (r.Ok? <==> PathTypeOk(path) && Placeable(b.data, path)))
      && (rev.VRevision? && r.Ok? ==> r.value == b.(data := r.value.data))
      && (rev.VRevision? && r.Ok? ==> StoredAt(b.data, r.value.data, PathOf(path).value, Name("lastrevid"), VInt(rev.revId)))
  {
    var rev := StatusRevision(status);
    if !Truthy(rev) then Ok(b)
    else if !rev.VRevision? then Err(NotAnObject)
    else SetValue(b, path, VStr("lastrevid"), VInt(rev.revId))
  }
}
