/** `wbgetentities`: the decisions the API module takes between the request
    parameters and the result builder. The id parser, the revision lookup,
    the item-by-title lookup and the language fallback chain factory are
    collaborators, passed in as functions. */
module GetEntities {
  import opened Wrappers
  import opened OrderedMaps
  import opened PhpValues
  import opened ApiTree
  import opened SerializationOptions
  import opened ResultBuilder

  /** The request parameters after ApiBase has parsed them; an unset
      parameter is `None`. */
  datatype Params = Params(
    ids: Option<seq<string>>,
    sites: Option<seq<string>>,
    titles: Option<seq<string>>,
    redirects: string,
    props: seq<string>,
    languages: Option<seq<string>>,
    languageFallback: bool,
    normalize: bool,
    ungroupedList: bool,
    siteFilter: Option<seq<string>>)

  /** What the revision lookup does for an id: return a revision, return
      null, or throw an unresolved-redirect exception naming the target. */
  datatype LookupOutcome = Found(rev: EntityRevision) | NotFound | Redirect(target: EntityId)

  /** The module's collaborators. `itemIdsFor` is the item-by-title helper:
      the item ids found for the site/title pairs and a details array for
      every pair without an item. */
  datatype Repo = Repo(
    parseId: string -> Option<EntityId>,
    lookup: EntityId -> LookupOutcome,
    itemIdsFor: (seq<string>, seq<string>, bool) -> (seq<EntityId>, seq<Entries>),
    chainFor: string -> Chain,
    svc: Services)

  /** `dieError( message, code )`, or a builder failure let through. */
  datatype ApiError = ApiError(code: string, message: string) | BuilderFailure(failure: BuildError)

  const ParamMissingMessage := "Either provide the item \"ids\" or pairs of \"sites\" and \"titles\" for corresponding pages"

  // ---------------------------------------------------------------------
  // Parameters

  /** PHP `empty()` of an optional list parameter. */
  predicate Empty(p: Option<seq<string>>) {
    p.None? || |p.value| == 0
  }

  /** The request names neither ids nor a usable site/title combination. */
  predicate ParamsMissing(params: Params) {
    params.ids.None? && (Empty(params.sites) || Empty(params.titles))
  }

  /** Whether redirects are followed: only for the literal value `yes`. */
  predicate ResolveRedirects(params: Params) {
    params.redirects == "yes"
  }

  /** `getPropsFromParams`: asking for site link urls implies asking for
      site links, which is added once at the end. */
  function PropsFromParams(props: seq<string>): (r: seq<string>)
    ensures "sitelinks/urls" in props ==> r == props + ["sitelinks"]
    ensures "sitelinks/urls" !in props ==> r == props
  {
    if "sitelinks/urls" in props then props + ["sitelinks"] else props
  }

  /** What the augmented props ask for: everything asked for, site links
      exactly when either form of site links was asked for. */
  lemma PropsFromParamsMeaning(props: seq<string>)
    ensures forall p :: p in props ==> p in PropsFromParams(props)
    ensures forall p :: p in PropsFromParams(props) && p != "sitelinks" ==> p in props
    ensures "sitelinks" in PropsFromParams(props) <==> "sitelinks" in props || "sitelinks/urls" in props
  {
  }

  // ---------------------------------------------------------------------
  // Serialization options

  /** The `$languages[$code] = chain` loop: one entry per distinct code, in
      order of first mention. */
  function ChainMap(codes: seq<string>, chainFor: string -> Chain): (r: seq<(string, Chain)>)
    ensures UniqueKeys(r)
    ensures forall c :: Lookup(r, c) == (if c in codes then Some(chainFor(c)) else None)
    decreases |codes|
  {
    if |codes| == 0 then []
    else
      var front := codes[..|codes| - 1];
      var c := codes[|codes| - 1];
      assert codes == front + [c];
      Put(ChainMap(front, chainFor), c, chainFor(c))
  }

  /** `getSerializationOptions`: languages as fallback chains or as the
      plain list, grouping switched off for an ungrouped list, ascending
      order, the props as parts, tags indexed in raw mode. */
  function SerializationOptionsFor(params: Params, props: seq<string>, raw: bool, chainFor: string -> Chain): (r: Options)
    ensures params.languageFallback ==> r.languages.Some? && r.languages.value.Fallback?
    ensures params.languageFallback ==>
      forall c :: Lookup(r.languages.value.chains, c) == (if c in params.languages.OrElse([]) then Some(chainFor(c)) else None)
    ensures !params.languageFallback && params.languages.Some? ==> r.languages == Some(Plain(params.languages.value))
    ensures !params.languageFallback && params.languages.None? ==> r.languages.None?
    ensures r.groupByProperties == (if params.ungroupedList then Some([]) else None)
    ensures r.sortOrder == Some(SortAsc)
    ensures r.parts == Some(props)
    ensures r.indexTags == Some(raw)
  {
    var languages :=
      if params.languageFallback then Some(Fallback(ChainMap(params.languages.OrElse([]), chainFor)))
      else if params.languages.Some? then Some(Plain(params.languages.value))
      else None;
    Options(languages, Some(raw), Some(SortAsc), Some(props),
            if params.ungroupedList then Some([]) else None)
  }

  // ---------------------------------------------------------------------
  // Entity ids

  /** `getEntityIdsFromIdParam`: every id parsed in order; the first that
      does not parse aborts the request. */
  function ParseIds(parseId: string -> Option<EntityId>, ids: seq<string>): (r: Result<seq<EntityId>, ApiError>)
    ensures r.Ok? <==> forall j :: 0 <= j < |ids| ==> parseId(ids[j]).Some?
    ensures r.Ok? ==> |r.value| == |ids| && forall j :: 0 <= j < |ids| ==> parseId(ids[j]) == Some(r.value[j])
    ensures r.Err? ==> exists j :: (0 <= j < |ids| && parseId(ids[j]).None? &&
      (forall t :: 0 <= t < j ==> parseId(ids[t]).Some?) &&
      r.error == ApiError("no-such-entity", "Invalid id: " + ids[j]))
    decreases |ids|
  {
    if |ids| == 0 then Ok([])
    else
      match parseId(ids[0])
      case None => Err(ApiError("no-such-entity", "Invalid id: " + ids[0]))
      case Some(id) =>
        var rest := ParseIds(parseId, ids[1..]);
        if rest.Err? then
          ghost var j :| 0 <= j < |ids[1..]| && parseId(ids[1..][j]).None? &&
            (forall t :: 0 <= t < j ==> parseId(ids[1..][t]).Some?) &&
            rest.error == ApiError("no-such-entity", "Invalid id: " + ids[1..][j]);
          assert parseId(ids[j + 1]).None? && forall t :: 0 <= t < j + 1 ==> parseId(ids[t]).Some?;
          Err(rest.error)
        else
          Ok([id] + rest.value)
  }

  /** Position of the first id serialized as `s`, or -1. */
  function FirstWith(ids: seq<EntityId>, s: string): (r: int)
    ensures -1 <= r < |ids|
    ensures 0 <= r ==> ids[r].serialization == s && forall t :: 0 <= t < r ==> ids[t].serialization != s
    ensures r == -1 ==> forall t :: 0 <= t < |ids| ==> ids[t].serialization != s
    decreases |ids|
  {
    if |ids| == 0 then -1
    else if ids[0].serialization == s then 0
    else
      var r := FirstWith(ids[1..], s);
      if r < 0 then -1 else r + 1
  }

  /** No serialization occurs twice. */
  predicate DistinctSerializations(ids: seq<EntityId>) {
    forall i, j :: 0 <= i < j < |ids| ==> ids[i].serialization != ids[j].serialization
  }

  /** Every id of `r` is the first id of `ids` with its serialization. */
  ghost predicate FirstsOnly(r: seq<EntityId>, ids: seq<EntityId>) {
    forall i :: 0 <= i < |r| ==>
      0 <= FirstWith(ids, r[i].serialization) && ids[FirstWith(ids, r[i].serialization)] == r[i]
  }

  /** `r` lists its ids in the order of their first occurrence in `ids`. */
  ghost predicate InFirstOrder(r: seq<EntityId>, ids: seq<EntityId>) {
    forall i, j :: 0 <= i < j < |r| ==> FirstWith(ids, r[i].serialization) < FirstWith(ids, r[j].serialization)
  }

  /** Every serialization of `ids` occurs in `r`. */
  ghost predicate Covers(r: seq<EntityId>, ids: seq<EntityId>) {
    forall t :: 0 <= t < |ids| ==> FirstWith(r, ids[t].serialization) >= 0
  }

  /** `r` is what `array_unique` keeps of `ids`: the first id of every
      serialization, in the order of first occurrence, and nothing else. */
  ghost predicate UniqueOf(r: seq<EntityId>, ids: seq<EntityId>) {
    FirstsOnly(r, ids) && InFirstOrder(r, ids) && Covers(r, ids)
  }

  /** `array_unique` on entity ids, which compares them by serialization. */
  function Unique(ids: seq<EntityId>): (r: seq<EntityId>)
    ensures UniqueOf(r, ids)
    ensures DistinctSerializations(r)
    decreases |ids|
  {
    if |ids| == 0 then []
    else
      var front := ids[..|ids| - 1];
      var x := ids[|ids| - 1];
      assert ids == front + [x];
      var p := Unique(front);
      UniqueStep(front, x, p);
      if FirstWith(front, x.serialization) >= 0 then p else p + [x]
  }

  lemma UniqueStep(front: seq<EntityId>, x: EntityId, p: seq<EntityId>)
    requires UniqueOf(p, front)
    ensures UniqueOf(if FirstWith(front, x.serialization) >= 0 then p else p + [x], front + [x])
  {
    if FirstWith(front, x.serialization) >= 0 {
      UniqueSeen(front, x, p);
    } else {
      UniqueUnseen(front, x, p);
    }
  }

  /** An id whose serialization was seen before adds nothing. */
  lemma UniqueSeen(front: seq<EntityId>, x: EntityId, p: seq<EntityId>)
    requires UniqueOf(p, front)
    requires FirstWith(front, x.serialization) >= 0
    ensures UniqueOf(p, front + [x])
  {
    FirstsKept(front, x, p);
    var t' := FirstWith(front, x.serialization);
    assert front[t'].serialization == x.serialization;
    CoveredAfterSnoc(front, x, p);
  }

  /** An id with a new serialization is kept, at the end. */
  lemma UniqueUnseen(front: seq<EntityId>, x: EntityId, p: seq<EntityId>)
    requires UniqueOf(p, front)
    requires FirstWith(front, x.serialization) < 0
    ensures UniqueOf(p + [x], front + [x])
  {
    FirstWithSnoc(front, x, x.serialization);
    FirstsKept(front, x, p);
    UnseenFirstsOnly(front, x, p);
    UnseenInFirstOrder(front, x, p);
    UnseenCovers(front, x, p);
  }

  lemma UnseenFirstsOnly(front: seq<EntityId>, x: EntityId, p: seq<EntityId>)
    requires FirstsOnly(p, front)
    requires FirstWith(front + [x], x.serialization) == |front|
    ensures FirstsOnly(p + [x], front + [x])
  {
    var ids, r := front + [x], p + [x];
    forall i | 0 <= i < |r|
      ensures 0 <= FirstWith(ids, r[i].serialization) && ids[FirstWith(ids, r[i].serialization)] == r[i]
    {
      if i < |p| {
        assert r[i] == p[i];
        FirstStaysFirst(front, x, p[i]);
      }
    }
  }

  /** The first occurrence of an id in `front` is still its first
      occurrence once another id is appended. */
  lemma FirstStaysFirst(front: seq<EntityId>, x: EntityId, e: EntityId)
    requires 0 <= FirstWith(front, e.serialization) && front[FirstWith(front, e.serialization)] == e
    ensures 0 <= FirstWith(front + [x], e.serialization) && (front + [x])[FirstWith(front + [x], e.serialization)] == e
  {
    FirstWithSnoc(front, x, e.serialization);
  }

  lemma UnseenInFirstOrder(front: seq<EntityId>, x: EntityId, p: seq<EntityId>)
    requires FirstsOnly(p, front) && InFirstOrder(p, front)
    requires FirstWith(front + [x], x.serialization) == |front|
    requires forall i :: 0 <= i < |p| ==>
      FirstWith(front + [x], p[i].serialization) == FirstWith(front, p[i].serialization)
    ensures InFirstOrder(p + [x], front + [x])
  {
    var ids, r := front + [x], p + [x];
    forall i, j | 0 <= i < j < |r|
      ensures FirstWith(ids, r[i].serialization) < FirstWith(ids, r[j].serialization)
    {
      assert r[i] == p[i];
      if j < |p| {
        assert r[j] == p[j];
      }
    }
  }

  lemma UnseenCovers(front: seq<EntityId>, x: EntityId, p: seq<EntityId>)
    requires Covers(p, front)
    ensures Covers(p + [x], front + [x])
  {
    var r := p + [x];
    forall t | 0 <= t < |front|
      ensures FirstWith(r, front[t].serialization) >= 0
    {
      FirstWithSnoc(p, x, front[t].serialization);
    }
    FirstWithSnoc(p, x, x.serialization);
    CoveredAfterSnoc(front, x, r);
  }

  /** The ids kept so far keep their first occurrences when an id is added. */
  lemma FirstsKept(front: seq<EntityId>, x: EntityId, p: seq<EntityId>)
    requires forall i :: 0 <= i < |p| ==> FirstWith(front, p[i].serialization) >= 0
    ensures forall i :: 0 <= i < |p| ==>
      FirstWith(front + [x], p[i].serialization) == FirstWith(front, p[i].serialization)
  {
    forall i | 0 <= i < |p|
      ensures FirstWith(front + [x], p[i].serialization) == FirstWith(front, p[i].serialization)
    {
      FirstWithSnoc(front, x, p[i].serialization);
    }
  }

  /** A list covering `front` and the new id's serialization covers the
      extended list. */
  lemma CoveredAfterSnoc(front: seq<EntityId>, x: EntityId, r: seq<EntityId>)
    requires forall t :: 0 <= t < |front| ==> FirstWith(r, front[t].serialization) >= 0
    requires FirstWith(r, x.serialization) >= 0
    ensures Covers(r, front + [x])
  {
    forall t | 0 <= t < |front + [x]|
      ensures FirstWith(r, (front + [x])[t].serialization) >= 0
    {
      if t < |front| {
        assert (front + [x])[t] == front[t];
      }
    }
  }

  /** Adding an id at the end does not move any earlier first occurrence. */
  lemma FirstWithSnoc(front: seq<EntityId>, x: EntityId, s: string)
    ensures FirstWith(front, s) >= 0 ==> FirstWith(front + [x], s) == FirstWith(front, s)
    ensures FirstWith(front, s) < 0 ==> FirstWith(front + [x], s) == (if x.serialization == s then |front| else -1)
  {
    var ids := front + [x];
    var a, b := FirstWith(front, s), FirstWith(ids, s);
    assert forall t :: 0 <= t < |front| ==> ids[t] == front[t];
    if a >= 0 {
      assert !(b < a) && !(a < b);
    } else if x.serialization == s {
      assert ids[|front|].serialization == s;
    }
  }

  /** `getEntityIdsFromParams` without its side effect: the parsed ids
      followed by the ids found for the site/title pairs, duplicates
      removed, together with the details of the pairs without an item. */
  function EntityIdsFromParams(repo: Repo, params: Params): (r: Result<(seq<EntityId>, seq<Entries>), ApiError>)
    ensures params.ids.Some? ==> (r.Err? <==> ParseIds(repo.parseId, params.ids.value).Err?)
    ensures params.ids.Some? && r.Err? ==> r.error == ParseIds(repo.parseId, params.ids.value).error
    ensures params.ids.None? ==> r.Ok?
    ensures r.Ok? ==> DistinctSerializations(r.value.0)
    ensures r.Ok? && params.ids.Some? ==> forall j :: 0 <= j < |params.ids.value| ==>
      FirstWith(r.value.0, repo.parseId(params.ids.value[j]).value.serialization) >= 0
    ensures r.Ok? ==> r.value.1 == ByTitle(repo, params).1
    ensures r.Ok? ==> forall j :: 0 <= j < |ByTitle(repo, params).0| ==>
      FirstWith(r.value.0, ByTitle(repo, params).0[j].serialization) >= 0
    ensures r.Ok? ==> var parsed := if params.ids.Some? then ParseIds(repo.parseId, params.ids.value).value else [];
      UniqueOf(r.value.0, parsed + ByTitle(repo, params).0)
    ensures r.Ok? ==> var parsed := if params.ids.Some? then ParseIds(repo.parseId, params.ids.value).value else [];
      forall x :: x in r.value.0 ==> x in parsed + ByTitle(repo, params).0
  {
    var fromIds := if params.ids.Some? then ParseIds(repo.parseId, params.ids.value) else Ok([]);
    if fromIds.Err? then Err(fromIds.error)
    else
      var found := ByTitle(repo, params);
      Ok((MergedIds(fromIds.value, found.0), found.1))
  }

  /** The items looked up by site and title: none unless both lists are
      given and non-empty. */
  function ByTitle(repo: Repo, params: Params): (r: (seq<EntityId>, seq<Entries>))
    ensures Empty(params.sites) || Empty(params.titles) ==> r == ([], [])
    ensures !Empty(params.sites) && !Empty(params.titles) ==>
      r == repo.itemIdsFor(params.sites.value, params.titles.value, params.normalize)
  {
    if !Empty(params.sites) && !Empty(params.titles) then
      repo.itemIdsFor(params.sites.value, params.titles.value, params.normalize)
    else ([], [])
  }

  /** `array_unique( array_merge( $ids, $found ) )`: every id of either list
      is kept once, at its first occurrence, in the order of the two lists
      one after the other, and nothing else is kept. */
  function MergedIds(parsed: seq<EntityId>, found: seq<EntityId>): (r: seq<EntityId>)
    ensures DistinctSerializations(r)
    ensures forall j :: 0 <= j < |parsed| ==> FirstWith(r, parsed[j].serialization) >= 0
    ensures forall j :: 0 <= j < |found| ==> FirstWith(r, found[j].serialization) >= 0
    ensures UniqueOf(r, parsed + found)
    ensures forall x :: x in r ==> x in parsed + found
  {
    UniqueOfConcat(parsed, found);
    Unique(parsed + found)
  }

  /** The de-duplicated id list of two lists covers every serialization
      of each. */
  lemma UniqueOfConcat(a: seq<EntityId>, b: seq<EntityId>)
    ensures forall j :: 0 <= j < |a| ==> FirstWith(Unique(a + b), a[j].serialization) >= 0
    ensures forall j :: 0 <= j < |b| ==> FirstWith(Unique(a + b), b[j].serialization) >= 0
  {
    var all := a + b;
    var r := Unique(all);
    assert Covers(r, all);
    forall j | 0 <= j < |a|
      ensures FirstWith(r, a[j].serialization) >= 0
    {
      assert all[j] == a[j];
    }
    forall j | 0 <= j < |b|
      ensures FirstWith(r, b[j].serialization) >= 0
    {
      assert all[|a| + j] == b[j];
    }
  }

  // ---------------------------------------------------------------------
  // Revisions

  /** `getEntityRevision`: the revision the lookup gives; on an unresolved
      redirect, when resolving, the target's revision looked up without
      resolving again; null otherwise. */
  function GetEntityRevision(repo: Repo, id: EntityId, resolve: bool): (r: Option<EntityRevision>)
    decreases resolve
    ensures repo.lookup(id).Found? ==> r == Some(repo.lookup(id).rev)
    ensures repo.lookup(id).NotFound? ==> r.None?
    ensures repo.lookup(id).Redirect? && !resolve ==> r.None?
    ensures repo.lookup(id).Redirect? && resolve ==>
      r == (if repo.lookup(repo.lookup(id).target).Found? then Some(repo.lookup(repo.lookup(id).target).rev) else None)
  {
    match repo.lookup(id)
    case Found(rev) => Some(rev)
    case NotFound => None
    case Redirect(target) => if resolve then GetEntityRevision(repo, target, false) else None
  }

  /** Resolving redirects only ever finds more: whatever is found without
      resolving is found, unchanged, with resolving. */
  lemma ResolvingFindsMore(repo: Repo, id: EntityId)
    ensures GetEntityRevision(repo, id, false).Some? ==>
      GetEntityRevision(repo, id, true) == GetEntityRevision(repo, id, false)
    ensures GetEntityRevision(repo, id, true).Some? && GetEntityRevision(repo, id, false).None? ==>
      repo.lookup(id).Redirect?
  {
  }

  /** `getEntityRevisionsFromEntityIds`: `$revisions[$serialization] =
      revision` for each id in turn. */
  function Revisions(repo: Repo, ids: seq<EntityId>, resolve: bool): (r: seq<(string, Option<EntityRevision>)>)
    ensures UniqueKeys(r)
    ensures forall j :: 0 <= j < |ids| ==> HasKey(r, ids[j].serialization)
    decreases |ids|
  {
    if |ids| == 0 then []
    else
      var front := ids[..|ids| - 1];
      var id := ids[|ids| - 1];
      var pre := Revisions(repo, front, resolve);
      var r := Put(pre, id.serialization, GetEntityRevision(repo, id, resolve));
      forall j | 0 <= j < |ids|
        ensures HasKey(r, ids[j].serialization)
      {
        if ids[j].serialization != id.serialization {
          assert ids[j] == front[j] && Lookup(pre, front[j].serialization).Some?;
        }
      }
      r
  }

  /** With distinct serializations every id gets its own entry, in order,
      keyed by the serialization of the id asked for. */
  lemma {:induction false} RevisionsInOrder(repo: Repo, ids: seq<EntityId>, resolve: bool)
    requires DistinctSerializations(ids)
    ensures |Revisions(repo, ids, resolve)| == |ids|
    ensures forall j :: 0 <= j < |ids| ==>
      Revisions(repo, ids, resolve)[j] == (ids[j].serialization, GetEntityRevision(repo, ids[j], resolve))
    decreases |ids|
  {
    if |ids| > 0 {
      var front := ids[..|ids| - 1];
      assert DistinctSerializations(front) by {
        assert forall t :: 0 <= t < |front| ==> front[t] == ids[t];
      }
      RevisionsInOrder(repo, front, resolve);
      RevisionsStep(repo, ids, Revisions(repo, front, resolve), resolve);
    }
  }

  /** A new serialization is appended after the entries of the ids before
      it. */
  lemma RevisionsStep(repo: Repo, ids: seq<EntityId>, pre: seq<(string, Option<EntityRevision>)>, resolve: bool)
    requires |ids| > 0 && |pre| == |ids| - 1 && DistinctSerializations(ids)
    requires forall j :: 0 <= j < |pre| ==> pre[j] == (ids[..|ids| - 1][j].serialization, GetEntityRevision(repo, ids[..|ids| - 1][j], resolve))
    ensures var id := ids[|ids| - 1];
      var r := Put(pre, id.serialization, GetEntityRevision(repo, id, resolve));
      && |r| == |ids|
      && forall j :: 0 <= j < |ids| ==> r[j] == (ids[j].serialization, GetEntityRevision(repo, ids[j], resolve))
  {
    var id := ids[|ids| - 1];
    forall t | 0 <= t < |pre|
      ensures pre[t].0 != id.serialization
    {
      assert ids[..|ids| - 1][t] == ids[t];
    }
    assert !HasKey(pre, id.serialization);
    var r := Put(pre, id.serialization, GetEntityRevision(repo, id, resolve));
    forall j | 0 <= j < |ids|
      ensures r[j] == (ids[j].serialization, GetEntityRevision(repo, ids[j], resolve))
    {
      if j < |pre| {
        assert r[j] == pre[j] && ids[..|ids| - 1][j] == ids[j];
      }
    }
  }

  // ---------------------------------------------------------------------
  // Writing the result

  /** A details array `addMissingEntity` accepts: a set `id` must be
      usable as a key, and the record must not look like a list. */
  predicate Acceptable(details: Entries) {
    AcceptableWith(details, MissingRecord(details))
  }

  /** `Acceptable`, with the record built from `details` given as `rec`. */
  predicate AcceptableWith(details: Entries, rec: Entries) {
    && (Isset(details, Name("id")) ==> KeyTypeOk(Lookup(details, Name("id")).value))
    && !IsList(VArr(rec))
  }

  /** No details array has an id and the builder is not raw: then every
      record goes under a fresh counter key. */
  ghost predicate Keyless(b: Builder, items: seq<Entries>) {
    !b.raw && forall j :: 0 <= j < |items| ==> !Isset(items[j], Name("id"))
  }

  /** The builder after the records of the first `i` details arrays were
      added to `b`: only `data` and the counter moved, `entities` can be
      written and has lost no key, and every record so far was accepted. */
  ghost predicate Added(b: Builder, items: seq<Entries>, recs: seq<Entries>, i: int, cur: Builder) {
    && 0 <= i <= |items| == |recs|
    && cur == b.(data := cur.data, missingCounter := b.missingCounter - i)
    && (i == 0 ==> cur == b)
    && (i > 0 ==> !Blocked(cur.data, EntitiesPath) && !Blocked(b.data, EntitiesPath))
    && KeepsKeys(b.data, cur.data, EntitiesPath)
    && (forall j :: 0 <= j < i ==> AcceptableWith(items[j], recs[j]))
    && (b.raw ==> FirstFree(cur) == FirstFree(b) + i)
  }

  /** The first `i` records sit under the counter values `counter`,
      `counter - 1`, ... of `node`. */
  ghost predicate Stored(node: Entries, recs: seq<Entries>, counter: int, i: int)
    requires 0 <= i <= |recs|
  {
    forall j :: 0 <= j < i ==> Lookup(node, Idx(counter - j)) == Some(VArr(recs[j]))
  }

  /** Records under int keys survive writes that touch only string keys. */
  lemma StoredKept(recs: seq<Entries>, counter: int, i: int, before: Entries, after: Entries)
    requires 0 <= i <= |recs| && Stored(before, recs, counter, i)
    requires forall k: Key :: !k.Name? ==> Lookup(after, k) == Lookup(before, k)
    ensures Stored(after, recs, counter, i)
  {
    forall j | 0 <= j < i
      ensures Lookup(after, Idx(counter - j)) == Some(VArr(recs[j]))
    {
      assert !Idx(counter - j).Name?;
    }
  }

  /** Storing the next record under the next counter value, and changing
      nothing else, keeps the earlier records where they were. */
  lemma StoredStep(recs: seq<Entries>, i: int, counter: int, before: Entries, after: Entries)
    requires 0 <= i < |recs| && Stored(before, recs, counter, i)
    requires Lookup(after, Idx(counter - i)) == Some(VArr(recs[i]))
    requires forall k :: k != Idx(counter - i) ==> Lookup(after, k) == Lookup(before, k)
    ensures Stored(after, recs, counter, i + 1)
  {
    forall j | 0 <= j < i + 1
      ensures Lookup(after, Idx(counter - j)) == Some(VArr(recs[j]))
    {
      if j < i {
        assert Idx(counter - j) != Idx(counter - i);
      }
    }
  }

  /** `addMissingEntity( null, items[i] )` with its record `recs[i]`: in
      raw mode the record takes the next free index, and otherwise a details
      array without an id is stored under the counter value. */
  method AddItemRecord(cur: Builder, items: seq<Entries>, recs: seq<Entries>, i: int) returns (r: Result<Builder, BuildError>)
    requires 0 <= i < |items| == |recs|
    ensures r.Ok? <==> AcceptableWith(items[i], recs[i]) && !Blocked(cur.data, EntitiesPath)
    ensures r.Ok? ==> r.value == cur.(data := r.value.data, missingCounter := cur.missingCounter - 1)
    ensures r.Ok? ==> KeepsKeys(cur.data, r.value.data, EntitiesPath) && !Blocked(r.value.data, EntitiesPath)
    ensures r.Ok? && (cur.raw || !Isset(items[i], Name("id"))) ==>
      RecordAt(NodeAt(cur.data, EntitiesPath), NodeAt(r.value.data, EntitiesPath),
               RecordKey(cur, Idx(cur.missingCounter)), recs[i], cur.raw)
  {
    r := AddRecord(cur, VNull, items[i], recs[i]);
    if !Isset(items[i], Name("id")) {
      assert MissingKey(cur.missingCounter, VNull, items[i]) == VInt(cur.missingCounter);
    }
  }

  /** The loop body of `addMissingItemsToResult`, with the `i`-th record
      already built. */
  method AddNextRecord(b: Builder, items: seq<Entries>, recs: seq<Entries>, i: int, cur: Builder)
    returns (next: Result<Builder, BuildError>)
    requires i < |items| && Added(b, items, recs, i, cur)
    ensures next.Ok? ==> Added(b, items, recs, i + 1, next.value)
    ensures next.Err? ==> !AcceptableWith(items[i], recs[i]) || Blocked(b.data, EntitiesPath)
    ensures next.Ok? && (b.raw || !Isset(items[i], Name("id"))) ==>
      RecordAt(NodeAt(cur.data, EntitiesPath), NodeAt(next.value.data, EntitiesPath), MissingAt(b, i), recs[i], b.raw)
  {
    next := AddItemRecord(cur, items, recs, i);
    if next.Ok? {
      KeepsKeysTransitive(b.data, cur.data, next.value.data, EntitiesPath);
      if b.raw {
        FillsNextIndex(NodeAt(cur.data, EntitiesPath), NodeAt(next.value.data, EntitiesPath), recs[i]);
      }
    }
  }

  /** Where the `i`-th missing item without an id goes: in raw mode at the
      `i`-th free index, otherwise under the counter value minus `i`. */
  function MissingAt(b: Builder, i: int): Key {
    if b.raw then Idx(FirstFree(b) + i) else Idx(b.missingCounter - i)
  }

  /** A raw-mode append moves the next free index up by one. */
  lemma FillsNextIndex(before: Entries, after: Entries, rec: Entries)
    requires RecordAt(before, after, Idx(NextIndex(before)), rec, true)
    ensures NextIndex(after) == NextIndex(before) + 1
  {
    forall n: int | n != NextIndex(before)
      ensures Lookup(after, Idx(n)).Some? <==> Lookup(before, Idx(n)).Some?
    {
      assert Idx(n) != ElementKey;
    }
    NextIndexAfterFill(before, after);
  }

  /** The first `i` records sit at the indexes `start`, `start + 1`, ...
      of `node`, as successive raw-mode appends leave them. */
  ghost predicate InOrderFrom(node: Entries, recs: seq<Entries>, start: int, i: int)
    requires 0 <= i <= |recs|
  {
    forall j :: 0 <= j < i ==> Lookup(node, Idx(start + j)) == Some(VArr(recs[j]))
  }

  /** Records below `bound` stay where they are when those indexes are left
      alone. */
  lemma InOrderKept(recs: seq<Entries>, start: int, i: int, bound: int, before: Entries, after: Entries)
    requires 0 <= i <= |recs| && start + i <= bound && InOrderFrom(before, recs, start, i)
    requires forall n: int :: n < bound ==> Lookup(after, Idx(n)) == Lookup(before, Idx(n))
    ensures InOrderFrom(after, recs, start, i)
  {
  }

  /** Tagging the node leaves the records in place. */
  lemma InOrderUntagged(recs: seq<Entries>, start: int, i: int, before: Entries, after: Entries)
    requires 0 <= i <= |recs| && InOrderFrom(before, recs, start, i)
    requires forall k :: k != ElementKey ==> Lookup(after, k) == Lookup(before, k)
    ensures InOrderFrom(after, recs, start, i)
  {
    forall j | 0 <= j < i
      ensures Lookup(after, Idx(start + j)) == Some(VArr(recs[j]))
    {
      assert Idx(start + j) != ElementKey;
    }
  }

  /** Appending the next record at the next index keeps the earlier ones
      where they were. */
  lemma InOrderStep(recs: seq<Entries>, i: int, start: int, before: Entries, after: Entries)
    requires 0 <= i < |recs| && InOrderFrom(before, recs, start, i)
    requires RecordAt(before, after, Idx(start + i), recs[i], true)
    ensures InOrderFrom(after, recs, start, i + 1)
  {
    forall j | 0 <= j < i + 1
      ensures Lookup(after, Idx(start + j)) == Some(VArr(recs[j]))
    {
      if j < i {
        assert Idx(start + j) != Idx(start + i) && Idx(start + j) != ElementKey;
      }
    }
  }

  /** `Added`, with the records so far where the mode puts them: under
      successive counter values for keyless items outside raw mode, at
      successive indexes in raw mode. */
  ghost predicate AddedInPlace(b: Builder, items: seq<Entries>, recs: seq<Entries>, i: int, cur: Builder) {
    && Added(b, items, recs, i, cur)
    && (Keyless(b, items) ==> Stored(NodeAt(cur.data, EntitiesPath), recs, b.missingCounter, i))
    && (b.raw ==> InOrderFrom(NodeAt(cur.data, EntitiesPath), recs, FirstFree(b), i))
  }

  /** One more record where `MissingAt` says keeps `AddedInPlace`. */
  lemma AddedInPlaceStep(b: Builder, items: seq<Entries>, recs: seq<Entries>, i: int, cur: Builder, next: Builder)
    requires i < |items| && AddedInPlace(b, items, recs, i, cur) && Added(b, items, recs, i + 1, next)
    requires b.raw || !Isset(items[i], Name("id")) ==>
      RecordAt(NodeAt(cur.data, EntitiesPath), NodeAt(next.data, EntitiesPath), MissingAt(b, i), recs[i], b.raw)
    ensures AddedInPlace(b, items, recs, i + 1, next)
  {
    MissingPlacedStep(b, items, recs, i, NodeAt(cur.data, EntitiesPath), NodeAt(next.data, EntitiesPath));
  }

  /** The placement half of `AddedInPlaceStep`, on the `entities` nodes
      alone. */
  lemma MissingPlacedStep(b: Builder, items: seq<Entries>, recs: seq<Entries>, i: int, before: Entries, after: Entries)
    requires 0 <= i < |items| == |recs|
    requires Keyless(b, items) ==> Stored(before, recs, b.missingCounter, i)
    requires b.raw ==> InOrderFrom(before, recs, FirstFree(b), i)
    requires b.raw || !Isset(items[i], Name("id")) ==> RecordAt(before, after, MissingAt(b, i), recs[i], b.raw)
    ensures Keyless(b, items) ==> Stored(after, recs, b.missingCounter, i + 1)
    ensures b.raw ==> InOrderFrom(after, recs, FirstFree(b), i + 1)
  {
    if Keyless(b, items) {
      assert !Isset(items[i], Name("id"));
      assert RecordAt(before, after, Idx(b.missingCounter - i), recs[i], false);
      StoredStep(recs, i, b.missingCounter, before, after);
    }
    if b.raw {
      assert RecordAt(before, after, Idx(FirstFree(b) + i), recs[i], true);
      InOrderStep(recs, i, FirstFree(b), before, after);
    }
  }

  /** The loop of `addMissingItemsToResult` over records built beforehand. */
  method AddRecords(b: Builder, items: seq<Entries>, recs: seq<Entries>) returns (r: Result<Builder, BuildError>)
    requires |recs| == |items|
    ensures r.Ok? <==>
      && (|items| == 0 || !Blocked(b.data, EntitiesPath))
      && forall j :: 0 <= j < |items| ==> AcceptableWith(items[j], recs[j])
    ensures r.Ok? ==> r.value == b.(data := r.value.data, missingCounter := b.missingCounter - |items|)
    ensures r.Ok? ==> KeepsKeys(b.data, r.value.data, EntitiesPath)
    ensures r.Ok? && Keyless(b, items) ==> Stored(NodeAt(r.value.data, EntitiesPath), recs, b.missingCounter, |items|)
    ensures r.Ok? && b.raw ==> InOrderFrom(NodeAt(r.value.data, EntitiesPath), recs, FirstFree(b), |items|)
    ensures r.Ok? && b.raw ==> FirstFree(r.value) == FirstFree(b) + |items|
    ensures |items| == 0 ==> r == Ok(b)
    ensures r.Ok? && |items| > 0 ==> !Blocked(r.value.data, EntitiesPath)
  {
    var cur := b;
    var i := 0;
    while i < |items|
      invariant AddedInPlace(b, items, recs, i, cur)
    {
      var next := AddNextRecord(b, items, recs, i, cur);
      if next.Err? {
        return Err(next.error);
      }
      AddedInPlaceStep(b, items, recs, i, cur, next.value);
      cur := next.value;
      i := i + 1;
    }
    return Ok(cur);
  }

  /** The record of every missing item, in order. */
  function MissingRecords(items: seq<Entries>): (r: seq<Entries>)
    ensures |r| == |items| && forall j :: 0 <= j < |items| ==> r[j] == MissingRecord(items[j])
  {
    var r := seq(|items|, j requires 0 <= j < |items| => MissingRecord(items[j]));
    assert forall j :: 0 <= j < |items| ==> r[j] == MissingRecord(items[j]);
    r
  }

  /** `addMissingItemsToResult`: one missing entity per details array, in
      order; it fails as soon as one is refused. In raw mode the j-th
      record takes the j-th index after the node's first free one; without
      raw mode and without ids, it is stored under the counter value minus
      j, so no two share a key. */
  method AddMissingItems(b: Builder, items: seq<Entries>) returns (r: Result<Builder, BuildError>)
    ensures r.Ok? <==>
      && (|items| == 0 || !Blocked(b.data, EntitiesPath))
      && forall j :: 0 <= j < |items| ==> Acceptable(items[j])
    ensures r.Ok? ==> r.value == b.(data := r.value.data, missingCounter := b.missingCounter - |items|)
    ensures r.Ok? ==> KeepsKeys(b.data, r.value.data, EntitiesPath)
    ensures r.Ok? && Keyless(b, items) ==> forall j :: 0 <= j < |items| ==>
      Lookup(NodeAt(r.value.data, EntitiesPath), Idx(b.missingCounter - j)) == Some(VArr(MissingRecord(items[j])))
    ensures r.Ok? && b.raw ==> forall j :: 0 <= j < |items| ==>
      Lookup(NodeAt(r.value.data, EntitiesPath), Idx(FirstFree(b) + j)) == Some(VArr(MissingRecord(items[j])))
    ensures |items| == 0 ==> r == Ok(b)
    ensures r.Ok? && |items| > 0 ==> !Blocked(r.value.data, EntitiesPath)
  {
    r := AddRecords(b, items, MissingRecords(items));
  }

  // ---------------------------------------------------------------------
  // Handling entities

  /** The props `handleEntity` passes on: the requested ones, augmented. */
  function HandleProps(params: Params): Props {
    PropsList(PropsFromParams(params.props))
  }

  /** The options `handleEntity` passes on. */
  function HandleOptions(repo: Repo, params: Params, raw: bool): Options {
    SerializationOptionsFor(params, PropsFromParams(params.props), raw, repo.chainFor)
  }

  /** The builder's options once `handleEntity` has added a revision to
      `b`: its own, with the request's merged in. */
  function OptionsAfter(repo: Repo, params: Params, b: Builder): Options {
    Merge(GetOptions(b).1, HandleOptions(repo, params, b.raw))
  }

  /** The details `handleEntity` gives for a requested id without a
      revision: just the id. */
  function IdDetails(key: string): Entries {
    [(Name("id"), VStr(key))]
  }

  /** The record stored for a requested id without a revision: the id and
      the missing marker (`MissingIdRecordIs` shows it is the record
      `addMissingEntity` builds from `IdDetails`). */
  function MissingIdRecord(key: string): Entries {
    [(Name("id"), VStr(key)), (Name("missing"), VStr(""))]
  }

  /** The record `handleEntity` stores for `key`, the options in force being
      `options`. */
  function HandledRecord(repo: Repo, params: Params, options: Options, key: string, rev: Option<EntityRevision>): Entries {
    match rev
    case None => MissingIdRecord(key)
    case Some(er) => EntityRecord(repo.svc, options, er, HandleProps(params), params.siteFilter.OrElse([]))
  }

  /** `array_merge( array( 'id' => $key ), array( 'missing' => "" ) )`. */
  lemma MissingIdRecordIs(key: string)
    ensures MissingRecord(IdDetails(key)) == MissingIdRecord(key)
  {
    MissingRecordOfOne((Name("id"), VStr(key)));
  }

  /** The record of a details array with one string key other than
      `missing`. */
  lemma MissingRecordOfOne(e: (Key, Value))
    requires e.0.Name? && e.0 != Name("missing")
    ensures MissingRecord([e]) == [e, (Name("missing"), VStr(""))]
  {
    var m := (Name("missing"), VStr(""));
    MissingRecordUnfolds([e]);
    MergeIntoFresh([], e);
    assert [] + [e] == [e];
    MergeIntoFresh([e], m);
  }

  lemma MissingRecordUnfolds(details: Entries)
    ensures MissingRecord(details) == MergeInto(MergeInto([], details), [(Name("missing"), VStr(""))])
  {
  }

  /** Merging one string-keyed entry whose key is new appends it. */
  lemma MergeIntoFresh(acc: Entries, e: (Key, Value))
    requires e.0.Name? && !HasKey(acc, e.0)
    ensures MergeInto(acc, [e]) == acc + [e]
  {
    assert [e][1..] == [];
  }

  /** The record of a requested id without a revision is never a list. */
  lemma MissingIdRecordNotList(key: string)
    ensures !IsList(VArr(MissingIdRecord(key)))
  {
    NamedOnlyNotList(MissingIdRecord(key));
  }

  /** The request's options settle after the first revision: merging them
      into options that already hold them changes nothing. */
  lemma OptionsSettle(repo: Repo, params: Params, b: Builder, cur: Builder)
    requires cur.raw == b.raw
    requires cur.options == b.options || cur.options == Some(OptionsAfter(repo, params, b))
    ensures OptionsAfter(repo, params, cur) == OptionsAfter(repo, params, b)
  {
    var o := HandleOptions(repo, params, b.raw);
    if cur.options != b.options {
      MergeAssociative(GetOptions(b).1, o, o);
      MergeNeutral(o);
    }
  }

  /** `handleEntity`: a null revision becomes a missing entity keyed and
      identified by the requested key; a revision is added under the key
      with the augmented props, the request's options and the site filter
      (none when the parameter is unset). */
  function HandleEntity(repo: Repo, params: Params, b: Builder, key: string, rev: Option<EntityRevision>): (r: Result<Builder, BuildError>)
    ensures r.Ok? <==>
      !Blocked(b.data, EntitiesPath) && !IsList(VArr(HandledRecord(repo, params, OptionsAfter(repo, params, b), key, rev)))
    ensures rev.None? ==> (r.Ok? <==> !Blocked(b.data, EntitiesPath))
    ensures r.Ok? && rev.None? ==> r.value == b.(data := r.value.data, missingCounter := b.missingCounter - 1)
    ensures r.Ok? && rev.Some? ==> r.value == b.(data := r.value.data, options := Some(OptionsAfter(repo, params, b)))
    ensures r.Ok? ==> KeepsKeys(b.data, r.value.data, EntitiesPath) && !Blocked(r.value.data, EntitiesPath)
    ensures r.Ok? ==> RecordAt(NodeAt(b.data, EntitiesPath), NodeAt(r.value.data, EntitiesPath), RecordKey(b, Name(key)),
                               HandledRecord(repo, params, OptionsAfter(repo, params, b), key, rev), b.raw)
  {
    match rev
    case None => HandleMissing(b, key)
    case Some(er) => HandleRevision(repo, params, b, key, er)
  }

  /** The null-revision branch of `handleEntity`: the requested key is
      used as it is, with the record `addMissingEntity` builds. */
  function HandleMissing(b: Builder, key: string): (r: Result<Builder, BuildError>)
    ensures r.Ok? <==> !Blocked(b.data, EntitiesPath)
    ensures r.Ok? ==> r.value == b.(data := r.value.data, missingCounter := b.missingCounter - 1)
    ensures r.Ok? ==> KeepsKeys(b.data, r.value.data, EntitiesPath) && !Blocked(r.value.data, EntitiesPath)
    ensures r.Ok? ==> RecordAt(NodeAt(b.data, EntitiesPath), NodeAt(r.value.data, EntitiesPath), RecordKey(b, Name(key)),
                               MissingIdRecord(key), b.raw)
  {
    MissingIdRecordNotList(key);
    assert MissingKey(b.missingCounter, VStr(key), IdDetails(key)) == VStr(key);
    AddRecord(b, VStr(key), IdDetails(key), MissingIdRecord(key))
  }

  /** `HandleMissing` is `addMissingEntity( $key, array( 'id' => $key ) )`. */
  lemma HandleMissingAddsMissingEntity(b: Builder, key: string)
    ensures HandleMissing(b, key) == AddMissingEntity(b, VStr(key), IdDetails(key))
  {
    MissingIdRecordIs(key);
  }

  /** The revision branch of `handleEntity`. */
  function HandleRevision(repo: Repo, params: Params, b: Builder, key: string, er: EntityRevision): (r: Result<Builder, BuildError>)
    ensures var record := EntityRecord(repo.svc, OptionsAfter(repo, params, b), er, HandleProps(params), params.siteFilter.OrElse([]));
      && (r.Ok? <==> !Blocked(b.data, EntitiesPath) && !IsList(VArr(record)))
      && (r.Ok? ==> r.value == b.(data := r.value.data, options := Some(OptionsAfter(repo, params, b))))
      && (r.Ok? ==> KeepsKeys(b.data, r.value.data, EntitiesPath) && !Blocked(r.value.data, EntitiesPath))
      && (r.Ok? ==> RecordAt(NodeAt(b.data, EntitiesPath), NodeAt(r.value.data, EntitiesPath), RecordKey(b, Name(key)), record, b.raw))
  {
    AddEntityRevision(b, repo.svc, Some(key), er, Some(HandleOptions(repo, params, b.raw)),
                      HandleProps(params), params.siteFilter.OrElse([]))
  }

  /** `handleEntity` with the record and the merged options given: a
      missing entity goes in with the requested key, a revision's record
      with the options kept. */
  function HandleEntityWith(b: Builder, key: string, rev: Option<EntityRevision>, rec: Entries, m: Options): (r: Result<Builder, BuildError>)
    ensures r.Ok? <==> !Blocked(b.data, EntitiesPath) && !IsList(VArr(rec))
    ensures r.Ok? ==> r.value.raw == b.raw && !Blocked(r.value.data, EntitiesPath)
    ensures r.Ok? ==> r.value.options == (if rev.None? then b.options else Some(m))
    ensures r.Ok? ==> RecordAt(NodeAt(b.data, EntitiesPath), NodeAt(r.value.data, EntitiesPath), RecordKey(b, Name(key)), rec, b.raw)
  {
    match rev
    case None =>
      assert MissingKey(b.missingCounter, VStr(key), IdDetails(key)) == VStr(key);
      AddRecord(b, VStr(key), IdDetails(key), rec)
    case Some(_) => AppendRecord(b, key, m, rec)
  }

  /** `handleEntity` is `HandleEntityWith` on the record it builds, even
      after earlier revisions merged the same options in. */
  lemma HandleEntityIsWith(repo: Repo, params: Params, b: Builder, cur: Builder, key: string, rev: Option<EntityRevision>)
    requires cur.raw == b.raw
    requires cur.options == b.options || cur.options == Some(OptionsAfter(repo, params, b))
    ensures var m := OptionsAfter(repo, params, b);
      HandleEntity(repo, params, cur, key, rev) == HandleEntityWith(cur, key, rev, HandledRecord(repo, params, m, key, rev), m)
  {
    OptionsSettle(repo, params, b, cur);
  }

  // ---------------------------------------------------------------------
  // The loop over the revisions

  /** A revision list as `getEntityRevisionsFromEntityIds` returns it:
      requested serialization to revision, or none. */
  type RevisionMap = seq<(string, Option<EntityRevision>)>

  /** The builder after the first `i` revisions were handled, starting from
      `b`: the mode is kept, the options are the builder's own or `m`,
      `entities` can be written, no record so far was a list, and the index
      keys of `entities` are untouched. */
  ghost predicate Handled(b: Builder, recs: seq<Entries>, i: int, cur: Builder, m: Options) {
    && 0 <= i <= |recs|
    && cur.raw == b.raw
    && (cur.options == b.options || cur.options == Some(m))
    && (i == 0 ==> cur == b)
    && (i > 0 ==> !Blocked(cur.data, EntitiesPath) && !Blocked(b.data, EntitiesPath))
    && (forall j :: 0 <= j < i ==> !IsList(VArr(recs[j])))
    && (!b.raw ==> forall k: Key :: !k.Name? ==>
          Lookup(NodeAt(cur.data, EntitiesPath), k) == Lookup(NodeAt(b.data, EntitiesPath), k))
    && (b.raw ==> FirstFree(cur) == FirstFree(b) + i)
    && (b.raw ==> forall n: int :: n < FirstFree(b) ==>
          Lookup(NodeAt(cur.data, EntitiesPath), Idx(n)) == Lookup(NodeAt(b.data, EntitiesPath), Idx(n)))
  }

  /** The first `i` records sit under their revisions' keys in `node`. */
  ghost predicate StoredByKey(node: Entries, revs: RevisionMap, recs: seq<Entries>, i: int)
    requires 0 <= i <= |revs| == |recs|
  {
    forall j :: 0 <= j < i ==> Lookup(node, Name(revs[j].0)) == Some(VArr(recs[j]))
  }

  /** Storing the next record under its own key, and changing nothing
      else, keeps the earlier ones where they were. */
  lemma StoredByKeyStep(revs: RevisionMap, recs: seq<Entries>, i: int, before: Entries, after: Entries)
    requires 0 <= i < |revs| == |recs| && UniqueKeys(revs)
    requires StoredByKey(before, revs, recs, i)
    requires Lookup(after, Name(revs[i].0)) == Some(VArr(recs[i]))
    requires forall k :: k != Name(revs[i].0) ==> Lookup(after, k) == Lookup(before, k)
    ensures StoredByKey(after, revs, recs, i + 1)
  {
    forall j | 0 <= j < i
      ensures Lookup(after, Name(revs[j].0)) == Some(VArr(recs[j]))
    {
      assert Name(revs[j].0) != Name(revs[i].0);
    }
  }

  /** The first `i` records sit where the loop puts them: under their keys,
      or in raw mode at successive indexes from the first free one. */
  ghost predicate Placed(b: Builder, revs: RevisionMap, recs: seq<Entries>, i: int, node: Entries)
    requires 0 <= i <= |revs| == |recs|
  {
    && (!b.raw ==> StoredByKey(node, revs, recs, i))
    && (b.raw ==> InOrderFrom(node, recs, FirstFree(b), i))
  }

  /** Writing the next record where the loop puts it keeps the earlier
      ones in place. */
  lemma PlacedStep(b: Builder, revs: RevisionMap, recs: seq<Entries>, i: int, before: Entries, after: Entries)
    requires 0 <= i < |revs| == |recs| && UniqueKeys(revs)
    requires Placed(b, revs, recs, i, before)
    requires RecordAt(before, after, HandledAt(b, revs, i), recs[i], b.raw)
    ensures Placed(b, revs, recs, i + 1, after)
  {
    if b.raw {
      InOrderStep(recs, i, FirstFree(b), before, after);
    } else {
      StoredByKeyStep(revs, recs, i, before, after);
    }
  }

  /** `HandleEntityWith`, as a step of the loop. */
  method HandleStep(cur: Builder, key: string, rev: Option<EntityRevision>, rec: Entries, m: Options)
    returns (next: Result<Builder, BuildError>)
    ensures next.Ok? <==> !Blocked(cur.data, EntitiesPath) && !IsList(VArr(rec))
    ensures next.Ok? ==> next.value.raw == cur.raw && !Blocked(next.value.data, EntitiesPath)
    ensures next.Ok? ==> next.value.options == (if rev.None? then cur.options else Some(m))
    ensures next.Ok? ==> RecordAt(NodeAt(cur.data, EntitiesPath), NodeAt(next.value.data, EntitiesPath),
                                  RecordKey(cur, Name(key)), rec, cur.raw)
  {
    next := HandleEntityWith(cur, key, rev, rec, m);
  }

  /** One turn of the loop of `execute`, the `i`-th record built
      beforehand. */
  method HandleAt(b: Builder, revs: RevisionMap, recs: seq<Entries>, m: Options, i: int, cur: Builder)
    returns (next: Result<Builder, BuildError>)
    requires 0 <= i < |revs| == |recs|
    requires Handled(b, recs, i, cur, m)
    ensures next.Ok? <==> !IsList(VArr(recs[i])) && !Blocked(cur.data, EntitiesPath)
    ensures next.Ok? ==> Handled(b, recs, i + 1, next.value, m)
    ensures next.Ok? ==> RecordAt(NodeAt(cur.data, EntitiesPath), NodeAt(next.value.data, EntitiesPath),
                                  HandledAt(b, revs, i), recs[i], b.raw)
  {
    next := HandleStep(cur, revs[i].0, revs[i].1, recs[i], m);
    if next.Ok? {
      HandledStep(b, revs, recs, m, i, cur, next.value);
    }
  }

  /** A record written where `RecordKey` says keeps `Handled`, and that
      place is `HandledAt`. */
  lemma HandledStep(b: Builder, revs: RevisionMap, recs: seq<Entries>, m: Options, i: int, cur: Builder, next: Builder)
    requires 0 <= i < |revs| == |recs| && Handled(b, recs, i, cur, m)
    requires !IsList(VArr(recs[i])) && !Blocked(cur.data, EntitiesPath) && !Blocked(next.data, EntitiesPath)
    requires next.raw == cur.raw && next.options == (if revs[i].1.None? then cur.options else Some(m))
    requires RecordAt(NodeAt(cur.data, EntitiesPath), NodeAt(next.data, EntitiesPath), RecordKey(cur, Name(revs[i].0)), recs[i], cur.raw)
    ensures Handled(b, recs, i + 1, next, m)
    ensures RecordAt(NodeAt(cur.data, EntitiesPath), NodeAt(next.data, EntitiesPath), HandledAt(b, revs, i), recs[i], b.raw)
  {
    var before, after := NodeAt(cur.data, EntitiesPath), NodeAt(next.data, EntitiesPath);
    assert RecordKey(cur, Name(revs[i].0)) == HandledAt(b, revs, i);
    if b.raw {
      FillsNextIndex(before, after, recs[i]);
      forall n: int | n < FirstFree(b)
        ensures Lookup(after, Idx(n)) == Lookup(NodeAt(b.data, EntitiesPath), Idx(n))
      {
        assert Idx(n) != Idx(FirstFree(cur)) && Idx(n) != ElementKey;
      }
    } else {
      forall k: Key | !k.Name?
        ensures Lookup(after, k) == Lookup(NodeAt(b.data, EntitiesPath), k)
      {
        assert k != Name(revs[i].0);
      }
    }
  }

  /** Where the `i`-th requested id's record goes: under its serialization,
      or in raw mode at the `i`-th free index. */
  function HandledAt(b: Builder, revs: RevisionMap, i: int): Key
    requires 0 <= i < |revs|
  {
    if b.raw then Idx(FirstFree(b) + i) else Name(revs[i].0)
  }

  /** The loop of `execute` over records built beforehand. */
  method HandleRecords(b: Builder, revs: RevisionMap, recs: seq<Entries>, m: Options)
    returns (r: Result<Builder, BuildError>)
    requires UniqueKeys(revs) && |recs| == |revs|
    ensures r.Ok? <==> (|revs| == 0 || !Blocked(b.data, EntitiesPath)) && forall j :: 0 <= j < |recs| ==> !IsList(VArr(recs[j]))
    ensures |revs| == 0 ==> r == Ok(b)
    ensures r.Ok? ==> r.value.raw == b.raw
    ensures r.Ok? && |revs| > 0 ==> !Blocked(r.value.data, EntitiesPath)
    ensures r.Ok? && !b.raw ==> StoredByKey(NodeAt(r.value.data, EntitiesPath), revs, recs, |revs|)
    ensures r.Ok? && !b.raw ==> forall k: Key :: !k.Name? ==>
      Lookup(NodeAt(r.value.data, EntitiesPath), k) == Lookup(NodeAt(b.data, EntitiesPath), k)
    ensures r.Ok? && b.raw ==> InOrderFrom(NodeAt(r.value.data, EntitiesPath), recs, FirstFree(b), |revs|)
    ensures r.Ok? && b.raw ==> forall n: int :: n < FirstFree(b) ==>
      Lookup(NodeAt(r.value.data, EntitiesPath), Idx(n)) == Lookup(NodeAt(b.data, EntitiesPath), Idx(n))
  {
    var cur := b;
    var i := 0;
    while i < |revs|
      invariant Handled(b, recs, i, cur, m)
      invariant Placed(b, revs, recs, i, NodeAt(cur.data, EntitiesPath))
    {
      var next := HandleAt(b, revs, recs, m, i, cur);
      if next.Err? {
        return Err(next.error);
      }
      PlacedStep(b, revs, recs, i, NodeAt(cur.data, EntitiesPath), NodeAt(next.value.data, EntitiesPath));
      cur := next.value;
      i := i + 1;
    }
    return Ok(cur);
  }

  // ---------------------------------------------------------------------
  // The request

  /** The end of `execute`: in raw mode `entities` is tagged `entity`, then
      the request is marked successful. */
  method Finish(b: Builder) returns (r: Result<Builder, BuildError>)
    ensures r.Ok? <==> !b.raw || !Blocked(b.data, EntitiesPath)
    ensures r.Ok? ==> r.value.raw == b.raw && Get(VArr(r.value.data), [Name("success")]) == Some(VInt(1))
    ensures r.Ok? && !b.raw ==> NodeAt(r.value.data, EntitiesPath) == NodeAt(b.data, EntitiesPath)
    ensures r.Ok? && b.raw ==> Lookup(NodeAt(r.value.data, EntitiesPath), ElementKey) == Some(VStr("entity"))
    ensures r.Ok? ==> forall k :: k != ElementKey ==>
      Lookup(NodeAt(r.value.data, EntitiesPath), k) == Lookup(NodeAt(b.data, EntitiesPath), k)
  {
    if b.raw {
      var tagged := TagEntities(b);
      if tagged.Err? {
        return Err(tagged.error);
      }
      var done := Succeed(tagged.value);
      return Ok(done);
    }
    var done := Succeed(b);
    return Ok(done);
  }

  /** `setIndexedTagName_internal( array( 'entities' ), 'entity' )`. */
  method TagEntities(b: Builder) returns (r: Result<Builder, BuildError>)
    ensures r.Ok? <==> !Blocked(b.data, EntitiesPath)
    ensures r.Ok? ==> r.value.raw == b.raw
    ensures r.Ok? ==> Lookup(NodeAt(r.value.data, EntitiesPath), ElementKey) == Some(VStr("entity"))
    ensures r.Ok? ==> forall k :: k != ElementKey ==>
      Lookup(NodeAt(r.value.data, EntitiesPath), k) == Lookup(NodeAt(b.data, EntitiesPath), k)
  {
    var tagged := SetIndexedTagName(b.data, EntitiesPath, "entity");
    if tagged.Err? {
      return Err(ResultConflict);
    }
    return Ok(b.(data := tagged.value));
  }

  /** `markSuccess( 1 )`, which cannot fail; `entities` is left alone. */
  method Succeed(b: Builder) returns (r: Builder)
    ensures r.raw == b.raw && Get(VArr(r.data), [Name("success")]) == Some(VInt(1))
    ensures NodeAt(r.data, EntitiesPath) == NodeAt(b.data, EntitiesPath)
  {
    var done := MarkSuccess(b, VInt(1));
    assert done.Ok?;
    assert Get(VArr(done.value.data), EntitiesPath) == Get(VArr(b.data), EntitiesPath);
    return done.value;
  }

  /** What `execute` needs of the builder and the collaborators, once the
      ids are known: every missing item's details are accepted, no entity
      record is a list, and `entities` can be written if anything is written
      to it. */
  ghost predicate Writable(repo: Repo, params: Params, b: Builder, ids: seq<EntityId>, missing: seq<Entries>) {
    && (forall j :: 0 <= j < |missing| ==> Acceptable(missing[j]))
    && (forall j :: 0 <= j < |ids| ==>
          !IsList(VArr(HandledRecord(repo, params, OptionsAfter(repo, params, b), ids[j].serialization,
                                     GetEntityRevision(repo, ids[j], ResolveRedirects(params))))))
    && (b.raw || |missing| > 0 || |ids| > 0 ==> !Blocked(b.data, EntitiesPath))
  }

  /** The part of `execute` after the ids are known: the missing items
      first (that happens while the ids are gathered), then one
      `handleEntity` per requested serialization, then `Finish`. */
  method WriteEntities(repo: Repo, params: Params, b: Builder, ids: seq<EntityId>, missing: seq<Entries>)
    returns (r: Result<Builder, BuildError>)
    requires DistinctSerializations(ids)
    ensures r.Ok? <==> Writable(repo, params, b, ids, missing)
    ensures r.Ok? ==> r.value.raw == b.raw && Get(VArr(r.value.data), [Name("success")]) == Some(VInt(1))
    ensures r.Ok? && !b.raw ==> forall j :: 0 <= j < |ids| ==>
      Lookup(NodeAt(r.value.data, EntitiesPath), Name(ids[j].serialization)) ==
        Some(VArr(HandledRecord(repo, params, OptionsAfter(repo, params, b), ids[j].serialization,
                                GetEntityRevision(repo, ids[j], ResolveRedirects(params)))))
    ensures r.Ok? && Keyless(b, missing) ==>
      Stored(NodeAt(r.value.data, EntitiesPath), MissingRecords(missing), b.missingCounter, |missing|)
    ensures r.Ok? && b.raw ==> Lookup(NodeAt(r.value.data, EntitiesPath), ElementKey) == Some(VStr("entity"))
    ensures r.Ok? && b.raw ==> InOrderFrom(NodeAt(r.value.data, EntitiesPath), MissingRecords(missing), FirstFree(b), |missing|)
    ensures r.Ok? && b.raw ==> forall j :: 0 <= j < |ids| ==>
      Lookup(NodeAt(r.value.data, EntitiesPath), Idx(FirstFree(b) + |missing| + j)) ==
        Some(VArr(HandledRecord(repo, params, OptionsAfter(repo, params, b), ids[j].serialization,
                                GetEntityRevision(repo, ids[j], ResolveRedirects(params)))))
  {
    r := WriteIds(repo, params, b, ids, missing, MissingRecords(missing));
  }

  /** `WriteEntities` with the records of the missing items given as
      `mrecs`. */
  method WriteIds(repo: Repo, params: Params, b: Builder, ids: seq<EntityId>, missing: seq<Entries>, mrecs: seq<Entries>)
    returns (r: Result<Builder, BuildError>)
    requires DistinctSerializations(ids) && |mrecs| == |missing|
    ensures r.Ok? <==>
      && (forall j :: 0 <= j < |missing| ==> AcceptableWith(missing[j], mrecs[j]))
      && (forall j :: 0 <= j < |ids| ==>
            !IsList(VArr(HandledRecord(repo, params, OptionsAfter(repo, params, b), ids[j].serialization,
                                       GetEntityRevision(repo, ids[j], ResolveRedirects(params))))))
      && (b.raw || |missing| > 0 || |ids| > 0 ==> !Blocked(b.data, EntitiesPath))
    ensures r.Ok? ==> r.value.raw == b.raw && Get(VArr(r.value.data), [Name("success")]) == Some(VInt(1))
    ensures r.Ok? && !b.raw ==> forall j :: 0 <= j < |ids| ==>
      Lookup(NodeAt(r.value.data, EntitiesPath), Name(ids[j].serialization)) ==
        Some(VArr(HandledRecord(repo, params, OptionsAfter(repo, params, b), ids[j].serialization,
                                GetEntityRevision(repo, ids[j], ResolveRedirects(params)))))
    ensures r.Ok? && Keyless(b, missing) ==> Stored(NodeAt(r.value.data, EntitiesPath), mrecs, b.missingCounter, |missing|)
    ensures r.Ok? && b.raw ==> Lookup(NodeAt(r.value.data, EntitiesPath), ElementKey) == Some(VStr("entity"))
    ensures r.Ok? && b.raw ==> InOrderFrom(NodeAt(r.value.data, EntitiesPath), mrecs, FirstFree(b), |missing|)
    ensures r.Ok? && b.raw ==> forall j :: 0 <= j < |ids| ==>
      Lookup(NodeAt(r.value.data, EntitiesPath), Idx(FirstFree(b) + |missing| + j)) ==
        Some(VArr(HandledRecord(repo, params, OptionsAfter(repo, params, b), ids[j].serialization,
                                GetEntityRevision(repo, ids[j], ResolveRedirects(params)))))
  {
    var resolve := ResolveRedirects(params);
    var revs := Revisions(repo, ids, resolve);
    RevisionsInOrder(repo, ids, resolve);
    r := WriteRevisions(repo, params, b, missing, mrecs, revs, OptionsAfter(repo, params, b));
  }

  /** `WriteEntities` with the revisions already looked up; `m` is the
      options the entity records are built with. */
  method WriteRevisions(repo: Repo, params: Params, b: Builder, missing: seq<Entries>, mrecs: seq<Entries>,
                        revs: RevisionMap, m: Options)
    returns (r: Result<Builder, BuildError>)
    requires UniqueKeys(revs) && |mrecs| == |missing|
    ensures r.Ok? <==>
      && (forall j :: 0 <= j < |missing| ==> AcceptableWith(missing[j], mrecs[j]))
      && (forall j :: 0 <= j < |revs| ==> !IsList(VArr(HandledRecord(repo, params, m, revs[j].0, revs[j].1))))
      && (b.raw || |missing| > 0 || |revs| > 0 ==> !Blocked(b.data, EntitiesPath))
    ensures r.Ok? ==> r.value.raw == b.raw && Get(VArr(r.value.data), [Name("success")]) == Some(VInt(1))
    ensures r.Ok? && !b.raw ==> forall j :: 0 <= j < |revs| ==>
      Lookup(NodeAt(r.value.data, EntitiesPath), Name(revs[j].0)) ==
        Some(VArr(HandledRecord(repo, params, m, revs[j].0, revs[j].1)))
    ensures r.Ok? && Keyless(b, missing) ==> Stored(NodeAt(r.value.data, EntitiesPath), mrecs, b.missingCounter, |missing|)
    ensures r.Ok? && b.raw ==> Lookup(NodeAt(r.value.data, EntitiesPath), ElementKey) == Some(VStr("entity"))
    ensures r.Ok? && b.raw ==> InOrderFrom(NodeAt(r.value.data, EntitiesPath), mrecs, FirstFree(b), |missing|)
    ensures r.Ok? && b.raw ==> forall j :: 0 <= j < |revs| ==>
      Lookup(NodeAt(r.value.data, EntitiesPath), Idx(FirstFree(b) + |missing| + j)) ==
        Some(VArr(HandledRecord(repo, params, m, revs[j].0, revs[j].1)))
  {
    var recs := seq(|revs|, j requires 0 <= j < |revs| => HandledRecord(repo, params, m, revs[j].0, revs[j].1));
    assert forall j :: 0 <= j < |revs| ==> recs[j] == HandledRecord(repo, params, m, revs[j].0, revs[j].1);
    r := WriteRecords(b, missing, mrecs, revs, recs, m);
    if r.Ok? {
      RevisionRecordsPlaced(repo, params, b, missing, mrecs, revs, recs, m, NodeAt(r.value.data, EntitiesPath));
    }
  }

  /** `AllPlaced` read record by record, for the records `handleEntity`
      builds from the revisions. */
  lemma RevisionRecordsPlaced(repo: Repo, params: Params, b: Builder, missing: seq<Entries>, mrecs: seq<Entries>,
                              revs: RevisionMap, recs: seq<Entries>, m: Options, node: Entries)
    requires |mrecs| == |missing| && |recs| == |revs|
    requires forall j :: 0 <= j < |revs| ==> recs[j] == HandledRecord(repo, params, m, revs[j].0, revs[j].1)
    requires AllPlaced(b, missing, mrecs, revs, recs, node)
    ensures !b.raw ==> forall j :: 0 <= j < |revs| ==>
      Lookup(node, Name(revs[j].0)) == Some(VArr(HandledRecord(repo, params, m, revs[j].0, revs[j].1)))
    ensures b.raw ==> forall j :: 0 <= j < |revs| ==>
      Lookup(node, Idx(FirstFree(b) + |missing| + j)) == Some(VArr(HandledRecord(repo, params, m, revs[j].0, revs[j].1)))
    ensures Keyless(b, missing) ==> Stored(node, mrecs, b.missingCounter, |missing|)
    ensures b.raw ==> InOrderFrom(node, mrecs, FirstFree(b), |missing|)
  {
    if b.raw {
      forall j | 0 <= j < |revs|
        ensures Lookup(node, Idx(FirstFree(b) + |missing| + j)) == Some(VArr(HandledRecord(repo, params, m, revs[j].0, revs[j].1)))
      {
        assert Lookup(node, Idx(FirstFree(b) + |missing| + j)) == Some(VArr(recs[j]));
      }
    } else {
      forall j | 0 <= j < |revs|
        ensures Lookup(node, Name(revs[j].0)) == Some(VArr(HandledRecord(repo, params, m, revs[j].0, revs[j].1)))
      {
        assert Lookup(node, Name(revs[j].0)) == Some(VArr(recs[j]));
      }
    }
  }

  /** `WriteEntities` with every record already built: `mrecs` for the
      missing items, `recs` for the requested ids, `m` the options the
      entity records are built with. */
  method WriteRecords(b: Builder, missing: seq<Entries>, mrecs: seq<Entries>, revs: RevisionMap, recs: seq<Entries>, m: Options)
    returns (r: Result<Builder, BuildError>)
    requires |mrecs| == |missing| && UniqueKeys(revs) && |recs| == |revs|
    ensures r.Ok? <==>
      && (forall j :: 0 <= j < |missing| ==> AcceptableWith(missing[j], mrecs[j]))
      && (forall j :: 0 <= j < |recs| ==> !IsList(VArr(recs[j])))
      && (b.raw || |missing| > 0 || |revs| > 0 ==> !Blocked(b.data, EntitiesPath))
    ensures r.Ok? ==> r.value.raw == b.raw && Get(VArr(r.value.data), [Name("success")]) == Some(VInt(1))
    ensures r.Ok? ==> AllPlaced(b, missing, mrecs, revs, recs, NodeAt(r.value.data, EntitiesPath))
    ensures r.Ok? && b.raw ==> Lookup(NodeAt(r.value.data, EntitiesPath), ElementKey) == Some(VStr("entity"))
  {
    var b2 := AddAll(b, missing, mrecs, revs, recs, m);
    if b2.Err? {
      return Err(b2.error);
    }
    r := Finish(b2.value);
    if r.Ok? && b.raw {
      AllPlacedUntagged(b, missing, mrecs, revs, recs, NodeAt(b2.value.data, EntitiesPath), NodeAt(r.value.data, EntitiesPath));
    }
  }

  /** Where the records of `WriteRecords` sit in the `entities` node: the
      requested ids' under their keys, or in raw mode the missing items'
      and then the requested ids' at successive indexes from the first
      free one; keyless missing items outside raw mode under the counter
      values. */
  ghost predicate AllPlaced(b: Builder, missing: seq<Entries>, mrecs: seq<Entries>, revs: RevisionMap, recs: seq<Entries>, node: Entries)
    requires |mrecs| == |missing| && |recs| == |revs|
  {
    && (!b.raw ==> StoredByKey(node, revs, recs, |revs|))
    && (Keyless(b, missing) ==> Stored(node, mrecs, b.missingCounter, |missing|))
    && (b.raw ==> InOrderFrom(node, mrecs, FirstFree(b), |missing|))
    && (b.raw ==> InOrderFrom(node, recs, FirstFree(b) + |missing|, |revs|))
  }

  /** Tagging the node leaves every record in place. */
  lemma AllPlacedUntagged(b: Builder, missing: seq<Entries>, mrecs: seq<Entries>, revs: RevisionMap, recs: seq<Entries>,
                          before: Entries, after: Entries)
    requires |mrecs| == |missing| && |recs| == |revs|
    requires b.raw && AllPlaced(b, missing, mrecs, revs, recs, before)
    requires forall k :: k != ElementKey ==> Lookup(after, k) == Lookup(before, k)
    ensures AllPlaced(b, missing, mrecs, revs, recs, after)
  {
    InOrderUntagged(mrecs, FirstFree(b), |missing|, before, after);
    InOrderUntagged(recs, FirstFree(b) + |missing|, |revs|, before, after);
  }

  /** The missing items, then one record per requested id: `WriteRecords`
      before the final tag and success flag. */
  method AddAll(b: Builder, missing: seq<Entries>, mrecs: seq<Entries>, revs: RevisionMap, recs: seq<Entries>, m: Options)
    returns (r: Result<Builder, BuildError>)
    requires |mrecs| == |missing| && UniqueKeys(revs) && |recs| == |revs|
    ensures r.Ok? <==>
      && (forall j :: 0 <= j < |missing| ==> AcceptableWith(missing[j], mrecs[j]))
      && (forall j :: 0 <= j < |recs| ==> !IsList(VArr(recs[j])))
      && (|missing| > 0 || |revs| > 0 ==> !Blocked(b.data, EntitiesPath))
    ensures r.Ok? ==> r.value.raw == b.raw && (Blocked(r.value.data, EntitiesPath) <==> Blocked(b.data, EntitiesPath))
    ensures r.Ok? ==> AllPlaced(b, missing, mrecs, revs, recs, NodeAt(r.value.data, EntitiesPath))
  {
    var b1 := AddRecords(b, missing, mrecs);
    if b1.Err? {
      return Err(b1.error);
    }
    r := HandleRecords(b1.value, revs, recs, m);
    if r.Ok? {
      var n1, n2 := NodeAt(b1.value.data, EntitiesPath), NodeAt(r.value.data, EntitiesPath);
      if b.raw {
        RawPlaced(b, FirstFree(b1.value), missing, mrecs, revs, recs, n1, n2);
      } else {
        KeyedPlaced(b, missing, mrecs, revs, recs, n1, n2);
      }
    }
  }

  /** `AllPlaced` in raw mode, from the two loops' postconditions. */
  lemma RawPlaced(b: Builder, mid: int, missing: seq<Entries>, mrecs: seq<Entries>, revs: RevisionMap, recs: seq<Entries>,
                  n1: Entries, n2: Entries)
    requires b.raw && |mrecs| == |missing| && |recs| == |revs|
    requires InOrderFrom(n1, mrecs, FirstFree(b), |missing|) && mid == FirstFree(b) + |missing|
    requires InOrderFrom(n2, recs, mid, |revs|)
    requires forall n: int :: n < mid ==> Lookup(n2, Idx(n)) == Lookup(n1, Idx(n))
    ensures AllPlaced(b, missing, mrecs, revs, recs, n2)
  {
    InOrderKept(mrecs, FirstFree(b), |missing|, mid, n1, n2);
  }

  /** `AllPlaced` outside raw mode, from the two loops' postconditions. */
  lemma KeyedPlaced(b: Builder, missing: seq<Entries>, mrecs: seq<Entries>, revs: RevisionMap, recs: seq<Entries>,
                    n1: Entries, n2: Entries)
    requires !b.raw && |mrecs| == |missing| && |recs| == |revs|
    requires Keyless(b, missing) ==> Stored(n1, mrecs, b.missingCounter, |missing|)
    requires StoredByKey(n2, revs, recs, |revs|)
    requires forall k: Key :: !k.Name? ==> Lookup(n2, k) == Lookup(n1, k)
    ensures AllPlaced(b, missing, mrecs, revs, recs, n2)
  {
    if Keyless(b, missing) {
      StoredKept(mrecs, b.missingCounter, |missing|, n1, n2);
    }
  }


  /** In raw mode, the records of the ids `execute` found sit at successive
      indexes after the items the title lookup found missing. */
  lemma RawIdsPlaced(repo: Repo, params: Params, b: Builder, ids: seq<EntityId>, missing: seq<Entries>, node: Entries)
    requires EntityIdsFromParams(repo, params) == Ok((ids, missing))
    requires forall j :: 0 <= j < |ids| ==>
      Lookup(node, Idx(FirstFree(b) + |missing| + j)) ==
        Some(VArr(HandledRecord(repo, params, OptionsAfter(repo, params, b), ids[j].serialization,
                                GetEntityRevision(repo, ids[j], ResolveRedirects(params)))))
    ensures forall j :: 0 <= j < |ids| ==>
        Lookup(node, Idx(FirstFree(b) + |ByTitle(repo, params).1| + j)) ==
          Some(VArr(HandledRecord(repo, params, OptionsAfter(repo, params, b), ids[j].serialization,
                                  GetEntityRevision(repo, ids[j], ResolveRedirects(params)))))
  {
    var found := EntityIdsFromParams(repo, params);
    assert found.value.0 == ids;
    assert |ByTitle(repo, params).1| == |missing|;
    forall j | 0 <= j < |ids|
      ensures Lookup(node, Idx(FirstFree(b) + |ByTitle(repo, params).1| + j)) ==
        Some(VArr(HandledRecord(repo, params, OptionsAfter(repo, params, b), ids[j].serialization,
                                GetEntityRevision(repo, ids[j], ResolveRedirects(params)))))
    {
      var rec := HandledRecord(repo, params, OptionsAfter(repo, params, b), ids[j].serialization,
                               GetEntityRevision(repo, ids[j], ResolveRedirects(params)));
      assert Lookup(node, Idx(FirstFree(b) + |missing| + j)) == Some(VArr(rec));
      var k1, k2 := Idx(FirstFree(b) + |missing| + j), Idx(FirstFree(b) + |ByTitle(repo, params).1| + j);
      assert k1 == k2;
      assert Lookup(node, k2) == Some(VArr(rec));
    }
  }

  /** `execute`: the parameter check, then the ids (an unparsable one ends
      the request), then the entities, then the success flag. */
  method Execute(repo: Repo, params: Params, b: Builder) returns (r: Result<Builder, ApiError>)
    ensures ParamsMissing(params) ==> r == Err(ApiError("param-missing", ParamMissingMessage))
    ensures params.ids.Some? && ParseIds(repo.parseId, params.ids.value).Err? ==>
      r == Err(ParseIds(repo.parseId, params.ids.value).error)
    ensures var found := EntityIdsFromParams(repo, params);
      r.Ok? <==> !ParamsMissing(params) && found.Ok? && Writable(repo, params, b, found.value.0, found.value.1)
    ensures r.Ok? ==> r.value.raw == b.raw && Get(VArr(r.value.data), [Name("success")]) == Some(VInt(1))
    ensures r.Ok? && !b.raw ==> var ids := EntityIdsFromParams(repo, params).value.0;
      forall j :: 0 <= j < |ids| ==>
        Lookup(NodeAt(r.value.data, EntitiesPath), Name(ids[j].serialization)) ==
          Some(VArr(HandledRecord(repo, params, OptionsAfter(repo, params, b), ids[j].serialization,
                                  GetEntityRevision(repo, ids[j], ResolveRedirects(params)))))
    ensures r.Ok? && b.raw ==> Lookup(NodeAt(r.value.data, EntitiesPath), ElementKey) == Some(VStr("entity"))
    ensures r.Ok? && b.raw ==> var ids := EntityIdsFromParams(repo, params).value.0;
      forall j :: 0 <= j < |ids| ==>
        Lookup(NodeAt(r.value.data, EntitiesPath), Idx(FirstFree(b) + |ByTitle(repo, params).1| + j)) ==
          Some(VArr(HandledRecord(repo, params, OptionsAfter(repo, params, b), ids[j].serialization,
                                  GetEntityRevision(repo, ids[j], ResolveRedirects(params)))))
  {
    if ParamsMissing(params) {
      return Err(ApiError("param-missing", ParamMissingMessage));
    }
    var found := EntityIdsFromParams(repo, params);
    if found.Err? {
      return Err(found.error);
    }
    var ids, missing := found.value.0, found.value.1;
    var w := WriteEntities(repo, params, b, ids, missing);
    if w.Err? {
      return Err(BuilderFailure(w.error));
    }
    if b.raw {
      RawIdsPlaced(repo, params, b, ids, missing, NodeAt(w.value.data, EntitiesPath));
    }
    return Ok(w.value);
  }
}
