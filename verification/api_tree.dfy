/** The result tree of an API response, as far as the builder uses it.
    `ApiResult` is not part of this model; its behaviour is taken to be:
    - `addValue($path, $name, $v)` walks `$path` from the root, turning
      every unset or null step into an empty array, and fails when a step
      holds a scalar; at the end a null name appends `$v` positionally and
      any other name stores `$v` under that key, replacing what was there;
    - `setIndexedTagName` records the tag as the array's `_element` entry.
    The first rule stands in for ApiResult's own conflict handling, which
    is not modelled. */
module ApiTree {
  import opened Wrappers
  import opened OrderedMaps
  import opened PhpValues

  /** A sequence of keys from the root. */
  type Path = seq<Key>

  datatype TreeError = ScalarInPath

  /** The value reached by following `path` from `v`, if any. */
  function Get(v: Value, path: Path): Option<Value>
    decreases |path|
  {
    if |path| == 0 then Some(v)
    else
      match v
      case VArr(es) =>
        (match Lookup(es, path[0])
         case Some(c) => Get(c, path[1..])
         case None => None)
      case _ => None
  }

  /** Entries of the array at `path` below `data`; a node that is missing
      or null reads as an empty array, since addValue would create it. */
  function NodeAt(data: Entries, path: Path): Entries {
    match Get(VArr(data), path)
    case Some(VArr(es)) => es
    case _ => []
  }

  /** A value addValue cannot descend into. */
  predicate IsScalar(v: Value) {
    !v.VArr? && !v.VNull?
  }

  /** Some step along `path` (the last one included) holds a scalar. */
  ghost predicate Blocked(data: Entries, path: Path) {
    exists i :: 1 <= i <= |path| && Get(VArr(data), path[..i]).Some? && IsScalar(Get(VArr(data), path[..i]).value)
  }

  /** The node at the end of the path after the write. */
  function Written(node: Entries, name: Option<Key>, v: Value): Entries {
    match name
    case None => Append(node, v)
    case Some(k) => Put(node, k, v)
  }

  /** `ApiResult::addValue`. On success the node at `path` holds `v` under
      `name` (or appended), and nothing off the path changes. */
  function AddValue(data: Entries, path: Path, name: Option<Key>, v: Value): (r: Result<Entries, TreeError>)
    ensures r.Err? <==> Blocked(data, path)
    ensures r.Ok? ==> Get(VArr(r.value), path) == Some(VArr(Written(NodeAt(data, path), name, v)))
    ensures r.Ok? ==> forall q :: !(q <= path) && !(path <= q) ==> Get(VArr(r.value), q) == Get(VArr(data), q)
    decreases |path|
  {
    if |path| == 0 then
      assert !Blocked(data, path);
      Ok(Written(data, name, v))
    else
      var child := Lookup(data, path[0]);
      BlockedStep(data, path);
      if child.Some? && IsScalar(child.value) then Err(ScalarInPath)
      else
        var sub := if child.Some? && child.value.VArr? then child.value.entries else [];
        assert NodeAt(data, path) == NodeAt(sub, path[1..]) by {
          assert Get(VArr(data), path) == (if child.Some? then Get(child.value, path[1..]) else None);
          if !(child.Some? && child.value.VArr?) {
            EmptyGet(path[1..]);
          }
        }
        var sub' :- AddValue(sub, path[1..], name, v);
        var r := Put(data, path[0], VArr(sub'));
        GetThroughPut(data, path[0], VArr(sub'), path);
        FrameStep(data, path, sub, sub');
        Ok(r)
  }

  lemma GetThroughPut(data: Entries, k: Key, c: Value, q: Path)
    requires |q| > 0
    ensures q[0] == k ==> Get(VArr(Put(data, k, c)), q) == Get(c, q[1..])
    ensures q[0] != k ==> Get(VArr(Put(data, k, c)), q) == Get(VArr(data), q)
  {
  }

  lemma PrefixStep(q: Path, p: Path)
    requires |q| > 0 && |p| > 0 && q[0] == p[0]
    ensures q <= p <==> q[1..] <= p[1..]
    ensures p <= q <==> p[1..] <= q[1..]
  {
    assert q == [q[0]] + q[1..] && p == [p[0]] + p[1..];
  }

  /** Replacing the child at `path[0]` by one that differs from the old
      child only on `path[1..]` changes nothing off `path`. */
  lemma FrameStep(data: Entries, path: Path, sub: Entries, sub': Entries)
    requires |path| > 0
    requires var child := Lookup(data, path[0]);
      !(child.Some? && IsScalar(child.value)) &&
      sub == (if child.Some? && child.value.VArr? then child.value.entries else [])
    requires forall q :: !(q <= path[1..]) && !(path[1..] <= q) ==> Get(VArr(sub'), q) == Get(VArr(sub), q)
    ensures forall q :: !(q <= path) && !(path <= q) ==>
      Get(VArr(Put(data, path[0], VArr(sub'))), q) == Get(VArr(data), q)
  {
    var child := Lookup(data, path[0]);
    forall q | !(q <= path) && !(path <= q)
      ensures Get(VArr(Put(data, path[0], VArr(sub'))), q) == Get(VArr(data), q)
    {
      assert |q| > 0;
      GetThroughPut(data, path[0], VArr(sub'), q);
      if q[0] == path[0] {
        PrefixStep(q, path);
        assert Get(VArr(sub'), q[1..]) == Get(VArr(sub), q[1..]);
        assert Get(VArr(data), q) == (if child.Some? then Get(child.value, q[1..]) else None);
        if !(child.Some? && child.value.VArr?) {
          EmptyGet(q[1..]);
        }
      }
    }
  }

  /** Below an empty or absent node every non-empty path reads nothing. */
  lemma EmptyGet(p: Path)
    ensures |p| > 0 ==> Get(VArr([]), p) == None && Get(VNull, p) == None
    ensures NodeAt([], p) == []
  {
  }

  /** Blocked, one step at a time. */
  lemma BlockedStep(data: Entries, path: Path)
    requires |path| > 0
    ensures var child := Lookup(data, path[0]);
      Blocked(data, path) <==>
        (child.Some? && IsScalar(child.value)) ||
        (child.Some? && child.value.VArr? && Blocked(child.value.entries, path[1..]))
  {
    var child := Lookup(data, path[0]);
    forall i | 1 <= i <= |path|
      ensures Get(VArr(data), path[..i]) ==
        (if child.Some? then Get(child.value, path[1..][..i - 1]) else None)
    {
      assert path[..i][0] == path[0];
      assert path[..i][1..] == path[1..][..i - 1];
    }
    if Blocked(data, path) {
      var i :| 1 <= i <= |path| && Get(VArr(data), path[..i]).Some? && IsScalar(Get(VArr(data), path[..i]).value);
      if i > 1 && !(child.Some? && IsScalar(child.value)) {
        assert child.Some? && child.value.VArr? && 1 <= i - 1 <= |path[1..]|;
        assert Get(VArr(child.value.entries), path[1..][..i - 1]) == Get(VArr(data), path[..i]);
      }
    }
    if child.Some? && IsScalar(child.value) {
      assert Get(VArr(data), path[..1]) == Some(child.value);
    }
    if child.Some? && child.value.VArr? && Blocked(child.value.entries, path[1..]) {
      var j :| 1 <= j <= |path[1..]| && Get(VArr(child.value.entries), path[1..][..j]).Some?
        && IsScalar(Get(VArr(child.value.entries), path[1..][..j]).value);
      assert Get(VArr(data), path[..j + 1]) == Get(VArr(child.value.entries), path[1..][..j]);
    }
  }

  /** `ApiResult::setIndexedTagName_internal`: the array at `path` gets its
      `_element` entry set to `tag`. */
  function SetIndexedTagName(data: Entries, path: Path, tag: string): (r: Result<Entries, TreeError>)
    ensures r.Err? <==> Blocked(data, path)
    ensures r.Ok? ==> Get(VArr(r.value), path) == Some(VArr(Put(NodeAt(data, path), ElementKey, VStr(tag))))
  {
    AddValue(data, path, Some(ElementKey), VStr(tag))
  }

  /** Once a path leads to an array, no step along it is blocked. */
  lemma {:induction false} ArrayAtPathNotBlocked(data: Entries, path: Path)
    requires Get(VArr(data), path).Some? && Get(VArr(data), path).value.VArr?
    ensures !Blocked(data, path)
    decreases |path|
  {
    if |path| > 0 {
      BlockedStep(data, path);
      var child := Lookup(data, path[0]);
      assert child.Some? && child.value.VArr?;
      ArrayAtPathNotBlocked(child.value.entries, path[1..]);
    }
  }

  /** Nothing off `path` differs between the two trees. */
  ghost predicate OffPathSame(before: Entries, after: Entries, path: Path) {
    forall q :: !(q <= path) && !(path <= q) ==> Get(VArr(after), q) == Get(VArr(before), q)
  }

  /** Every key of the node at `path` before is still a key of it after. */
  ghost predicate KeepsKeys(before: Entries, after: Entries, path: Path) {
    forall k :: HasKey(NodeAt(before, path), k) ==> HasKey(NodeAt(after, path), k)
  }

  /** Reading one key further is a lookup in the array the path leads to. */
  lemma {:induction false} GetSnoc(v: Value, path: Path, k: Key)
    ensures Get(v, path + [k]) ==
      (match Get(v, path) case Some(VArr(es)) => Lookup(es, k) case _ => None)
    decreases |path|
  {
    if |path| > 0 {
      assert (path + [k])[0] == path[0] && (path + [k])[1..] == path[1..] + [k];
      if v.VArr? && Lookup(v.entries, path[0]).Some? {
        GetSnoc(Lookup(v.entries, path[0]).value, path[1..], k);
      }
    }
  }

  /** What a successful write leaves at its path: the value can be read back
      under its key (the first free index when appended), every other key
      of the node reads as before, and no key is lost. */
  lemma ReadAfterWrite(before: Entries, after: Entries, path: Path, name: Option<Key>, v: Value)
    requires Get(VArr(after), path) == Some(VArr(Written(NodeAt(before, path), name, v)))
    ensures NodeAt(after, path) == Written(NodeAt(before, path), name, v)
    ensures Get(VArr(after), path + [WrittenKey(NodeAt(before, path), name)]) == Some(v)
    ensures forall k :: k != WrittenKey(NodeAt(before, path), name) ==>
      Lookup(NodeAt(after, path), k) == Lookup(NodeAt(before, path), k)
    ensures KeepsKeys(before, after, path)
  {
    GetSnoc(VArr(after), path, WrittenKey(NodeAt(before, path), name));
    forall k | HasKey(NodeAt(before, path), k)
      ensures HasKey(NodeAt(after, path), k)
    {
      if k != WrittenKey(NodeAt(before, path), name) {
        assert Lookup(NodeAt(before, path), k).Some?;
      }
    }
  }

  /** The key a write uses: the given one, or the first free index. */
  function WrittenKey(node: Entries, name: Option<Key>): Key {
    match name
    case None => Idx(NextIndex(node))
    case Some(k) => k
  }

  /** A value read below `path` means `path` leads to an array, so no step
      along it is blocked. */
  lemma ReadableBelowNotBlocked(data: Entries, path: Path, k: Key)
    requires Get(VArr(data), path + [k]).Some?
    ensures Get(VArr(data), path) == Some(VArr(NodeAt(data, path)))
    ensures !Blocked(data, path)
  {
    GetSnoc(VArr(data), path, k);
    ArrayAtPathNotBlocked(data, path);
  }

  lemma KeepsKeysTransitive(a: Entries, b: Entries, c: Entries, path: Path)
    requires KeepsKeys(a, b, path) && KeepsKeys(b, c, path)
    ensures KeepsKeys(a, c, path)
  {
  }
}
