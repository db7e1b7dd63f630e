/** PHP values as the result builder sees them: scalars, ordered arrays
    with int or string keys, and the two revision objects a save status can
    carry. Also the handful of PHP built-ins the builder relies on:
    `isset`, `intval`, truthiness, `array_values` and `array_merge`. */
module PhpValues {
  import opened Wrappers
  import opened OrderedMaps

  /** An array key: PHP keeps int and string keys apart. */
  datatype Key = Idx(n: int) | Name(s: string)

  /** `Revision` (a page revision) and `EntityRevision`. */
  datatype RevisionKind = PageRevision | EntityRevisionObject

  datatype Value =
    | VNull
    | VBool(b: bool)
    | VInt(i: int)
    | VStr(s: string)
    | VArr(entries: seq<(Key, Value)>)
    | VRevision(kind: RevisionKind, revId: int)

  type Entries = seq<(Key, Value)>

  /** The key ApiResult uses to record an array's indexed tag name. */
  const ElementKey: Key := Name("_element")

  /** PHP integers are 64-bit; string conversion saturates at the bounds. */
  const PhpIntMax: int := 0x7FFF_FFFF_FFFF_FFFF
  const PhpIntMin: int := -0x8000_0000_0000_0000

  /** The key `$a[] = $v` uses: one past the greatest non-negative int key,
      or 0 (PHP before 8.3; negative keys do not move it). */
  function NextIndex(es: Entries): (r: nat)
    ensures forall i :: 0 <= i < |es| && es[i].0.Idx? ==> es[i].0.n < r
    ensures r == 0 || exists i :: 0 <= i < |es| && es[i].0 == Idx(r - 1)
    ensures !HasKey(es, Idx(r))
    decreases |es|
  {
    if |es| == 0 then 0
    else
      var rest := NextIndex(es[..|es| - 1]);
      var last := es[|es| - 1].0;
      if last.Idx? && last.n >= rest then last.n + 1 else rest
  }

  /** `$a[] = $v`. */
  function Append(es: Entries, v: Value): (r: Entries)
    ensures |r| == |es| + 1 && r[..|es|] == es && r[|es|].1 == v
    ensures r[|es|].0 == Idx(NextIndex(es)) && !HasKey(es, r[|es|].0)
    ensures forall k :: k != r[|es|].0 ==> Lookup(r, k) == Lookup(es, k)
    ensures Lookup(r, r[|es|].0) == Some(v)
    ensures UniqueKeys(es) ==> UniqueKeys(r)
  {
    var r := Put(es, Idx(NextIndex(es)), v);
    assert r[..|es|] == es;
    r
  }

  /** Filling the next index, and adding no other int key, moves the next
      index up by one: successive appends land at successive indexes. */
  lemma NextIndexAfterFill(before: Entries, after: Entries)
    requires Lookup(after, Idx(NextIndex(before))).Some?
    requires forall n: int :: n != NextIndex(before) ==>
      (Lookup(after, Idx(n)).Some? <==> Lookup(before, Idx(n)).Some?)
    ensures NextIndex(after) == NextIndex(before) + 1
  {
    var n: int, r: int := NextIndex(before), NextIndex(after);
    assert Lookup(after, Idx(n)).Some?;
    assert r > 0 && Lookup(after, Idx(r - 1)).Some?;
    assert r - 1 == n || Lookup(before, Idx(r - 1)).Some?;
  }

  /** `array_values`: the same values, keyed 0..n-1 in order. */
  function ArrayValues(es: Entries): (r: Entries)
    ensures |r| == |es|
    ensures forall i :: 0 <= i < |r| ==> r[i] == (Idx(i), es[i].1)
    ensures UniqueKeys(r)
  {
    seq(|es|, i requires 0 <= i < |es| => (Idx(i), es[i].1))
  }

  /** `isset($a[$k])`: the key is present and its value is not null. */
  predicate Isset(es: Entries, k: Key) {
    Lookup(es, k).Some? && Lookup(es, k).value != VNull
  }

  /** What `ResultBuilder::checkValueIsNotList` refuses: an array with a
      non-null element at index 0. */
  predicate IsList(v: Value) {
    v.VArr? && Isset(v.entries, Idx(0))
  }

  /** PHP truthiness (`if ( $x )`); objects are always true. */
  predicate Truthy(v: Value) {
    match v
    case VNull => false
    case VBool(b) => b
    case VInt(i) => i != 0
    case VStr(s) => s != "" && s != "0"
    case VArr(es) => |es| > 0
    case VRevision(_, _) => true
  }

  /** `intval`: strings go through C `strtol` (PHP 5), arrays give 0 when
      empty and 1 otherwise, objects give 1. */
  function Intval(v: Value): int {
    match v
    case VNull => 0
    case VBool(b) => if b then 1 else 0
    case VInt(i) => i
    case VStr(s) => Strtol(s)
    case VArr(es) => if |es| == 0 then 0 else 1
    case VRevision(_, _) => 1
  }

  predicate IsCSpace(c: char) {
    c == ' ' || c == '\t' || c == '\n' || c == '\r' || c == '\U{B}' || c == '\U{C}'
  }

  predicate IsDigit(c: char) {
    '0' <= c <= '9'
  }

  function SkipSpace(s: string): (t: string)
    ensures |t| <= |s| && t == s[|s| - |t|..]
    ensures |t| == 0 || !IsCSpace(t[0])
    ensures forall i :: 0 <= i < |s| - |t| ==> IsCSpace(s[i])
  {
    if |s| > 0 && IsCSpace(s[0]) then SkipSpace(s[1..]) else s
  }

  /** Value of the run of decimal digits at the front of `s`, read onto `acc`. */
  function LeadingDigits(s: string, acc: nat): (n: nat)
    ensures n >= acc
    ensures |s| == 0 || !IsDigit(s[0]) ==> n == acc
  {
    if |s| == 0 || !IsDigit(s[0]) then acc
    else LeadingDigits(s[1..], acc * 10 + (s[0] as int - '0' as int))
  }

  function Clamp(n: int): (r: int)
    ensures PhpIntMin <= r <= PhpIntMax
    ensures PhpIntMin <= n <= PhpIntMax ==> r == n
  {
    if n > PhpIntMax then PhpIntMax else if n < PhpIntMin then PhpIntMin else n
  }

  /** `strtol(s, NULL, 10)`: optional white space, optional sign, digits;
      anything unreadable gives 0, out-of-range values saturate. */
  function Strtol(s: string): int {
    var t := SkipSpace(s);
    var signed := |t| > 0 && (t[0] == '-' || t[0] == '+');
    var magnitude: int := LeadingDigits(if signed then t[1..] else t, 0);
    Clamp(if signed && t[0] == '-' then -magnitude else magnitude)
  }

  /** `array_merge($a, $b)` folded one entry at a time onto `acc`: int keys
      are renumbered onto the end, string keys overwrite in place. */
  function MergeInto(acc: Entries, rest: Entries): (r: Entries)
    ensures UniqueKeys(acc) ==> UniqueKeys(r)
    ensures UniqueKeys(rest) ==>
      forall s :: Lookup(r, Name(s)) ==
        (if HasKey(rest, Name(s)) then Lookup(rest, Name(s)) else Lookup(acc, Name(s)))
    decreases |rest|
  {
    if |rest| == 0 then acc
    else
      var e := rest[0];
      var acc' := if e.0.Idx? then Append(acc, e.1) else Put(acc, e.0, e.1);
      var r := MergeInto(acc', rest[1..]);
      assert UniqueKeys(rest) ==>
        forall s :: Lookup(r, Name(s)) ==
          (if HasKey(rest, Name(s)) then Lookup(rest, Name(s)) else Lookup(acc, Name(s))) by {
        if UniqueKeys(rest) {
          assert UniqueKeys(rest[1..]);
          forall s
            ensures Lookup(r, Name(s)) ==
              (if HasKey(rest, Name(s)) then Lookup(rest, Name(s)) else Lookup(acc, Name(s)))
          {
            if e.0 == Name(s) {
              assert !HasKey(rest[1..], Name(s));
            } else {
              HeadOtherKey(rest, Name(s));
            }
          }
        }
      }
      r
  }

  /** Merging string-keyed arrays gives a string-keyed array: no int key
      is ever created. */
  lemma {:induction false} MergeIntoNamed(acc: Entries, rest: Entries)
    requires NamedOnly(acc) && NamedOnly(rest)
    ensures NamedOnly(MergeInto(acc, rest))
    decreases |rest|
  {
    if |rest| > 0 {
      var e := rest[0];
      assert e.0.Name?;
      var acc' := Put(acc, e.0, e.1);
      forall i | 0 <= i < |acc'|
        ensures acc'[i].0.Name?
      {
        assert acc'[i] in acc';
      }
      MergeIntoNamed(acc', rest[1..]);
    }
  }

  /** Every key is a string key. */
  predicate NamedOnly(es: Entries) {
    forall i :: 0 <= i < |es| ==> es[i].0.Name?
  }

  /** An array without int keys has no index 0, so it is never a list. */
  lemma NamedOnlyNotList(es: Entries)
    requires NamedOnly(es)
    ensures !IsList(VArr(es))
  {
    assert Lookup(es, Idx(0)).None?;
  }

  /** `array_merge($a, $b)`. */
  function ArrayMerge(a: Entries, b: Entries): (r: Entries)
    ensures UniqueKeys(r)
    ensures NamedOnly(a) && NamedOnly(b) ==> NamedOnly(r)
    ensures UniqueKeys(a) && UniqueKeys(b) ==>
      forall s :: Lookup(r, Name(s)) ==
        (if HasKey(b, Name(s)) then Lookup(b, Name(s)) else Lookup(a, Name(s)))
  {
    var left := MergeInto([], a);
    assert NamedOnly(a) && NamedOnly(b) ==> NamedOnly(MergeInto(left, b)) by {
      if NamedOnly(a) && NamedOnly(b) {
        MergeIntoNamed([], a);
        MergeIntoNamed(left, b);
      }
    }
    assert UniqueKeys(a) ==> forall s :: Lookup(left, Name(s)) == Lookup(a, Name(s));
    MergeInto(left, b)
  }
}
