/** The total order Rust defines on string slices (`Ord for str`: character by
    character, a proper prefix before the longer string) and on unsigned
    integers, and the search `<[T]>::binary_search` performs with them.
    Note names are ASCII, so comparing characters is comparing bytes. */
module LexOrder {

  datatype Ordering = Less | Equal | Greater

  /** The ordering seen from the other side. */
  function Flip(o: Ordering): Ordering {
    match o
    case Less => Greater
    case Equal => Equal
    case Greater => Less
  }

  /** `usize::cmp`. */
  function CompareNat(a: nat, b: nat): (r: Ordering)
    ensures r == Less <==> a < b
    ensures r == Equal <==> a == b
    ensures r == Greater <==> a > b
  {
    if a < b then Less else if a == b then Equal else Greater
  }

  /** `str::cmp`: lexicographic three-way comparison. Dafny's own `<` on
      sequences means "proper prefix", so the order is spelled out here. */
  function Compare(a: string, b: string): (r: Ordering)
    ensures r == Equal <==> a == b
    decreases |a|
  {
    if |a| == 0 && |b| == 0 then Equal
    else if |a| == 0 then Less
    else if |b| == 0 then Greater
    else if a[0] < b[0] then Less
    else if b[0] < a[0] then Greater
    else
      assert a == [a[0]] + a[1..] && b == [b[0]] + b[1..];
      Compare(a[1..], b[1..])
  }

  /** `a` sorts strictly before `b`. */
  predicate Before(a: string, b: string) {
    Compare(a, b) == Less
  }

  /** Comparing the other way round gives the flipped ordering. */
  lemma {:induction false} CompareFlip(a: string, b: string)
    ensures Compare(b, a) == Flip(Compare(a, b))
    decreases |a|
  {
    if |a| > 0 && |b| > 0 && a[0] == b[0] {
      CompareFlip(a[1..], b[1..]);
    }
  }

  /** `Before` is a strict order: irreflexive and transitive. */
  lemma BeforeIrreflexive(a: string)
    ensures !Before(a, a)
  {
  }

  lemma {:induction false} BeforeTransitive(a: string, b: string, c: string)
    requires Before(a, b) && Before(b, c)
    ensures Before(a, c)
    decreases |a|
  {
    if |a| > 0 && |b| > 0 && |c| > 0 && a[0] == b[0] && b[0] == c[0] {
      BeforeTransitive(a[1..], b[1..], c[1..]);
    }
  }

  /** Every element sorts strictly before every later one. */
  ghost predicate StrictlySorted(s: seq<string>) {
    forall i, j :: 0 <= i < j < |s| ==> Before(s[i], s[j])
  }

  /** Each element sorts strictly before its successor. */
  ghost predicate ChainSorted(s: seq<string>) {
    forall i :: 0 <= i < |s| - 1 ==> Before(s[i], s[i + 1])
  }

  /** Checking neighbours suffices, because `Before` is transitive. */
  lemma {:induction false} ChainIsStrictlySorted(s: seq<string>)
    requires ChainSorted(s)
    ensures StrictlySorted(s)
    decreases |s|
  {
    if |s| > 1 {
      var t := s[..|s| - 1];
      assert ChainSorted(t) by {
        forall i | 0 <= i < |t| - 1 ensures Before(t[i], t[i + 1]) {
          assert t[i] == s[i] && t[i + 1] == s[i + 1];
        }
      }
      ChainIsStrictlySorted(t);
      forall i, j | 0 <= i < j < |s| ensures Before(s[i], s[j]) {
        if j < |s| - 1 {
          assert s[i] == t[i] && s[j] == t[j];
        } else if i < j - 1 {
          assert s[i] == t[i] && s[j - 1] == t[j - 1];
          BeforeTransitive(s[i], s[j - 1], s[j]);
        }
      }
    }
  }

  /** What `binary_search` reports: `Ok(index)` or `Err(insertion point)`. */
  datatype SearchResult = Found(index: nat) | NotFound(insertAt: nat)

  /** Binary search of `key` in the slice `a[lo..hi]`. On a sorted slice,
      `NotFound(k)` says `key` belongs between positions `k - 1` and `k`. */
  function SearchIn(a: seq<string>, key: string, lo: nat, hi: nat): (r: SearchResult)
    requires StrictlySorted(a) && lo <= hi <= |a|
    ensures r.Found? ==> lo <= r.index < hi && a[r.index] == key
    ensures r.NotFound? ==> lo <= r.insertAt <= hi
    ensures r.NotFound? ==>
              (forall i :: lo <= i < r.insertAt ==> Before(a[i], key)) &&
              (forall i :: r.insertAt <= i < hi ==> Before(key, a[i]))
    decreases hi - lo
  {
    if lo == hi then NotFound(lo)
    else
      var mid := lo + (hi - lo) / 2;
      match Compare(a[mid], key)
      case Equal => Found(mid)
      case Less =>
        var r := SearchIn(a, key, mid + 1, hi);
        assert r.NotFound? ==> forall i :: lo <= i <= mid ==> Before(a[i], key) by {
          if r.NotFound? {
            forall i | lo <= i <= mid ensures Before(a[i], key) {
              if i < mid { BeforeTransitive(a[i], a[mid], key); }
            }
          }
        }
        r
      case Greater =>
        var r := SearchIn(a, key, lo, mid);
        assert r.NotFound? ==> forall i :: mid <= i < hi ==> Before(key, a[i]) by {
          if r.NotFound? {
            CompareFlip(a[mid], key);
            forall i | mid <= i < hi ensures Before(key, a[i]) {
              if mid < i { BeforeTransitive(key, a[mid], a[i]); }
            }
          }
        }
        r
  }

  /** `a.binary_search(&key)`. */
  function BinarySearch(a: seq<string>, key: string): (r: SearchResult)
    requires StrictlySorted(a)
    ensures r.Found? ==> r.index < |a| && a[r.index] == key
    ensures r.Found? <==> key in a
  {
    var r := SearchIn(a, key, 0, |a|);
    assert key in a ==> r.Found? by {
      if key in a && r.NotFound? {
        var k :| 0 <= k < |a| && a[k] == key;
        BeforeIrreflexive(key);
      }
    }
    r
  }
}
