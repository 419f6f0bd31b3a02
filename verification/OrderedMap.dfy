/**
  std::map with string keys, as the association list its iteration yields:
  keys strictly increasing in lexicographic order.
 */
module OrderedMap {
  import opened Words

  type OMap<V> = seq<(string, V)>

  predicate Less(a: string, b: string) {
    b != [] && (a == [] || a[0] < b[0] || (a[0] == b[0] && Less(a[1..], b[1..])))
  }

  lemma {:induction false} LessIsTotal(a: string, b: string)
    ensures Less(a, b) || a == b || Less(b, a)
    ensures !(Less(a, b) && Less(b, a)) && (a == b ==> !Less(a, b))
  {
    if a != [] && b != [] {
      LessIsTotal(a[1..], b[1..]);
      assert a == [a[0]] + a[1..] && b == [b[0]] + b[1..];
    }
  }

  lemma {:induction false} LessIsTransitive(a: string, b: string, c: string)
    requires Less(a, b) && Less(b, c)
    ensures Less(a, c)
  {
    if a != [] && a[0] == b[0] == c[0] { LessIsTransitive(a[1..], b[1..], c[1..]); }
  }

  /** At the first place where they differ a ends, or has the smaller character. */
  ghost predicate DifferAt(a: string, b: string, k: int) {
    0 <= k <= |a| && k < |b| && a[..k] == b[..k] && (k == |a| || a[k] < b[k])
  }

  lemma {:induction false} LessIsLexicographic(a: string, b: string)
    ensures Less(a, b) <==> exists k :: DifferAt(a, b, k)
  {
    if a == [] || b == [] || a[0] < b[0] {
      assert b != [] ==> DifferAt(a, b, 0);
    } else if a[0] == b[0] {
      LessIsLexicographic(a[1..], b[1..]);
      if k :| DifferAt(a[1..], b[1..], k) {
        assert a[..k + 1] == [a[0]] + a[1..][..k] && b[..k + 1] == [b[0]] + b[1..][..k];
        assert DifferAt(a, b, k + 1);
      }
      if k :| DifferAt(a, b, k) {
        assert a[1..][..k - 1] == a[..k][1..] && b[1..][..k - 1] == b[..k][1..];
        assert DifferAt(a[1..], b[1..], k - 1);
      }
    } else {
      assert forall k :: 0 < k <= |a| && k < |b| ==> a[..k][0] == a[0] && b[..k][0] == b[0];
    }
  }

  function Get<V>(m: OMap<V>, key: string): Option<V> {
    if m == [] then None else if m[0].0 == key then Some(m[0].1) else Get(m[1..], key)
  }

  function Put<V>(m: OMap<V>, key: string, value: V): (r: OMap<V>)
    ensures r != []
  {
    if m == [] then [(key, value)]
    else if m[0].0 == key then [(key, value)] + m[1..]
    else if Less(key, m[0].0) then [(key, value)] + m
    else [m[0]] + Put(m[1..], key, value)
  }

  ghost predicate Above<V>(m: OMap<V>, key: string) {
    forall i :: 0 <= i < |m| ==> Less(key, m[i].0)
  }

  ghost predicate Sorted<V>(m: OMap<V>) {
    m == [] || (Above(m[1..], m[0].0) && Sorted(m[1..]))
  }

  lemma {:induction false} PutAbove<V>(m: OMap<V>, key: string, value: V, low: string)
    requires Above(m, low) && Less(low, key)
    ensures Above(Put(m, key, value), low)
  {
    if m != [] && m[0].0 != key && !Less(key, m[0].0) {
      PutAbove(m[1..], key, value, low);
    }
  }

  lemma AboveBelow<V>(m: OMap<V>, low: string, key: string)
    requires Above(m, low) && Less(key, low)
    ensures Above(m, key)
  {
    forall i | 0 <= i < |m| ensures Less(key, m[i].0) { LessIsTransitive(key, low, m[i].0); }
  }

  /** Insertion keeps the order and has the map's update law. */
  lemma {:induction false} PutLaws<V>(m: OMap<V>, key: string, value: V)
    requires Sorted(m)
    ensures Sorted(Put(m, key, value))
    ensures forall k :: Get(Put(m, key, value), k) == if k == key then Some(value) else Get(m, k)
  {
    if m != [] {
      var r := Put(m, key, value);
      LessIsTotal(key, m[0].0);
      if m[0].0 == key {
        assert r[1..] == m[1..];
      } else if Less(key, m[0].0) {
        assert r[1..] == m;
        AboveBelow(m[1..], m[0].0, key);
      } else {
        assert r[1..] == Put(m[1..], key, value);
        PutLaws(m[1..], key, value);
        PutAbove(m[1..], key, value, m[0].0);
      }
    }
  }
}
