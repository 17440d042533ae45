/**
 * The part of a NEAT genome the drawer reads, and the list operations it applies to it.
 * Node keys are taken in their string form: every comparison in the drawer is between
 * `str(...)` values, so the conversion itself is the identity here.
 */
module Genome {
  /** A connection gene: its key `(src, dst)`, its weight and whether it is enabled. */
  datatype Connection = Connection(src: string, dst: string, weight: real, enabled: bool)

  /** An entry of the drawer's `hidden_keys` list: `[key, depth]`. */
  datatype HiddenEntry = HiddenEntry(key: string, depth: int)

  /** A connection takes part in layout and drawing when it is enabled or disabled ones are shown. */
  predicate Included(c: Connection, showDisabled: bool) {
    c.enabled || showDisabled
  }

  /** `k` is the source of at least one included connection. */
  predicate IsSource(k: string, conns: seq<Connection>, showDisabled: bool) {
    exists c :: c in conns && Included(c, showDisabled) && c.src == k
  }

  /** The included connections, in their original order. */
  function IncludedConnections(cs: seq<Connection>, showDisabled: bool): (r: seq<Connection>)
    ensures forall c :: c in r <==> c in cs && Included(c, showDisabled)
  {
    if cs == [] then []
    else
      var prefix := IncludedConnections(cs[..|cs| - 1], showDisabled);
      assert cs == cs[..|cs| - 1] + [cs[|cs| - 1]];
      if Included(cs[|cs| - 1], showDisabled) then prefix + [cs[|cs| - 1]] else prefix
  }

  /** The included-connection filter keeps the order of the connections: it distributes over concatenation. */
  lemma {:induction false} IncludedConnectionsConcat(a: seq<Connection>, b: seq<Connection>, showDisabled: bool)
    ensures IncludedConnections(a + b, showDisabled) == IncludedConnections(a, showDisabled) + IncludedConnections(b, showDisabled)
    decreases |b|
  {
    if b == [] {
      assert a + b == a;
    } else {
      var b' := b[..|b| - 1];
      assert (a + b)[..|a + b| - 1] == a + b';
      assert (a + b)[|a + b| - 1] == b[|b| - 1];
      IncludedConnectionsConcat(a, b', showDisabled);
    }
  }

  /** The elements of `s` that are not in `excluded`, in the order of `s` (an append loop with a `continue`). */
  function Without(s: seq<string>, excluded: seq<string>): (r: seq<string>)
    ensures forall k :: k in r <==> k in s && k !in excluded
  {
    if s == [] then []
    else
      var prefix := Without(s[..|s| - 1], excluded);
      assert s == s[..|s| - 1] + [s[|s| - 1]];
      if s[|s| - 1] in excluded then prefix else prefix + [s[|s| - 1]]
  }

  /** Without keeps the order of its input: it distributes over concatenation (and on one
      element it is that element or nothing, by definition). */
  lemma {:induction false} WithoutConcat(a: seq<string>, b: seq<string>, excluded: seq<string>)
    ensures Without(a + b, excluded) == Without(a, excluded) + Without(b, excluded)
    decreases |b|
  {
    if b == [] {
      assert a + b == a;
    } else {
      var b' := b[..|b| - 1];
      assert (a + b)[..|a + b| - 1] == a + b';
      assert (a + b)[|a + b| - 1] == b[|b| - 1];
      WithoutConcat(a, b', excluded);
    }
  }

  predicate NoDup(s: seq<string>) {
    forall i, j :: 0 <= i < j < |s| ==> s[i] != s[j]
  }

  lemma {:induction false} WithoutNoDup(s: seq<string>, excluded: seq<string>)
    requires NoDup(s)
    ensures NoDup(Without(s, excluded))
  {
    if s != [] {
      var p := s[..|s| - 1];
      assert NoDup(p) by {
        forall i, j | 0 <= i < j < |p| ensures p[i] != p[j] {
          assert p[i] == s[i] && p[j] == s[j];
        }
      }
      WithoutNoDup(p, excluded);
      assert s[|s| - 1] !in p by {
        forall i | 0 <= i < |p| ensures p[i] != s[|s| - 1] {
          assert p[i] == s[i];
        }
      }
    }
  }

  /** A duplicate-free list that holds exactly one value is that value alone. */
  lemma SoleElement(s: seq<string>, x: string)
    requires NoDup(s) && forall k :: k in s <==> k == x
    ensures s == [x]
  {
    assert x in s;
    assert s[0] in s;
    if |s| > 1 {
      ElementIn(s, 1);
    }
  }

  /** A list that holds no value is empty. */
  lemma NoElement(s: seq<string>)
    requires forall k :: k !in s
    ensures s == []
  {
    if s != [] {
      ElementIn(s, 0);
    }
  }

  lemma ElementIn(s: seq<string>, i: nat)
    requires i < |s|
    ensures s[i] in s
  {
  }

  /** Python's `list.index`: the first position of `k`. */
  function IndexOf(s: seq<string>, k: string): (i: nat)
    requires k in s
    ensures i < |s| && s[i] == k
    ensures forall j :: 0 <= j < i ==> s[j] != k
  {
    if s[0] == k then 0 else 1 + IndexOf(s[1..], k)
  }

  lemma IndexOfNoDup(s: seq<string>, i: nat)
    requires NoDup(s) && i < |s|
    ensures IndexOf(s, s[i]) == i
  {
  }

  /** The keys of the `hidden_keys` entries, in order. */
  function HiddenKeys(hidden: seq<HiddenEntry>): seq<string> {
    seq(|hidden|, i requires 0 <= i < |hidden| => hidden[i].key)
  }

  lemma HiddenKeysAt(hidden: seq<HiddenEntry>)
    ensures |HiddenKeys(hidden)| == |hidden|
    ensures forall i :: 0 <= i < |hidden| ==> HiddenKeys(hidden)[i] == hidden[i].key
  {
  }
}
