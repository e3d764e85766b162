/**
 The string operations of Go's `strings` and `sort` packages that the components rely on.
 */
module Texte {

  /** Index of the first occurrence of `sub` at or after `i`, or |s| + 1 when there is none. */
  function IndexDepuis(s: string, sub: string, i: nat): (k: nat)
    requires i <= |s|
    ensures i <= k <= |s| + 1 && (k <= |s| ==> k + |sub| <= |s|)
    decreases |s| - i
  {
    if sub <= s[i..] then i
    else if i == |s| then |s| + 1
    else IndexDepuis(s, sub, i + 1)
  }

  lemma {:induction false} IndexDepuisPremier(s: string, sub: string, i: nat)
    requires i <= |s|
    ensures var k := IndexDepuis(s, sub, i);
            && (k <= |s| ==> sub <= s[k..])
            && forall j :: i <= j < k && j <= |s| ==> !(sub <= s[j..])
    decreases |s| - i
  {
    if !(sub <= s[i..]) && i < |s| {
      IndexDepuisPremier(s, sub, i + 1);
    }
  }

  /** `sub` first occurs in s at k. */
  ghost predicate PremierA(s: string, sub: string, k: nat) {
    k <= |s| && sub <= s[k..] && forall j :: 0 <= j < k ==> !(sub <= s[j..])
  }

  lemma FirstAt(s: string, sub: string, k: nat)
    requires PremierA(s, sub, k)
    ensures IndexDepuis(s, sub, 0) == k
  {
    IndexDepuisPremier(s, sub, 0);
  }

  /** strings.Contains */
  predicate Contient(s: string, sub: string) {
    IndexDepuis(s, sub, 0) <= |s|
  }

  lemma ContientIff(s: string, sub: string)
    ensures Contient(s, sub) <==> exists i :: 0 <= i <= |s| && sub <= s[i..]
  {
    IndexDepuisPremier(s, sub, 0);
  }

  /** What follows the last '/', or all of it (the source's `lastSeg`). */
  function DernierSegment(s: string): (r: string)
    ensures '/' !in r && |r| <= |s| && r == s[|s| - |r|..]
    ensures |r| == |s| || s[|s| - |r| - 1] == '/'
  {
    if s == [] || s[|s| - 1] == '/' then []
    else DernierSegment(s[..|s| - 1]) + [s[|s| - 1]]
  }

  /** Go's string order: byte-wise lexicographic. */
  predicate Inf(a: string, b: string) {
    a == [] || (b != [] && (a[0] < b[0] || (a[0] == b[0] && Inf(a[1..], b[1..]))))
  }

  /** A text comes before those it begins, and otherwise the first character that differs decides. */
  lemma {:induction false} FirstDifferenceDecides(a: string, b: string, k: nat)
    requires k <= |a| && k <= |b| && a[..k] == b[..k]
    ensures k == |a| ==> Inf(a, b)
    ensures k == |b| < |a| ==> !Inf(a, b)
    ensures k < |a| && k < |b| && a[k] != b[k] ==> (Inf(a, b) <==> a[k] < b[k])
    decreases k
  {
    if k > 0 {
      assert a[0] == a[..k][0] == b[..k][0] == b[0];
      assert a[1..][..k - 1] == a[..k][1..] && b[1..][..k - 1] == b[..k][1..];
      FirstDifferenceDecides(a[1..], b[1..], k - 1);
    }
  }

  lemma {:induction false} InfTotal(a: string, b: string)
    ensures Inf(a, b) || Inf(b, a)
    decreases |a|
  {
    if a != [] && b != [] && a[0] == b[0] {
      InfTotal(a[1..], b[1..]);
    }
  }

  lemma {:induction false} InfAntisym(a: string, b: string)
    requires Inf(a, b) && Inf(b, a)
    ensures a == b
    decreases |a|
  {
    if a != [] && b != [] {
      InfAntisym(a[1..], b[1..]);
      assert a == [a[0]] + a[1..] && b == [b[0]] + b[1..];
    }
  }

  lemma {:induction false} InfTrans(a: string, b: string, c: string)
    requires Inf(a, b) && Inf(b, c)
    ensures Inf(a, c)
    decreases |a|
  {
    if a != [] && a[0] == b[0] == c[0] {
      InfTrans(a[1..], b[1..], c[1..]);
    }
  }

  /** A strict comparison a caller of sort.Slice supplies, read as "a is not after b". */
  type Ordre = (string, string) -> bool

  ghost predicate OrdreTotal(avant: Ordre) {
    && (forall a, b :: avant(a, b) || avant(b, a))
    && (forall a, b :: avant(a, b) && avant(b, a) ==> a == b)
    && (forall a, b, c :: avant(a, b) && avant(b, c) ==> avant(a, c))
  }

  lemma InfOrdreTotal()
    ensures OrdreTotal(Inf)
  {
    forall a, b
      ensures Inf(a, b) || Inf(b, a)
    {
      InfTotal(a, b);
    }
    forall a, b | Inf(a, b) && Inf(b, a)
      ensures a == b
    {
      InfAntisym(a, b);
    }
    forall a, b, c | Inf(a, b) && Inf(b, c)
      ensures Inf(a, c)
    {
      InfTrans(a, b, c);
    }
  }

  /** Sorted without duplicates. */
  ghost predicate Trie(s: seq<string>, avant: Ordre) {
    forall i, j :: 0 <= i < j < |s| ==> avant(s[i], s[j]) && s[i] != s[j]
  }

  /** A set of strings has only one sorted listing, so sorting does not depend on the input order. */
  lemma {:induction false} TrieUnique(s: seq<string>, t: seq<string>, avant: Ordre)
    requires OrdreTotal(avant) && Trie(s, avant) && Trie(t, avant)
    requires forall x :: x in s <==> x in t
    ensures s == t
    decreases |s|
  {
    assert t != [] ==> t[0] in t;
    if s != [] {
      assert s[0] in t && t[0] in s;
      var i :| 0 <= i < |s| && s[i] == t[0];
      var j :| 0 <= j < |t| && t[j] == s[0];
      assert s[0] == t[0];
      forall x
        ensures x in s[1..] <==> x in t[1..]
      {
        assert x in s <==> x == s[0] || x in s[1..];
        assert x in t <==> x == t[0] || x in t[1..];
      }
      TrieUnique(s[1..], t[1..], avant);
      assert s == [s[0]] + s[1..] && t == [t[0]] + t[1..];
    }
  }

  /** sort.Slice on the keys of a map, listed in any order. */
  method TrierPar(noms: set<string>, avant: Ordre) returns (s: seq<string>)
    requires OrdreTotal(avant)
    ensures Trie(s, avant) && |s| == |noms|
    ensures forall x :: x in s <==> x in noms
  {
    s := [];
    var restants := noms;
    while restants != {}
      invariant restants <= noms && Trie(s, avant) && |s| + |restants| == |noms|
      invariant forall x :: x in s <==> x in noms - restants
      decreases restants
    {
      var x :| x in restants;
      s := Inserer(s, x, avant);
      restants := restants - {x};
    }
  }

  lemma InsertKeepsSorted(s: seq<string>, i: nat, x: string, avant: Ordre)
    requires OrdreTotal(avant) && Trie(s, avant) && i <= |s| && x !in s
    requires forall k :: 0 <= k < i ==> avant(s[k], x)
    requires i < |s| ==> avant(x, s[i])
    ensures Trie(s[..i] + [x] + s[i..], avant)
  {
  }

  method Inserer(s: seq<string>, x: string, avant: Ordre) returns (r: seq<string>)
    requires OrdreTotal(avant) && Trie(s, avant) && x !in s
    ensures Trie(r, avant) && |r| == |s| + 1
    ensures forall y :: y in r <==> y in s || y == x
  {
    var i := 0;
    while i < |s| && avant(s[i], x)
      invariant 0 <= i <= |s|
      invariant forall k :: 0 <= k < i ==> avant(s[k], x)
    {
      i := i + 1;
    }
    r := s[..i] + [x] + s[i..];
    InsertKeepsSorted(s, i, x, avant);
    assert s == s[..i] + s[i..];
  }

  /** sort.Strings on a list without duplicates. */
  method Trier(noms: set<string>) returns (s: seq<string>)
    ensures Trie(s, Inf) && |s| == |noms|
    ensures forall x :: x in s <==> x in noms
  {
    InfOrdreTotal();
    s := TrierPar(noms, Inf);
  }
}
