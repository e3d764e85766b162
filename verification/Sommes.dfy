/** Sums over finite sets, which no order of enumeration changes. */
module Sommes {

  ghost function Somme(ks: set<string>, f: string -> int): int {
    if ks == {} then 0 else var k :| k in ks; f(k) + Somme(ks - {k}, f)
  }

  /** Any element can be taken out first. */
  lemma {:induction false} TakeOut(ks: set<string>, f: string -> int, k: string)
    requires k in ks
    ensures Somme(ks, f) == f(k) + Somme(ks - {k}, f)
    decreases ks
  {
    var p :| p in ks && Somme(ks, f) == f(p) + Somme(ks - {p}, f);
    if p != k {
      TakeOut(ks - {p}, f, k);
      TakeOut(ks - {k}, f, p);
      assert ks - {p} - {k} == ks - {k} - {p};
    }
  }

  lemma {:induction false} SameTerms(ks: set<string>, f: string -> int, g: string -> int)
    requires forall k :: k in ks ==> f(k) == g(k)
    ensures Somme(ks, f) == Somme(ks, g)
    decreases ks
  {
    if ks != {} {
      var k :| k in ks;
      TakeOut(ks, f, k);
      TakeOut(ks, g, k);
      SameTerms(ks - {k}, f, g);
    }
  }

  /** Changing one term changes the sum by as much. */
  lemma OneTermChanges(ks: set<string>, f: string -> int, g: string -> int, k: string)
    requires k in ks && forall l :: l in ks && l != k ==> f(l) == g(l)
    ensures Somme(ks, g) == Somme(ks, f) - f(k) + g(k)
  {
    TakeOut(ks, f, k);
    TakeOut(ks, g, k);
    SameTerms(ks - {k}, f, g);
  }

  lemma {:induction false} AllZero(ks: set<string>, f: string -> int)
    requires forall k :: k in ks ==> f(k) == 0
    ensures Somme(ks, f) == 0
    decreases ks
  {
    if ks != {} {
      var k :| k in ks;
      TakeOut(ks, f, k);
      AllZero(ks - {k}, f);
    }
  }
}
