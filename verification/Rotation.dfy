/**
 The generated stage rotation (rotation_generee.go): two-hour slots, numbered from the epoch and negative
 before it. The hash that draws the shuffles is a parameter: nothing here depends on its values.
 */
module Rotation {
  import opened Listes

  type Melange = (int, nat) -> nat

  function StagesConnus(): seq<int> {
    [1, 2, 3, 4, 5, 6, 7, 8, 9, 10, 11, 12, 13, 14, 15, 16, 17, 18, 19, 20, 21, 22, 23, 24, 26]
  }

  function ReglesClassees(): seq<int> {
    [1, 2, 3, 4]
  }

  /** What a rotation is drawn with: the hash, the known stages, the ranked rules. */
  datatype Tirage = Tirage(m: Melange, stages: seq<int>, regles: seq<int>) {
    ghost predicate Bon() {
      |stages| == 25 && SansDoublon(stages) && |regles| == 4 && SansDoublon(regles)
    }
  }

  function TirageDuServeur(m: Melange): Tirage {
    Tirage(m, StagesConnus(), ReglesClassees())
  }

  const PHASES_ENGENDREES := 12

  const SEL_STAGES := 0x57A6
  const SEL_REGLES := 0x9C1E

  // ---- Go's division, which truncates ----

  function Quotient(a: int, b: int): int
    requires b > 0
  {
    if a >= 0 then a / b else -((-a) / b)
  }

  function Reste(a: int, b: int): int
    requires b > 0
  {
    a - b * Quotient(a, b)
  }

  /** The group of five of a slot, groups before the epoch included. */
  function Groupe(creneau: int): int {
    var g := Quotient(creneau, 5);
    if creneau < 0 && Reste(creneau, 5) != 0 then g - 1 else g
  }

  function Rang(creneau: int): int {
    var r := Reste(creneau, 5);
    if r < 0 then r + 5 else r
  }

  /** The corrections make groups contiguous and ranks run from 0 to 4, on both sides of the epoch. */
  lemma SlotsAreAligned(creneau: int)
    ensures 0 <= Rang(creneau) < 5 && creneau == 5 * Groupe(creneau) + Rang(creneau)
  {
  }

  lemma SlotOf(g: int, r: int)
    requires 0 <= r < 5
    ensures Groupe(5 * g + r) == g && Rang(5 * g + r) == r
  {
    SlotsAreAligned(5 * g + r);
  }

  // ---- the shuffle ----

  function Echange(s: seq<int>, i: nat, j: nat): (r: seq<int>)
    requires i < |s| && j < |s|
    ensures |r| == |s|
  {
    s[i := s[j]][j := s[i]]
  }

  /** Fisher-Yates from position i down. */
  function Brasse(s: seq<int>, h: nat -> nat, i: nat): (r: seq<int>)
    requires i < |s|
    ensures |r| == |s|
    decreases i
  {
    if i == 0 then s else Brasse(Echange(s, i, h(i) % (i + 1)), h, i - 1)
  }

  lemma SwapIsPermutation(s: seq<int>, i: nat, j: nat)
    requires i < |s| && j < |s|
    ensures multiset(Echange(s, i, j)) == multiset(s)
    ensures SansDoublon(s) ==> SansDoublon(Echange(s, i, j))
  {
  }

  /** Whatever the hash, the shuffle only reorders. */
  lemma {:induction false} ShuffleIsPermutation(s: seq<int>, h: nat -> nat, i: nat)
    requires i < |s|
    ensures multiset(Brasse(s, h, i)) == multiset(s)
    ensures SansDoublon(s) ==> SansDoublon(Brasse(s, h, i))
    decreases i
  {
    if i > 0 {
      SwapIsPermutation(s, i, h(i) % (i + 1));
      ShuffleIsPermutation(Echange(s, i, h(i) % (i + 1)), h, i - 1);
    }
  }

  lemma {:induction false} AboveIsUntouched(s: seq<int>, h: nat -> nat, i: nat, k: nat)
    requires i < k < |s|
    ensures Brasse(s, h, i)[k] == s[k]
    decreases i
  {
    if i > 0 {
      AboveIsUntouched(Echange(s, i, h(i) % (i + 1)), h, i - 1, k);
    }
  }

  /** The place i receives what the remainder of the hash points at among the places up to i. */
  lemma DrawnByRemainder(s: seq<int>, h: nat -> nat, i: nat)
    requires 0 < i < |s|
    ensures Brasse(s, h, i)[i] == s[h(i) % (i + 1)]
  {
    AboveIsUntouched(Echange(s, i, h(i) % (i + 1)), h, i - 1, i);
  }

  /** Hashes with the same remainders shuffle alike. */
  ghost predicate MemesRestes(h: nat -> nat, g: nat -> nat, i: nat) {
    forall k {:trigger h(k)} :: 0 < k <= i ==> h(k) % (k + 1) == g(k) % (k + 1)
  }

  /**
   On a list without duplicates, two hashes give the same order exactly when all their remainders are the same: no
   order is drawn in two ways.
   */
  lemma {:induction false} SameOrderIff(s: seq<int>, h: nat -> nat, g: nat -> nat, i: nat)
    requires i < |s| && SansDoublon(s)
    ensures Brasse(s, h, i) == Brasse(s, g, i) <==> MemesRestes(h, g, i)
    decreases i
  {
    if i > 0 {
      DrawnByRemainder(s, h, i);
      DrawnByRemainder(s, g, i);
      var j := h(i) % (i + 1);
      if j == g(i) % (i + 1) {
        SwapIsPermutation(s, i, j);
        SameOrderIff(Echange(s, i, j), h, g, i - 1);
      }
    }
  }

  /** Every order is drawn by some hash: none is out of reach. */
  lemma {:induction false} EveryOrderIsDrawn(s: seq<int>, p: seq<int>, i: nat) returns (h: nat -> nat)
    requires i < |s| == |p| && multiset(s) == multiset(p) && s[i + 1..] == p[i + 1..]
    ensures Brasse(s, h, i) == p
    decreases i
  {
    var j := WhereItIs(s, p, i);
    if i == 0 {
      h := (k: nat) => 0;
      assert s == [s[0]] + s[1..] && p == [p[0]] + p[1..];
    } else {
      var s' := PutInPlace(s, p, i, j);
      var g := EveryOrderIsDrawn(s', p, i - 1);
      h := (k: nat) => if k == i then j else g(k);
      SameBelow(s', h, g, i - 1);
      OneDraw(s, h, i, j);
    }
  }

  lemma OneDraw(s: seq<int>, h: nat -> nat, i: nat, j: nat)
    requires 0 < i < |s| && h(i) == j <= i
    ensures Brasse(s, h, i) == Brasse(Echange(s, i, j), h, i - 1)
  {
    assert j % (i + 1) == j;
  }

  lemma PutInPlace(s: seq<int>, p: seq<int>, i: nat, j: nat) returns (s': seq<int>)
    requires j <= i < |s| == |p| && s[j] == p[i] && multiset(s) == multiset(p) && s[i + 1..] == p[i + 1..]
    ensures s' == Echange(s, i, j) && |s'| == |p| && multiset(s') == multiset(p) && s'[i..] == p[i..]
  {
    s' := Echange(s, i, j);
    SwapIsPermutation(s, i, j);
    assert s'[i..] == [p[i]] + s[i + 1..] && p[i..] == [p[i]] + p[i + 1..];
  }

  lemma WhereItIs(s: seq<int>, p: seq<int>, i: nat) returns (j: nat)
    requires i < |s| == |p| && multiset(s) == multiset(p) && s[i + 1..] == p[i + 1..]
    ensures j <= i && s[j] == p[i]
  {
    SamePrefix(s, p, i);
    var q := p[..i + 1];
    assert q[i] in multiset(q);
    var r := s[..i + 1];
    assert q[i] in r;
    j :| 0 <= j < |r| && r[j] == q[i];
  }

  lemma SamePrefix(s: seq<int>, p: seq<int>, i: nat)
    requires i < |s| == |p| && multiset(s) == multiset(p) && s[i + 1..] == p[i + 1..]
    ensures multiset(s[..i + 1]) == multiset(p[..i + 1])
  {
    FrontByDifference(s, i + 1);
    FrontByDifference(p, i + 1);
  }

  lemma FrontByDifference(s: seq<int>, n: nat)
    requires n <= |s|
    ensures multiset(s[..n]) == multiset(s) - multiset(s[n..])
  {
    assert s == s[..n] + s[n..];
    assert multiset(s) == multiset(s[..n]) + multiset(s[n..]);
  }

  lemma {:induction false} SameBelow(s: seq<int>, h: nat -> nat, g: nat -> nat, i: nat)
    requires i < |s| && forall k :: 0 <= k <= i ==> h(k) == g(k)
    ensures Brasse(s, h, i) == Brasse(s, g, i)
    decreases i
  {
    if i > 0 {
      assert h(i) == g(i);
      SameBelow(Echange(s, i, h(i) % (i + 1)), h, g, i - 1);
    }
  }

  /** The in-place shuffle both draws are made with. */
  method BrasserSurPlace(perm: array<int>, h: nat -> nat)
    requires perm.Length > 0
    modifies perm
    ensures perm[..] == Brasse(old(perm[..]), h, perm.Length - 1)
  {
    var i := perm.Length - 1;
    ghost var fin := Brasse(perm[..], h, i);
    while i > 0
      invariant 0 <= i < perm.Length
      invariant Brasse(perm[..], h, i) == fin
    {
      var j := h(i) % (i + 1);
      ghost var s := perm[..];
      perm[i], perm[j] := perm[j], perm[i];
      assert Brasse(s, h, i) == Brasse(perm[..], h, i - 1);
      i := i - 1;
    }
  }

  // ---- the window ----

  /** The whole shuffle. */
  function BrasseTout(s: seq<int>, h: nat -> nat): (r: seq<int>)
    ensures |r| == |s|
  {
    if s == [] then s else Brasse(s, h, |s| - 1)
  }

  function Hachage(groupe: int, t: Tirage): nat -> nat {
    (i: nat) => t.m(groupe, i + SEL_STAGES)
  }

  function Permutation(groupe: int, t: Tirage): (p: seq<int>)
    ensures |p| == |t.stages|
  {
    BrasseTout(t.stages, Hachage(groupe, t))
  }

  function Tourne(p: seq<int>, d: nat): (r: seq<int>)
    requires d <= |p|
    ensures |r| == |p|
  {
    p[d..] + p[..d]
  }

  function Decalage(creneau: int): (d: nat)
    ensures d < 25
  {
    (10 * Rang(creneau)) % 25
  }

  /** The stages in the slot's own order. */
  function Ordre(creneau: int, t: Tirage): (o: seq<int>)
    requires |t.stages| == 25
    ensures |o| == 25
  {
    Tourne(Permutation(Groupe(creneau), t), Decalage(creneau))
  }

  method Brasser(s: seq<int>, h: nat -> nat) returns (r: seq<int>)
    requires s != []
    ensures r == BrasseTout(s, h)
  {
    var perm := new int[|s|](i requires 0 <= i < |s| => s[i]);
    assert perm[..] == s;
    BrasserSurPlace(perm, h);
    r := perm[..];
  }

  method MelangeStages(creneau: int, t: Tirage) returns (out: seq<int>)
    requires t.Bon()
    ensures out == Ordre(creneau, t)
  {
    SlotsAreAligned(creneau);
    var groupe := Quotient(creneau, 5);
    if creneau < 0 && Reste(creneau, 5) != 0 {
      groupe := groupe - 1;
    }
    var perm := Brasser(t.stages, Hachage(groupe, t));
    assert perm == Permutation(groupe, t);
    var rang := Reste(creneau, 5);
    if rang < 0 {
      rang := rang + 5;
    }
    var decalage := (10 * rang) % |perm|;
    out := [];
    for i := 0 to |perm|
      invariant |out| == i && forall k :: 0 <= k < i ==> out[k] == perm[(decalage + k) % |perm|]
    {
      out := out + [perm[(decalage + i) % |perm|]];
    }
    RotatedByIndex(perm, decalage, out);
  }

  lemma RotatedByIndex(p: seq<int>, d: nat, out: seq<int>)
    requires |p| == 25 && d < 25 && |out| == 25 && forall k :: 0 <= k < 25 ==> out[k] == p[(d + k) % 25]
    ensures out == Tourne(p, d)
  {
  }

  // ---- drawing stages ----

  /** The first n stages of the order that are not excluded, each excluded once drawn. */
  function Pris(ordre: seq<int>, ex: set<int>, n: nat): (r: seq<int>)
    ensures |r| <= n && |r| <= |ordre|
  {
    if n == 0 || ordre == [] then []
    else if ordre[0] in ex then Pris(ordre[1..], ex, n)
    else [ordre[0]] + Pris(ordre[1..], ex + {ordre[0]}, n - 1)
  }

  /** What the fallback adds, exclusions ignored, to a draw that came up short. */
  function Repli(out: seq<int>, ordre: seq<int>): seq<int>
    decreases ordre
  {
    if |out| == 2 || ordre == [] then out
    else Repli(if ordre[0] in out then out else out + [ordre[0]], ordre[1..])
  }

  /** The fallback keeps what was drawn, adds from the front of the order what is not there yet, and stops at two. */
  lemma {:induction false} FallbackFills(out: seq<int>, ordre: seq<int>)
    requires |out| <= 2
    ensures out <= Repli(out, ordre) && |Repli(out, ordre)| <= 2
    ensures forall x :: x in Repli(out, ordre) ==> x in out || x in ordre
    ensures SansDoublon(out) ==> SansDoublon(Repli(out, ordre))
    ensures |Repli(out, ordre)| < 2 ==> forall x :: x in ordre ==> x in Repli(out, ordre)
    decreases ordre
  {
    if |out| < 2 && ordre != [] {
      FallbackFills(if ordre[0] in out then out else out + [ordre[0]], ordre[1..]);
    }
  }

  /** The exclusions of one slot, shared by its five draws. */
  class Exclus {
    var stages: set<int>

    constructor ()
      ensures stages == {}
    {
      stages := {};
    }
  }

  /** One turn of the drawing loop. */
  lemma OneTurn(out: seq<int>, v: int, suite: seq<int>, ex: set<int>, n: nat)
    requires |out| < n
    ensures out + Pris([v] + suite, ex, n - |out|) ==
            if v in ex then out + Pris(suite, ex, n - |out|) else (out + [v]) + Pris(suite, ex + {v}, n - |out| - 1)
  {
    FirstOfAll(v, suite, ex, n - |out|);
  }

  method TireStages(ordre: seq<int>, exclus: Exclus) returns (out: seq<int>)
    modifies exclus
    ensures out == Repli(Pris(ordre, old(exclus.stages), 2), ordre)
    ensures exclus.stages == old(exclus.stages) + Elements(Pris(ordre, old(exclus.stages), 2))
  {
    ghost var ex := exclus.stages;
    out := [];
    var i := 0;
    while i < |ordre| && |out| != 2
      invariant i <= |ordre| && |out| <= 2 && exclus.stages == ex + Elements(out)
      invariant Pris(ordre, ex, 2) == out + Pris(ordre[i..], exclus.stages, 2 - |out|)
    {
      OneTurn(out, ordre[i], ordre[i + 1..], exclus.stages, 2);
      assert ordre[i..] == [ordre[i]] + ordre[i + 1..];
      if ordre[i] !in exclus.stages {
        out := out + [ordre[i]];
        exclus.stages := exclus.stages + {ordre[i]};
      }
      i := i + 1;
    }
    assert out == Pris(ordre, ex, 2);
    ghost var tire := out;
    var k := 0;
    while k < |ordre| && |out| != 2
      invariant k <= |ordre| && Repli(out, ordre[k..]) == Repli(tire, ordre)
    {
      if ordre[k] !in out {
        out := out + [ordre[k]];
      }
      k := k + 1;
    }
  }

  lemma {:induction false} DrawnAreNew(ordre: seq<int>, ex: set<int>, n: nat)
    ensures SansDoublon(Pris(ordre, ex, n))
    ensures forall x :: x in Pris(ordre, ex, n) ==> x in ordre && x !in ex
    decreases ordre
  {
    if n > 0 && ordre != [] {
      if ordre[0] in ex {
        DrawnAreNew(ordre[1..], ex, n);
      } else {
        DrawnAreNew(ordre[1..], ex + {ordre[0]}, n - 1);
      }
    }
  }

  /** Exclusions that are not in the order do not matter. */
  lemma {:induction false} OnlyListedExclusionsMatter(ordre: seq<int>, ex: set<int>, fx: set<int>, n: nat)
    requires forall x :: x in ordre ==> (x in ex <==> x in fx)
    ensures Pris(ordre, ex, n) == Pris(ordre, fx, n)
    decreases ordre
  {
    if n > 0 && ordre != [] {
      var v := ordre[0];
      assert v in ordre && forall x :: x in ordre[1..] ==> x in ordre;
      assert v in ex <==> v in fx;
      if v in ex {
        OnlyListedExclusionsMatter(ordre[1..], ex, fx, n);
        assert Pris(ordre, fx, n) == Pris(ordre[1..], fx, n);
      } else {
        OnlyListedExclusionsMatter(ordre[1..], ex + {v}, fx + {v}, n - 1);
      }
    }
  }

  /** There is enough to draw as long as the exclusions leave enough. */
  lemma {:induction false} EnoughToDraw(ordre: seq<int>, ex: set<int>, n: nat)
    requires SansDoublon(ordre) && n + |ex| <= |ordre|
    ensures |Pris(ordre, ex, n)| == n
    decreases ordre
  {
    if n > 0 {
      var v := ordre[0];
      assert v !in ordre[1..];
      if v in ex {
        OnlyListedExclusionsMatter(ordre[1..], ex, ex - {v}, n);
        EnoughToDraw(ordre[1..], ex - {v}, n);
      } else {
        OnlyListedExclusionsMatter(ordre[1..], ex + {v}, ex, n - 1);
        EnoughToDraw(ordre[1..], ex, n - 1);
      }
    }
  }

  /** Drawing n then m more is drawing n + m. */
  lemma {:induction false} DrawOnwards(ordre: seq<int>, ex: set<int>, n: nat, m: nat)
    ensures var a := Pris(ordre, ex, n);
            Pris(ordre, ex, n + m) == a + Pris(ordre, ex + Elements(a), m)
    decreases ordre
  {
    if n == 0 {
      NothingTaken(ordre, ex, m);
    } else if ordre != [] {
      var v, suite := ordre[0], ordre[1..];
      assert ordre == [v] + suite;
      FirstOfAll(v, suite, ex, n);
      FirstOfAll(v, suite, ex, n + m);
      if v in ex {
        DrawOnwards(suite, ex, n, m);
        SkipsTheTaken(v, suite, ex + Elements(Pris(suite, ex, n)), m);
      } else {
        DrawOnwards(suite, ex + {v}, n - 1, m);
        OnwardsAfter(v, suite, Pris(suite, ex + {v}, n - 1), ex, m);
      }
    }
  }

  lemma OnwardsAfter(v: int, suite: seq<int>, b: seq<int>, ex: set<int>, m: nat)
    ensures [v] + (b + Pris(suite, ex + {v} + Elements(b), m)) == ([v] + b) + Pris([v] + suite, ex + Elements([v] + b), m)
  {
    assert ex + {v} + Elements(b) == ex + Elements([v] + b);
    SkipsTheTaken(v, suite, ex + Elements([v] + b), m);
  }

  lemma SkipsTheTaken(v: int, suite: seq<int>, ex: set<int>, m: nat)
    requires v in ex
    ensures Pris([v] + suite, ex, m) == Pris(suite, ex, m)
  {
    assert ([v] + suite)[1..] == suite;
  }

  /** x, then what is drawn from b to make n. */
  function Puis(x: seq<int>, b: seq<int>, ex: set<int>, n: nat): seq<int>
    requires |x| <= n
  {
    x + Pris(b, ex + Elements(x), n - |x|)
  }

  lemma NothingTaken(b: seq<int>, ex: set<int>, n: nat)
    ensures Puis([], b, ex, n) == Pris(b, ex, n)
  {
    assert ex + Elements([]) == ex;
    assert [] + Pris(b, ex, n) == Pris(b, ex, n);
  }

  lemma OneTakenBefore(v: int, x: seq<int>, b: seq<int>, ex: set<int>, n: nat)
    requires |x| < n
    ensures Puis([v] + x, b, ex, n) == [v] + Puis(x, b, ex + {v}, n - 1)
  {
    assert ex + {v} + Elements(x) == ex + Elements([v] + x);
  }

  lemma FirstOfAll(v: int, suite: seq<int>, ex: set<int>, n: nat)
    requires n > 0
    ensures Pris([v] + suite, ex, n) == if v in ex then Pris(suite, ex, n) else [v] + Pris(suite, ex + {v}, n - 1)
  {
    assert ([v] + suite)[1..] == suite;
  }

  /** Drawing from a list in two parts. */
  lemma {:induction false} DrawInTwoParts(a: seq<int>, b: seq<int>, ex: set<int>, n: nat)
    ensures Pris(a + b, ex, n) == Puis(Pris(a, ex, n), b, ex, n)
    decreases a
  {
    if n == 0 || a == [] {
      assert a == [] ==> a + b == b;
      NothingTaken(b, ex, n);
    } else {
      var v, suite := a[0], a[1..];
      assert a == [v] + suite && a + b == [v] + (suite + b);
      FirstOfAll(v, suite, ex, n);
      FirstOfAll(v, suite + b, ex, n);
      if v in ex {
        DrawInTwoParts(suite, b, ex, n);
      } else {
        DrawInTwoParts(suite, b, ex + {v}, n - 1);
        OneTakenBefore(v, Pris(suite, ex + {v}, n - 1), b, ex, n);
      }
    }
  }

  /** When the front of the order is free, the draw is the front. */
  lemma {:induction false} FreeFrontIsDrawn(ordre: seq<int>, ex: set<int>, n: nat)
    requires SansDoublon(ordre) && n <= |ordre| && forall x :: x in ordre[..n] ==> x !in ex
    ensures Pris(ordre, ex, n) == ordre[..n]
    decreases ordre
  {
    if n > 0 {
      var v := ordre[0];
      assert ordre[..n] == [v] + ordre[1..][..n - 1];
      assert v !in ordre[1..];
      OnlyListedExclusionsMatter(ordre[1..], ex + {v}, ex, n - 1);
      FreeFrontIsDrawn(ordre[1..], ex, n - 1);
    }
  }

  // ---- one slot ----

  /** What the first k draws of a slot have taken, and what they have excluded. */
  ghost predicate Deja(ordre: seq<int>, ex: set<int>, modes: seq<seq<int>>, exclus: set<int>) {
    && (forall k :: 0 <= k < |modes| ==> |modes[k]| == 2)
    && Aplati(modes) == Pris(ordre, ex, 2 * |modes|)
    && exclus == ex + Elements(Aplati(modes))
  }

  function Aplati(modes: seq<seq<int>>): seq<int> {
    if modes == [] then [] else Aplati(modes[..|modes| - 1]) + modes[|modes| - 1]
  }

  /** Five draws, one after the other, are one draw of ten. */
  method CinqTirages(ordre: seq<int>, exclus: Exclus) returns (modes: seq<seq<int>>)
    requires SansDoublon(ordre) && 10 + |exclus.stages| <= |ordre|
    modifies exclus
    ensures |modes| == 5 && (forall k :: 0 <= k < 5 ==> |modes[k]| == 2)
    ensures Aplati(modes) == Pris(ordre, old(exclus.stages), 10)
  {
    ghost var ex := exclus.stages;
    modes := [];
    assert ex + Elements([]) == ex;
    for i := 0 to 5
      invariant |modes| == i && Deja(ordre, ex, modes, exclus.stages)
    {
      ghost var fx := exclus.stages;
      var deux := TireStages(ordre, exclus);
      NextDraw(ordre, ex, modes, fx, exclus.stages, deux);
      modes := modes + [deux];
    }
  }

  /** A draw of two after the others continues the same draw, and never needs the fallback. */
  lemma NextDraw(ordre: seq<int>, ex: set<int>, modes: seq<seq<int>>, fx: set<int>, gx: set<int>, deux: seq<int>)
    requires SansDoublon(ordre) && 2 * |modes| + 2 + |ex| <= |ordre| && Deja(ordre, ex, modes, fx)
    requires deux == Repli(Pris(ordre, fx, 2), ordre) && gx == fx + Elements(Pris(ordre, fx, 2))
    ensures deux == Pris(ordre, fx, 2) && Deja(ordre, ex, modes + [deux], gx)
  {
    var n := 2 * |modes|;
    var a := Pris(ordre, ex, n);
    DrawOnwards(ordre, ex, n, 2);
    EnoughToDraw(ordre, ex, n);
    EnoughToDraw(ordre, ex, n + 2);
    var x := Pris(ordre, fx, 2);
    assert |a + x| == n + 2;
    assert Elements(a + x) == Elements(a) + Elements(x);
    assert (modes + [deux])[..|modes|] == modes;
  }

  /** The ten stages of a slot by itself. */
  function Bruts(creneau: int, t: Tirage): seq<int>
    requires |t.stages| == 25
  {
    Ordre(creneau, t)[..10]
  }

  /** The ten stages a slot publishes: those of the previous slot are avoided. */
  function Publies(creneau: int, t: Tirage): seq<int>
    requires |t.stages| == 25
  {
    Pris(Ordre(creneau, t), Elements(Bruts(creneau - 1, t)), 10)
  }

  /** The server's stages and rules are as the results below need them. */
  lemma ServerDrawIsGood(m: Melange)
    ensures TirageDuServeur(m).Bon()
    ensures forall i :: 0 <= i < 4 ==> TirageDuServeur(m).regles[i] == i + 1
    ensures forall i :: 0 <= i < 25 ==> TirageDuServeur(m).stages[i] == if i < 24 then i + 1 else 26
  {
    var s := StagesConnus();
    assert forall i :: 0 <= i < 24 ==> s[i] == i + 1;
    assert s[24] == 26;
  }

  lemma PermutationIsDistinct(groupe: int, t: Tirage)
    requires t.Bon()
    ensures SansDoublon(Permutation(groupe, t)) && multiset(Permutation(groupe, t)) == multiset(t.stages)
  {
    ShuffleIsPermutation(t.stages, Hachage(groupe, t), 24);
  }

  lemma RotationIsDistinct(p: seq<int>, d: nat)
    requires d <= |p| && SansDoublon(p)
    ensures SansDoublon(Tourne(p, d))
  {
  }

  lemma OrderIsDistinct(creneau: int, t: Tirage)
    requires t.Bon()
    ensures SansDoublon(Ordre(creneau, t))
  {
    PermutationIsDistinct(Groupe(creneau), t);
    RotationIsDistinct(Permutation(Groupe(creneau), t), Decalage(creneau));
  }

  lemma TenExclusions(creneau: int, t: Tirage)
    requires t.Bon()
    ensures SansDoublon(Bruts(creneau, t)) && |Elements(Bruts(creneau, t))| == 10
  {
    OrderIsDistinct(creneau, t);
    ElementsOf(Bruts(creneau, t));
  }

  method StagesDuCreneau(creneau: int, t: Tirage) returns (out: seq<int>)
    requires t.Bon()
    ensures out == Bruts(creneau, t)
  {
    var ordre := MelangeStages(creneau, t);
    OrderIsDistinct(creneau, t);
    FreeFrontIsDrawn(ordre, {}, 10);
    var exclus := new Exclus();
    ghost var modes: seq<seq<int>> := [];
    assert {} + Elements<int>([]) == {};
    out := [];
    for i := 0 to 5
      invariant |modes| == i && out == Aplati(modes) && Deja(ordre, {}, modes, exclus.stages)
    {
      ghost var fx := exclus.stages;
      var deux := TireStages(ordre, exclus);
      NextDraw(ordre, {}, modes, fx, exclus.stages, deux);
      assert (modes + [deux])[..i] == modes;
      modes := modes + [deux];
      out := out + deux;
    }
  }

  method ReglesDuCreneau(creneau: int, t: Tirage) returns (out: seq<int>)
    requires t.Bon()
    ensures out == Regles(creneau, t)
  {
    out := Brasser(t.regles, (i: nat) => t.m(creneau, i + SEL_REGLES));
  }

  function Regles(creneau: int, t: Tirage): (r: seq<int>)
    ensures |r| == |t.regles|
  {
    BrasseTout(t.regles, (i: nat) => t.m(creneau, i + SEL_REGLES))
  }

  /** The four ranked modes of a slot have four different rules. */
  lemma RulesAreShared(creneau: int, t: Tirage)
    requires t.Bon()
    ensures multiset(Regles(creneau, t)) == multiset(t.regles) && SansDoublon(Regles(creneau, t))
  {
    ShuffleIsPermutation(t.regles, (i: nat) => t.m(creneau, i + SEL_REGLES), 3);
  }

  /**
   Where the two draws take their numbers: the last of the group's stages is drawn by the group's number, the last of
   the slot's rules by the slot's own.
   */
  lemma WhereTheDrawsComeFrom(creneau: int, t: Tirage)
    requires t.Bon()
    ensures Permutation(Groupe(creneau), t)[24] == t.stages[t.m(Groupe(creneau), 24 + 0x57A6) % 25]
    ensures Regles(creneau, t)[3] == t.regles[t.m(creneau, 3 + 0x9C1E) % 4]
    ensures forall k :: 0 <= k < 25 ==> Ordre(creneau, t)[k] == Permutation(Groupe(creneau), t)[(10 * Rang(creneau) + k) % 25]
  {
    LastStage(Groupe(creneau), t);
    LastRule(creneau, t);
    TurnedOrder(creneau, t);
  }

  lemma TurnedOrder(creneau: int, t: Tirage)
    requires t.Bon()
    ensures forall k :: 0 <= k < 25 ==> Ordre(creneau, t)[k] == Permutation(Groupe(creneau), t)[(10 * Rang(creneau) + k) % 25]
  {
    SlotsAreAligned(creneau);
    var r := Rang(creneau);
    TurnedAt(Permutation(Groupe(creneau), t), r);
  }

  lemma LastStage(groupe: int, t: Tirage)
    requires t.Bon()
    ensures Permutation(groupe, t)[24] == t.stages[t.m(groupe, 24 + 0x57A6) % 25]
  {
    DrawnByRemainder(t.stages, Hachage(groupe, t), 24);
  }

  lemma LastRule(creneau: int, t: Tirage)
    requires t.Bon()
    ensures Regles(creneau, t)[3] == t.regles[t.m(creneau, 3 + 0x9C1E) % 4]
  {
    DrawnByRemainder(t.regles, (i: nat) => t.m(creneau, i + SEL_REGLES), 3);
  }

  lemma TurnedAt(p: seq<int>, r: int)
    requires |p| == 25 && 0 <= r < 5
    ensures forall k :: 0 <= k < 25 ==> Tourne(p, (10 * r) % 25)[k] == p[(10 * r + k) % 25]
  {
  }

  // ---- the published calendar ----

  /** One phase: regular, two ranked series, X and league. */
  datatype Phase = Phase(creneau: int, modes: seq<seq<int>>, regles: seq<int>)

  ghost predicate PhaseJuste(ph: Phase, creneau: int, t: Tirage)
    requires |t.stages| == 25
  {
    && ph.creneau == creneau && |ph.modes| == 5 && (forall k :: 0 <= k < 5 ==> |ph.modes[k]| == 2)
    && Aplati(ph.modes) == Publies(creneau, t) && ph.regles == Regles(creneau, t)
  }

  /** The calendar starts one slot before the current one; each phase is its slot's. */
  method RotationEngendree(courant: int, t: Tirage) returns (phases: seq<Phase>)
    requires t.Bon()
    ensures |phases| == PHASES_ENGENDREES
    ensures forall k :: 0 <= k < |phases| ==> PhaseJuste(phases[k], courant - 1 + k, t)
  {
    phases := [];
    var i := -1;
    while i < PHASES_ENGENDREES - 1
      invariant -1 <= i <= PHASES_ENGENDREES - 1 && |phases| == i + 1
      invariant forall k :: 0 <= k < |phases| ==> PhaseJuste(phases[k], courant - 1 + k, t)
    {
      var c := courant + i;
      var ph := EngendrerPhase(c, t);
      phases := phases + [ph];
      i := i + 1;
    }
  }

  method EngendrerPhase(c: int, t: Tirage) returns (ph: Phase)
    requires t.Bon()
    ensures PhaseJuste(ph, c, t)
  {
    var exclus := new Exclus();
    var avant := StagesDuCreneau(c - 1, t);
    for k := 0 to |avant|
      invariant exclus.stages == Elements(avant[..k])
    {
      assert avant[..k + 1] == avant[..k] + [avant[k]];
      exclus.stages := exclus.stages + {avant[k]};
    }
    assert avant[..|avant|] == avant;
    TenExclusions(c - 1, t);
    OrderIsDistinct(c, t);
    var ordre := MelangeStages(c, t);
    var regles := ReglesDuCreneau(c, t);
    var modes := CinqTirages(ordre, exclus);
    ph := Phase(c, modes, regles);
  }

  // ---- main results ----

  /** Whatever the hash and the slot, the ten published stages are distinct. */
  lemma TenDistinctStages(creneau: int, t: Tirage)
    requires t.Bon()
    ensures |Publies(creneau, t)| == 10 && SansDoublon(Publies(creneau, t))
  {
    OrderIsDistinct(creneau, t);
    TenExclusions(creneau - 1, t);
    EnoughToDraw(Ordre(creneau, t), Elements(Bruts(creneau - 1, t)), 10);
    DrawnAreNew(Ordre(creneau, t), Elements(Bruts(creneau - 1, t)), 10);
  }

  function Fenetre(p: seq<int>, r: int): seq<int>
    requires |p| == 25 && 0 <= r < 5
  {
    if r == 0 then p[..10] else if r == 1 then p[10..20] else if r == 2 then p[20..] + p[..5] else if r == 3 then p[5..15] else p[15..]
  }

  lemma WindowOf(g: int, t: Tirage, r: int)
    requires t.Bon() && 0 <= r < 5
    ensures Bruts(5 * g + r, t) == Fenetre(Permutation(g, t), r)
  {
    SlotOf(g, r);
    WindowIsFront(Permutation(g, t), r);
  }

  lemma WindowIsFront(p: seq<int>, r: int)
    requires |p| == 25 && 0 <= r < 5
    ensures Tourne(p, (10 * r) % 25)[..10] == Fenetre(p, r)
  {
  }

  lemma FiveWindows(p: seq<int>)
    requires |p| == 25
    ensures Fenetre(p, 0) + Fenetre(p, 1) + Fenetre(p, 2) + Fenetre(p, 3) + Fenetre(p, 4) == p + p
  {
  }

  lemma TwiceOver(p: seq<int>)
    ensures multiset(p + p) == multiset(p) + multiset(p)
  {
  }

  /** Each aligned group of five slots shows every known stage exactly twice. */
  lemma EveryStageTwice(g: int, t: Tirage)
    requires t.Bon()
    ensures multiset(Bruts(5 * g, t) + Bruts(5 * g + 1, t) + Bruts(5 * g + 2, t) + Bruts(5 * g + 3, t) + Bruts(5 * g + 4, t))
         == multiset(t.stages) + multiset(t.stages)
  {
    WindowOf(g, t, 0);
    WindowOf(g, t, 1);
    WindowOf(g, t, 2);
    WindowOf(g, t, 3);
    WindowOf(g, t, 4);
    PermutationIsDistinct(g, t);
    SumOfWindows(Permutation(g, t), Bruts(5 * g, t), Bruts(5 * g + 1, t), Bruts(5 * g + 2, t), Bruts(5 * g + 3, t), Bruts(5 * g + 4, t));
  }

  lemma SumOfWindows(p: seq<int>, a: seq<int>, b: seq<int>, c: seq<int>, d: seq<int>, e: seq<int>)
    requires |p| == 25 && a == Fenetre(p, 0) && b == Fenetre(p, 1) && c == Fenetre(p, 2) && d == Fenetre(p, 3) && e == Fenetre(p, 4)
    ensures multiset(a + b + c + d + e) == multiset(p) + multiset(p)
  {
    FiveWindows(p);
    TwiceOver(p);
  }

  ghost predicate Disjoints(a: seq<int>, b: seq<int>) {
    forall x :: x in a ==> x !in b
  }

  /** Inside a group, a slot's own stages avoid those of the slot before, so it publishes just those. */
  lemma InsideAGroup(creneau: int, t: Tirage)
    requires t.Bon() && Rang(creneau) != 0
    ensures Disjoints(Bruts(creneau - 1, t), Bruts(creneau, t)) && Publies(creneau, t) == Bruts(creneau, t)
  {
    SlotsAreAligned(creneau);
    var g, r := Groupe(creneau), Rang(creneau);
    WindowOf(g, t, r);
    WindowOf(g, t, r - 1);
    PermutationIsDistinct(g, t);
    WindowsApart(Permutation(g, t), r);
    OrderIsDistinct(creneau, t);
    FreeFrontIsDrawn(Ordre(creneau, t), Elements(Bruts(creneau - 1, t)), 10);
  }

  lemma WindowsApart(p: seq<int>, r: int)
    requires |p| == 25 && SansDoublon(p) && 1 <= r < 5
    ensures Disjoints(Fenetre(p, r - 1), Fenetre(p, r))
  {
  }

  /** The first free stages of the order, when some of its first ten are taken, run into the next ten. */
  lemma RunsOver(p: seq<int>, ex: set<int>)
    requires |p| == 25 && SansDoublon(p) && |ex| == 10
    ensures Disjoints(Pris(p, ex, 10), p[10..20]) <==> forall x :: x in p[..10] ==> x !in ex
  {
    if forall x :: x in p[..10] ==> x !in ex {
      FreeFrontIsDrawn(p, ex, 10);
    } else {
      var v :| v in p[..10] && v in ex;
      SomeFreeInNextTen(p, ex, v);
      assert p == p[..10] + (p[10..20] + p[20..]);
      DrawSpills(p[..10], p[10..20], p[20..], ex, v);
    }
  }

  /** When an element of a is taken, a draw of |a| from a then b reaches into b, if something there is free. */
  lemma DrawSpills(a: seq<int>, b: seq<int>, c: seq<int>, ex: set<int>, v: int)
    requires v in a && v in ex && exists w :: w in b && w !in ex && w !in a
    ensures exists w :: w in Pris(a + (b + c), ex, |a|) && w in b
  {
    var x := Pris(a, ex, |a|);
    ShortDraw(a, ex, |a|, v);
    DrawInTwoParts(a, b + c, ex, |a|);
    StillFree(a, b, ex, |a|);
    FrontIsReached(b, c, ex + Elements(x), |a| - |x|);
    var y := Pris(b + c, ex + Elements(x), |a| - |x|);
    var w :| w in y && w in b;
    assert w in x + y;
  }

  lemma StillFree(a: seq<int>, b: seq<int>, ex: set<int>, n: nat)
    requires exists w :: w in b && w !in ex && w !in a
    ensures exists w :: w in b && w !in ex + Elements(Pris(a, ex, n))
  {
    var w :| w in b && w !in ex && w !in a;
    DrawnAreNew(a, ex, n);
    assert w !in Pris(a, ex, n);
  }

  lemma FrontIsReached(b: seq<int>, c: seq<int>, fx: set<int>, n: nat)
    requires n > 0 && exists w :: w in b && w !in fx
    ensures exists w :: w in Pris(b + c, fx, n) && w in b
  {
    var y, z := Pris(b, fx, n), Pris(b + c, fx, n);
    DrawInTwoParts(b, c, fx, n);
    FreeIsDrawn(b, fx, n);
    DrawnAreNew(b, fx, n);
    assert y != [] && z[0] == y[0];
    assert y[0] in y;
    assert z[0] in z && z[0] in b;
  }

  lemma {:induction false} ShortDraw(a: seq<int>, ex: set<int>, n: nat, v: int)
    requires v in a && v in ex
    ensures |Pris(a, ex, n)| < |a|
    decreases a
  {
    if n > 0 && a[0] !in ex {
      ShortDraw(a[1..], ex + {a[0]}, n - 1, v);
    }
  }

  lemma SomeFreeInNextTen(p: seq<int>, ex: set<int>, v: int)
    requires |p| == 25 && SansDoublon(p) && |ex| == 10 && v in p[..10] && v in ex
    ensures exists w :: w in p[10..20] && w !in ex && w !in p[..10]
  {
    var q := p[10..20];
    ElementsOf(q);
    SubsetSize(Elements(q), ex - {v});
    var w :| w in Elements(q) && w !in ex - {v};
    assert w in q && w != v;
  }

  lemma {:induction false} FreeIsDrawn(q: seq<int>, ex: set<int>, n: nat)
    requires n > 0 && exists w :: w in q && w !in ex
    ensures Pris(q, ex, n) != []
    decreases q
  {
    if q[0] in ex {
      var w :| w in q && w !in ex;
      assert w in q[1..];
      FreeIsDrawn(q[1..], ex, n);
    }
  }

  lemma FirstOfAGroup(creneau: int, t: Tirage)
    requires t.Bon() && Rang(creneau) == 0
    ensures Disjoints(Publies(creneau - 1, t), Publies(creneau, t))
  {
    SlotsAreAligned(creneau);
    InsideAGroup(creneau - 1, t);
    DrawnAreNew(Ordre(creneau, t), Elements(Bruts(creneau - 1, t)), 10);
  }

  lemma FirstSlotPublishes(g: int, t: Tirage)
    requires t.Bon()
    ensures Publies(5 * g, t) == Pris(Permutation(g, t), Elements(Bruts(5 * g - 1, t)), 10)
  {
    SlotOf(g, 0);
    assert Tourne(Permutation(g, t), 0) == Permutation(g, t);
  }

  lemma SecondSlotPublishes(g: int, t: Tirage)
    requires t.Bon()
    ensures Publies(5 * g + 1, t) == Fenetre(Permutation(g, t), 1)
  {
    SlotOf(g, 1);
    InsideAGroup(5 * g + 1, t);
    WindowOf(g, t, 1);
  }

  lemma SecondOfAGroup(creneau: int, t: Tirage)
    requires t.Bon() && Rang(creneau) == 1
    ensures Disjoints(Publies(creneau - 1, t), Publies(creneau, t)) <==> Disjoints(Bruts(creneau - 2, t), Bruts(creneau - 1, t))
  {
    SlotsAreAligned(creneau);
    SecondOfTheGroup(Groupe(creneau), t);
  }

  lemma SecondOfTheGroup(g: int, t: Tirage)
    requires t.Bon()
    ensures Disjoints(Publies(5 * g, t), Publies(5 * g + 1, t)) <==> Disjoints(Bruts(5 * g - 1, t), Bruts(5 * g, t))
  {
    FirstSlotPublishes(g, t);
    SecondSlotPublishes(g, t);
    WindowOf(g, t, 0);
    PermutationIsDistinct(g, t);
    TenExclusions(5 * g - 1, t);
    SecondWindow(Permutation(g, t), Bruts(5 * g - 1, t), Bruts(5 * g, t), Publies(5 * g, t), Publies(5 * g + 1, t));
  }

  lemma SecondWindow(p: seq<int>, avant: seq<int>, b: seq<int>, pub0: seq<int>, pub1: seq<int>)
    requires |p| == 25 && SansDoublon(p) && |Elements(avant)| == 10
    requires pub0 == Pris(p, Elements(avant), 10) && pub1 == Fenetre(p, 1) && b == Fenetre(p, 0)
    ensures Disjoints(pub0, pub1) <==> Disjoints(avant, b)
  {
    RunsOver(p, Elements(avant));
  }

  lemma LaterInAGroup(creneau: int, t: Tirage)
    requires t.Bon() && Rang(creneau) >= 2
    ensures Disjoints(Publies(creneau - 1, t), Publies(creneau, t))
  {
    SlotsAreAligned(creneau);
    InsideAGroup(creneau - 1, t);
    InsideAGroup(creneau, t);
  }

  /**
   Two slots in a row publish no stage in common, but for the second slot of a group: there it is so exactly
   when the first slot's own stages avoided those of the slot before it.
   */
  lemma NoStageTwiceInARow(creneau: int, t: Tirage)
    requires t.Bon()
    ensures Disjoints(Publies(creneau - 1, t), Publies(creneau, t)) <==>
            (Rang(creneau) == 1 ==> Disjoints(Bruts(creneau - 2, t), Bruts(creneau - 1, t)))
  {
    SlotsAreAligned(creneau);
    if Rang(creneau) == 0 {
      FirstOfAGroup(creneau, t);
    } else if Rang(creneau) == 1 {
      SecondOfAGroup(creneau, t);
    } else {
      LaterInAGroup(creneau, t);
    }
  }

  // ---- the exception does occur ----

  lemma {:induction false} NothingMoves(s: seq<int>, h: nat -> nat, i: nat)
    requires i < |s| && forall k :: 0 <= k <= i ==> h(k) == k
    ensures Brasse(s, h, i) == s
    decreases i
  {
    if i > 0 {
      assert h(i) % (i + 1) == i;
      assert Echange(s, i, i) == s;
      NothingMoves(s, h, i - 1);
    }
  }

  /** A hash that keeps the stages in order from the epoch on, and sends the first to the end before it. */
  function MelangeTemoin(): Melange {
    (g: int, sel: nat) => if g < 0 || sel < SEL_STAGES then 0 else sel - SEL_STAGES
  }

  lemma WitnessKeepsOrder(t: Tirage, h: nat -> nat)
    requires t.Bon() && forall k: nat :: h(k) == k
    ensures BrasseTout(t.stages, h) == t.stages
  {
    NothingMoves(t.stages, h, 24);
  }

  lemma WitnessSendsLast(t: Tirage, h: nat -> nat)
    requires t.Bon() && h(24) == 0
    ensures BrasseTout(t.stages, h)[24] == t.stages[0]
  {
    AboveIsUntouched(Echange(t.stages, 24, 0), h, 23, 24);
  }

  lemma WitnessShuffles(t: Tirage)
    requires t.Bon() && t.m == MelangeTemoin()
    ensures Permutation(0, t)[0] == t.stages[0] == Permutation(-1, t)[24]
  {
    WitnessKeepsOrder(t, Hachage(0, t));
    WitnessSendsLast(t, Hachage(-1, t));
  }

  lemma WindowEnds(p: seq<int>)
    requires |p| == 25
    ensures Fenetre(p, 0)[0] == p[0] && Fenetre(p, 4)[9] == p[24]
  {
  }

  lemma GroupStarts(g: int, t: Tirage)
    requires t.Bon()
    ensures Bruts(5 * g + 0, t)[0] == Permutation(g, t)[0]
  {
  }

  lemma GroupEnds(g: int, t: Tirage)
    requires t.Bon()
    ensures Bruts(5 * g + 4, t)[9] == Permutation(g, t)[24]
  {
    WindowEnds(Permutation(g, t));
    WindowOf(g, t, 4);
  }

  lemma WitnessWindows(t: Tirage)
    requires t.Bon() && t.m == MelangeTemoin()
    ensures Bruts(0, t)[0] == t.stages[0] == Bruts(-1, t)[9]
  {
    WitnessShuffles(t);
    GroupStarts(0, t);
    GroupEnds(-1, t);
  }

  lemma EndsMeet(a: seq<int>, b: seq<int>)
    requires |a| == |b| == 10 && a[9] == b[0]
    ensures !Disjoints(a, b)
  {
    assert a[9] in a && b[0] in b;
  }

  lemma RepeatedStage(g: int, t: Tirage)
    requires t.Bon() && Bruts(5 * g - 1, t)[9] == Bruts(5 * g, t)[0]
    ensures !Disjoints(Publies(5 * g, t), Publies(5 * g + 1, t))
  {
    EndsMeet(Bruts(5 * g - 1, t), Bruts(5 * g, t));
    SecondOfTheGroup(g, t);
  }

  /** Slots 0 and 1 may publish a stage in common: the second slot of a group is a true exception. */
  lemma SecondSlotMayRepeat(t: Tirage)
    requires t.Bon() && t.m == MelangeTemoin()
    ensures !Disjoints(Publies(0, t), Publies(1, t))
  {
    WitnessWindows(t);
    RepeatedStage(0, t);
  }
}
