/**
 Scoring a Splatfest (fest_bareme.go): camps are ranked on five criteria, tied camps share the last place of
 their group, and places are worth points. Ratios are real numbers here.
 */
module FestScoring {
  import opened Wrappers
  import opened Texte
  import opened Sommes
  import opened Listes

  datatype Critere = Yobisai | PlayerCount | Regular | Challenge | Tricolor

  function PoidsPremier(c: Critere): int {
    match c
    case Yobisai => 90
    case PlayerCount => 70
    case Regular => 120
    case Challenge => 120
    case Tricolor => 180
  }

  function PoidsDeuxieme(c: Critere): int {
    match c
    case Yobisai => 45
    case PlayerCount => 35
    case Regular => 60
    case Challenge => 60
    case Tricolor => 90
  }

  /** First place, second place, and nothing after. */
  function PointsDuCritere(c: Critere, place: nat): int {
    if place == 0 then PoidsPremier(c) else if place == 1 then PoidsDeuxieme(c) else 0
  }

  type Parts = map<string, real>

  function PartDe(parts: Parts, c: string): real {
    if c in parts then parts[c] else 0.0
  }

  /** Largest ratio first, then by name. */
  function ParPart(parts: Parts): Ordre {
    (a: string, b: string) => PartDe(parts, a) > PartDe(parts, b) || (PartDe(parts, a) == PartDe(parts, b) && Inf(a, b))
  }

  lemma ParPartTotal(parts: Parts)
    ensures OrdreTotal(ParPart(parts))
  {
    InfOrdreTotal();
  }

  /** The camps of a measure, in its order. */
  ghost predicate Classement(ordre: seq<string>, parts: Parts) {
    Trie(ordre, ParPart(parts)) && |ordre| == |parts| && forall c :: c in ordre <==> c in parts
  }

  method ClassementParParts(parts: Parts) returns (camps: seq<string>)
    ensures Classement(camps, parts)
  {
    ParPartTotal(parts);
    camps := TrierPar(parts.Keys, ParPart(parts));
  }

  /** j is the last position of the group i belongs to. */
  ghost predicate FinDuGroupe(ordre: seq<string>, parts: Parts, i: nat, j: nat)
    requires i < |ordre|
  {
    && i <= j < |ordre|
    && (forall k :: i <= k <= j ==> PartDe(parts, ordre[k]) == PartDe(parts, ordre[i]))
    && (j + 1 < |ordre| ==> PartDe(parts, ordre[j + 1]) != PartDe(parts, ordre[i]))
  }

  /** Every camp of a tied group takes the group's last place. */
  method PlacesAvecEgalites(ordre: seq<string>, parts: Parts) returns (places: seq<nat>)
    ensures |places| == |ordre|
    ensures forall i :: 0 <= i < |ordre| ==> FinDuGroupe(ordre, parts, i, places[i])
  {
    var a := new nat[|ordre|];
    var i := 0;
    while i < |ordre|
      invariant 0 <= i <= |ordre|
      invariant forall k :: 0 <= k < i ==> FinDuGroupe(ordre, parts, k, a[k])
    {
      var j := i;
      while j + 1 < |ordre| && PartDe(parts, ordre[j + 1]) == PartDe(parts, ordre[i])
        invariant i <= j < |ordre|
        invariant forall k :: i <= k <= j ==> PartDe(parts, ordre[k]) == PartDe(parts, ordre[i])
      {
        j := j + 1;
      }
      for k := i to j + 1
        invariant forall l :: 0 <= l < k ==> FinDuGroupe(ordre, parts, l, a[l])
      {
        a[k] := j;
      }
      i := j + 1;
    }
    places := a[..];
  }

  // ---- a place is a count ----

  /** The camps with at least this ratio. */
  function AuMoins(parts: Parts, r: real): set<string> {
    set c | c in parts && parts[c] >= r
  }

  /** How many camps do at least as well, oneself not counted: no name enters into it. */
  function Place(parts: Parts, camp: string): nat
    requires camp in parts
  {
    assert camp in AuMoins(parts, parts[camp]);
    assert |AuMoins(parts, parts[camp])| > 0;
    |AuMoins(parts, parts[camp])| - 1
  }

  lemma EarlierIsAtLeast(ordre: seq<string>, parts: Parts, a: nat, b: nat)
    requires Classement(ordre, parts) && a <= b < |ordre|
    ensures PartDe(parts, ordre[a]) >= PartDe(parts, ordre[b])
  {
    assert a == b || ParPart(parts)(ordre[a], ordre[b]);
  }

  lemma InTheGroupOrBefore(ordre: seq<string>, parts: Parts, i: nat, j: nat, k: nat)
    requires Classement(ordre, parts) && i < |ordre| && FinDuGroupe(ordre, parts, i, j) && k < |ordre|
    ensures PartDe(parts, ordre[k]) >= PartDe(parts, ordre[i]) <==> k <= j
  {
    if k < i {
      EarlierIsAtLeast(ordre, parts, k, i);
    } else if k > j {
      EarlierIsAtLeast(ordre, parts, i, j + 1);
      EarlierIsAtLeast(ordre, parts, j + 1, k);
    }
  }

  lemma UpToTheGroupsEnd(ordre: seq<string>, parts: Parts, i: nat, j: nat)
    requires Classement(ordre, parts) && i < |ordre| && FinDuGroupe(ordre, parts, i, j)
    ensures forall k :: 0 <= k < |ordre| ==> (PartDe(parts, ordre[k]) >= PartDe(parts, ordre[i]) <==> k <= j)
  {
    forall k | 0 <= k < |ordre|
      ensures PartDe(parts, ordre[k]) >= PartDe(parts, ordre[i]) <==> k <= j
    {
      InTheGroupOrBefore(ordre, parts, i, j, k);
    }
  }

  /** The place given after sorting and grouping ties is a plain count. */
  lemma PlaceIsACount(ordre: seq<string>, parts: Parts, i: nat, j: nat)
    requires Classement(ordre, parts) && i < |ordre| && FinDuGroupe(ordre, parts, i, j)
    ensures ordre[i] in parts && j == Place(parts, ordre[i])
  {
    assert ordre[i] in ordre;
    UpToTheGroupsEnd(ordre, parts, i, j);
    var t := ordre[..j + 1];
    ElementsOf(t);
    forall c
      ensures c in Elements(t) <==> c in AuMoins(parts, parts[ordre[i]])
    {
      if c in parts {
        var k :| 0 <= k < |ordre| && ordre[k] == c;
        assert c in t <==> k <= j by {
          if k <= j {
            assert t[k] == c;
          }
        }
      } else {
        assert c !in ordre;
      }
    }
    assert Elements(t) == AuMoins(parts, parts[ordre[i]]);
  }

  // ---- the other criteria ----

  type Victoires = map<string, nat>

  function VictoiresDe(v: Victoires, c: string): int {
    if c in v then v[c] else 0
  }

  ghost function TotalVictoires(v: Victoires): int {
    Somme(v.Keys, (c: string) => VictoiresDe(v, c))
  }

  /** The share of each camp in the battles won, if any was. */
  function PartsVictoires(v: Victoires, camps: set<string>, total: int): Parts {
    if total > 0 then map c | c in camps :: VictoiresDe(v, c) as real / total as real else map[]
  }

  /** A share times the battles won by all is the battles the camp won. */
  lemma SharesOfVictories(v: Victoires, camps: set<string>, total: int, c: string)
    requires total > 0 && c in camps
    ensures PartsVictoires(v, camps, total)[c] * total as real == VictoiresDe(v, c) as real
  {
  }

  method CompterVictoires(v: Victoires) returns (total: int)
    ensures total == TotalVictoires(v)
  {
    ghost var f := (c: string) => VictoiresDe(v, c);
    total := 0;
    var restants := v.Keys;
    while restants != {}
      invariant restants <= v.Keys && total + Somme(restants, f) == Somme(v.Keys, f)
      decreases restants
    {
      var c :| c in restants;
      TakeOut(restants, f, c);
      total := total + v[c];
      restants := restants - {c};
    }
    SameTerms(v.Keys, f, (c: string) => VictoiresDe(v, c));
  }

  method MesurerParts(v: Victoires, ordre: seq<string>, total: int) returns (p: Parts)
    ensures p == PartsVictoires(v, Elements(ordre), total)
  {
    p := map[];
    for i := 0 to |ordre|
      invariant p == PartsVictoires(v, Elements(ordre[..i]), total)
    {
      assert ordre[..i + 1] == ordre[..i] + [ordre[i]];
      assert Elements(ordre[..i + 1]) == Elements(ordre[..i]) + {ordre[i]};
      if total > 0 {
        p := p[ordre[i] := VictoiresDe(v, ordre[i]) as real / total as real];
      }
    }
    assert ordre[..|ordre|] == ordre;
  }

  /** The place of a camp on a criterion: measured on its battles if any were recorded, copied from the vote otherwise. */
  ghost function PlaceCritere(v: Victoires, parts: Parts, camp: string): nat
    requires camp in parts
  {
    if v == map[] then Place(parts, camp)
    else
      var p := PartsVictoires(v, parts.Keys, TotalVictoires(v));
      if camp in p then Place(p, camp) else 0
  }

  lemma RankingHasNoDuplicate(ordre: seq<string>, parts: Parts)
    requires Classement(ordre, parts)
    ensures SansDoublon(ordre) && Elements(ordre) == parts.Keys
  {
  }

  method Associer(ordre: seq<string>, places: seq<nat>) returns (out: map<string, nat>)
    requires |places| == |ordre| && SansDoublon(ordre)
    ensures out.Keys == Elements(ordre) && forall i :: 0 <= i < |ordre| ==> out[ordre[i]] == places[i]
  {
    out := map[];
    for i := 0 to |ordre|
      invariant out.Keys == Elements(ordre[..i]) && forall k :: 0 <= k < i ==> ordre[k] in out && out[ordre[k]] == places[k]
    {
      assert ordre[..i + 1] == ordre[..i] + [ordre[i]];
      out := out[ordre[i] := places[i]];
    }
    assert ordre[..|ordre|] == ordre;
  }

  method PlacesParCamp(ordre: seq<string>, parts: Parts) returns (out: map<string, nat>)
    requires Classement(ordre, parts)
    ensures out.Keys == parts.Keys && forall c :: c in parts ==> out[c] == Place(parts, c)
  {
    RankingHasNoDuplicate(ordre, parts);
    var places := PlacesAvecEgalites(ordre, parts);
    out := Associer(ordre, places);
    forall i | 0 <= i < |ordre|
      ensures ordre[i] in parts && out[ordre[i]] == Place(parts, ordre[i])
    {
      PlaceIsACount(ordre, parts, i, places[i]);
    }
    forall c | c in parts
      ensures out[c] == Place(parts, c)
    {
      assert c in Elements(ordre);
    }
  }

  method PlacesDuCritere(v: Victoires, ordre: seq<string>, parts: Parts) returns (places: map<string, nat>, mesure: bool)
    requires Classement(ordre, parts)
    ensures mesure <==> v != map[]
    ensures forall c :: c in parts ==> PlaceLue(places, c) == PlaceCritere(v, parts, c)
  {
    if v != map[] {
      RankingHasNoDuplicate(ordre, parts);
      var total := CompterVictoires(v);
      var p := MesurerParts(v, ordre, total);
      var o := ClassementParParts(p);
      places := PlacesParCamp(o, p);
      return places, true;
    }
    places := PlacesParCamp(ordre, parts);
    return places, false;
  }

  /** A camp missing from the places reads as the first, as a missing Go map entry reads as zero. */
  function PlaceLue(places: map<string, nat>, c: string): nat {
    if c in places then places[c] else 0
  }

  /** What each criterion is measured on: two of them may have battles, the others follow the vote. */
  datatype Mesures = Mesures(regular: Victoires, challenge: Victoires)

  function VictoiresDu(m: Mesures, c: Critere): Victoires {
    match c
    case Regular => m.regular
    case Challenge => m.challenge
    case _ => map[]
  }

  /** A camp's points over these criteria. */
  ghost function TotalSur(cs: seq<Critere>, parts: Parts, m: Mesures, camp: string): int
    requires camp in parts
  {
    if cs == [] then 0
    else
      var c := cs[|cs| - 1];
      TotalSur(cs[..|cs| - 1], parts, m, camp) + PointsDuCritere(c, PlaceCritere(VictoiresDu(m, c), parts, camp))
  }

  function Criteres(): seq<Critere> {
    [Yobisai, PlayerCount, Regular, Challenge, Tricolor]
  }

  ghost function TotalDe(parts: Parts, m: Mesures, camp: string): int
    requires camp in parts
  {
    TotalSur(Criteres(), parts, m, camp)
  }

  /** Adds to each camp the points of its place on one criterion. */
  method Cumuler(critere: Critere, ordre: seq<string>, places: map<string, nat>, avant: map<string, int>) returns (total: map<string, int>)
    requires SansDoublon(ordre)
    ensures total.Keys == avant.Keys + Elements(ordre)
    ensures forall c :: c in ordre ==> total[c] == (if c in avant then avant[c] else 0) + PointsDuCritere(critere, PlaceLue(places, c))
  {
    total := avant;
    for i := 0 to |ordre|
      invariant total.Keys == avant.Keys + Elements(ordre[..i])
      invariant forall k :: 0 <= k < i ==>
          total[ordre[k]] == (if ordre[k] in avant then avant[ordre[k]] else 0) + PointsDuCritere(critere, PlaceLue(places, ordre[k]))
      invariant forall c :: c in avant && c !in ordre[..i] ==> total[c] == avant[c]
    {
      var camp := ordre[i];
      assert ordre[..i + 1] == ordre[..i] + [camp];
      assert camp !in ordre[..i];
      total := total[camp := (if camp in total then total[camp] else 0) + PointsDuCritere(critere, PlaceLue(places, camp))];
    }
    assert ordre[..|ordre|] == ordre;
  }

  /** The whole verdict: every camp's total over the five criteria, the vote first. */
  method ClassementsDeLaFete(parts: Parts, m: Mesures) returns (ordre: seq<string>, total: map<string, int>)
    ensures Classement(ordre, parts)
    ensures total.Keys == parts.Keys && forall c :: c in parts ==> total[c] == TotalDe(parts, m, c)
  {
    ordre := ClassementParParts(parts);
    RankingHasNoDuplicate(ordre, parts);
    var votes := PlacesParCamp(ordre, parts);
    total := Cumuler(Yobisai, ordre, votes, map[]);
    VoteFirst(ordre, parts, m, votes, total);
    total := AjouterCriteres(Criteres(), parts, m, ordre, total);
  }

  method AjouterCriteres(criteres: seq<Critere>, parts: Parts, m: Mesures, ordre: seq<string>, avant: map<string, int>)
    returns (total: map<string, int>)
    requires Classement(ordre, parts) && SansDoublon(ordre) && Elements(ordre) == parts.Keys == avant.Keys && criteres != []
    requires Cumule(avant, criteres[..1], parts, m)
    ensures Cumule(total, criteres, parts, m)
  {
    total := avant;
    for i := 1 to |criteres|
      invariant Cumule(total, criteres[..i], parts, m)
    {
      ghost var cumul := total;
      total := AjouterCritere(criteres[i], parts, m, ordre, total);
      CriterionAt(cumul, total, criteres, i, parts, m);
    }
    assert criteres[..|criteres|] == criteres;
  }

  /** The camps' totals over these criteria. */
  ghost predicate Cumule(total: map<string, int>, cs: seq<Critere>, parts: Parts, m: Mesures) {
    total.Keys == parts.Keys && forall c :: c in parts ==> total[c] == TotalSur(cs, parts, m, c)
  }

  lemma CriterionAt(avant: map<string, int>, total: map<string, int>, cs: seq<Critere>, i: nat, parts: Parts, m: Mesures)
    requires i < |cs| && Cumule(avant, cs[..i], parts, m) && total.Keys == parts.Keys
    requires forall c :: c in parts ==> total[c] == avant[c] + PointsDuCritere(cs[i], PlaceCritere(VictoiresDu(m, cs[i]), parts, c))
    ensures Cumule(total, cs[..i + 1], parts, m)
  {
    assert cs[..i + 1] == cs[..i] + [cs[i]];
    OneMoreCriterion(avant, total, cs[..i], cs[i], parts, m);
  }

  lemma OneMoreCriterion(avant: map<string, int>, total: map<string, int>, cs: seq<Critere>, critere: Critere, parts: Parts, m: Mesures)
    requires Cumule(avant, cs, parts, m) && total.Keys == parts.Keys
    requires forall c :: c in parts ==> total[c] == avant[c] + PointsDuCritere(critere, PlaceCritere(VictoiresDu(m, critere), parts, c))
    ensures Cumule(total, cs + [critere], parts, m)
  {
    assert (cs + [critere])[..|cs|] == cs;
  }

  lemma VoteFirst(ordre: seq<string>, parts: Parts, m: Mesures, votes: map<string, nat>, total: map<string, int>)
    requires Elements(ordre) == parts.Keys == votes.Keys && forall c :: c in parts ==> votes[c] == Place(parts, c)
    requires forall c :: c in ordre ==> c in total && total[c] == PointsDuCritere(Yobisai, PlaceLue(votes, c))
    requires total.Keys == parts.Keys
    ensures Cumule(total, Criteres()[..1], parts, m)
  {
  }

  method AjouterCritere(critere: Critere, parts: Parts, m: Mesures, ordre: seq<string>, avant: map<string, int>) returns (total: map<string, int>)
    requires Classement(ordre, parts) && SansDoublon(ordre) && Elements(ordre) == parts.Keys == avant.Keys
    ensures total.Keys == parts.Keys
    ensures forall c :: c in parts ==> total[c] == avant[c] + PointsDuCritere(critere, PlaceCritere(VictoiresDu(m, critere), parts, c))
  {
    var places, mesure := PlacesDuCritere(VictoiresDu(m, critere), ordre, parts);
    total := Cumuler(critere, ordre, places, avant);
    forall c | c in parts
      ensures c in ordre
    {
      assert c in Elements(ordre);
    }
  }

  // ---- main results ----

  lemma BetterRatioBetterPlace(parts: Parts, a: string, b: string)
    requires a in parts && b in parts && parts[a] >= parts[b]
    ensures Place(parts, a) <= Place(parts, b)
  {
    SubsetCard(AuMoins(parts, parts[a]), AuMoins(parts, parts[b]));
  }

  lemma MoreVictoriesBetterPlace(v: Victoires, parts: Parts, a: string, b: string)
    requires a in parts && b in parts && parts[a] >= parts[b] && VictoiresDe(v, a) >= VictoiresDe(v, b)
    ensures PlaceCritere(v, parts, a) <= PlaceCritere(v, parts, b)
  {
    BetterRatioBetterPlace(parts, a, b);
    if v != map[] && TotalVictoires(v) > 0 {
      var p := PartsVictoires(v, parts.Keys, TotalVictoires(v));
      BetterRatioBetterPlace(p, a, b);
    }
  }

  /** At least as good everywhere. */
  ghost predicate AuMoinsAussiBon(parts: Parts, m: Mesures, a: string, b: string) {
    && a in parts && b in parts && parts[a] >= parts[b]
    && VictoiresDe(m.regular, a) >= VictoiresDe(m.regular, b) && VictoiresDe(m.challenge, a) >= VictoiresDe(m.challenge, b)
  }

  /** A camp at least as good on every measure never totals less, and camps equal on all of them total the same. */
  lemma BetterNeverTotalsLess(parts: Parts, m: Mesures, a: string, b: string)
    requires AuMoinsAussiBon(parts, m, a, b)
    ensures TotalDe(parts, m, a) >= TotalDe(parts, m, b)
    ensures AuMoinsAussiBon(parts, m, b, a) ==> TotalDe(parts, m, a) == TotalDe(parts, m, b)
  {
    OneWay(Criteres(), parts, m, a, b);
    if AuMoinsAussiBon(parts, m, b, a) {
      OneWay(Criteres(), parts, m, b, a);
    }
  }

  lemma {:induction false} OneWay(cs: seq<Critere>, parts: Parts, m: Mesures, a: string, b: string)
    requires AuMoinsAussiBon(parts, m, a, b)
    ensures TotalSur(cs, parts, m, a) >= TotalSur(cs, parts, m, b)
  {
    if cs != [] {
      var c := cs[|cs| - 1];
      OneWay(cs[..|cs| - 1], parts, m, a, b);
      MoreVictoriesBetterPlace(VictoiresDu(m, c), parts, a, b);
    }
  }

  /** On a criterion with battles won, a place counts the camps that won at least as many. */
  lemma MeasuredPlaceIsACount(v: Victoires, parts: Parts, camp: string)
    requires camp in parts && TotalVictoires(v) > 0
    ensures PlaceCritere(v, parts, camp) + 1 == |set c | c in parts && VictoiresDe(v, c) >= VictoiresDe(v, camp)|
  {
    if v == map[] {
      AllZero(v.Keys, (c: string) => VictoiresDe(v, c));
    }
    var p := PartsVictoires(v, parts.Keys, TotalVictoires(v));
    var t := TotalVictoires(v);
    forall c | c in parts
      ensures p[c] >= p[camp] <==> VictoiresDe(v, c) >= VictoiresDe(v, camp)
    {
    }
    assert AuMoins(p, p[camp]) == set c | c in parts && VictoiresDe(v, c) >= VictoiresDe(v, camp);
  }

  lemma {:induction false} NoTotalNoTerm(v: Victoires, ks: set<string>, c: string)
    requires c in ks && Somme(ks, (k: string) => VictoiresDe(v, k)) == 0
    ensures VictoiresDe(v, c) == 0
    decreases ks
  {
    TakeOut(ks, (k: string) => VictoiresDe(v, k), c);
    NoNegativeSum(v, ks - {c});
  }

  lemma {:induction false} NoNegativeSum(v: Victoires, ks: set<string>)
    ensures Somme(ks, (k: string) => VictoiresDe(v, k)) >= 0
    decreases ks
  {
    if ks != {} {
      var c :| c in ks;
      TakeOut(ks, (k: string) => VictoiresDe(v, k), c);
      NoNegativeSum(v, ks - {c});
    }
  }

  /**
   For any table a file may hold, a place is that count exactly when some battle was won or the camp is alone. No
   recorded battle leaves a table of zeros, so only a file written by hand can fail it.
   */
  lemma PlaceCountIff(v: Victoires, parts: Parts, camp: string)
    requires camp in parts && v != map[]
    ensures PlaceCritere(v, parts, camp) + 1 == |set c | c in parts && VictoiresDe(v, c) >= VictoiresDe(v, camp)| <==>
            TotalVictoires(v) > 0 || |parts| == 1
  {
    NoNegativeSum(v, v.Keys);
    if TotalVictoires(v) > 0 {
      MeasuredPlaceIsACount(v, parts, camp);
    } else {
      NoVictoryAtAllIsFirstPlace(v, parts, camp);
      forall c | c in parts
        ensures VictoiresDe(v, c) == 0
      {
        if c in v {
          NoTotalNoTerm(v, v.Keys, c);
        }
      }
      assert (set c | c in parts && VictoiresDe(v, c) >= VictoiresDe(v, camp)) == parts.Keys;
      assert |parts.Keys| == |parts|;
    }
  }

  /** A file written by hand that holds only zeros: the camp second in the vote is then placed first. */
  lemma ZerosWrittenByHand(v: Victoires, parts: Parts)
    requires v == map["Alpha" := 0] && parts == map["Alpha" := 0.6, "Bravo" := 0.4]
    ensures PlaceCritere(v, parts, "Bravo") == 0
    ensures PlaceCritere(v, parts, "Bravo") + 1 != |set c | c in parts && VictoiresDe(v, c) >= VictoiresDe(v, "Bravo")|
  {
    AllZero(v.Keys, (c: string) => VictoiresDe(v, c));
    assert "Alpha" in v && TotalVictoires(v) == 0;
    NoVictoryAtAllIsFirstPlace(v, parts, "Bravo");
    PlaceCountIff(v, parts, "Bravo");
    assert |parts| == 2;
  }

  /** A table of zeros gives every camp the first place. */
  lemma NoVictoryAtAllIsFirstPlace(v: Victoires, parts: Parts, camp: string)
    requires camp in parts && v != map[] && TotalVictoires(v) == 0
    ensures PlaceCritere(v, parts, camp) == 0
  {
  }

  /** Largest total first, then by name. */
  method ClassementParPoints(total: map<string, int>) returns (camps: seq<string>)
    ensures |camps| == |total| && ParPoints(camps, total)
  {
    var p: Parts := map c | c in total :: total[c] as real;
    camps := ClassementParParts(p);
    ByPoints(total, p, camps);
  }

  lemma ByPoints(total: map<string, int>, p: Parts, camps: seq<string>)
    requires p.Keys == total.Keys && (forall c :: c in total ==> p[c] == total[c] as real) && Classement(camps, p)
    ensures |camps| == |total| && ParPoints(camps, total)
  {
    SameCard(p, total);
    forall i, j | 0 <= i < j < |camps|
      ensures total[camps[i]] > total[camps[j]] || (total[camps[i]] == total[camps[j]] && Inf(camps[i], camps[j]))
    {
      assert camps[i] in camps && camps[j] in camps;
      var x, y := total[camps[i]], total[camps[j]];
      assert ParPart(p)(camps[i], camps[j]);
      ParPartMeans(p, camps[i], camps[j]);
    }
  }

  lemma ParPartMeans(p: Parts, a: string, b: string)
    requires a in p && b in p
    ensures ParPart(p)(a, b) <==> p[a] > p[b] || (p[a] == p[b] && Inf(a, b))
  {
  }

  lemma SameCard(p: map<string, real>, t: map<string, int>)
    requires p.Keys == t.Keys
    ensures |p| == |t|
  {
  }

  /** The camp announced first has the largest total, and of those that share it the first name. */
  method Vainqueur(parts: Parts, m: Mesures) returns (camp: string)
    requires parts != map[]
    ensures camp in parts && forall c :: c in parts ==> TotalDe(parts, m, c) <= TotalDe(parts, m, camp)
    ensures forall c :: c in parts && c != camp && TotalDe(parts, m, c) == TotalDe(parts, m, camp) ==> Inf(camp, c)
  {
    var ordre, total := ClassementsDeLaFete(parts, m);
    var camps := ClassementParPoints(total);
    FirstIsBest(total, camps);
    camp := camps[0];
  }

  ghost predicate ParPoints(camps: seq<string>, total: map<string, int>) {
    && (forall c :: c in camps <==> c in total)
    && forall i, j :: 0 <= i < j < |camps| ==>
         total[camps[i]] > total[camps[j]] || (total[camps[i]] == total[camps[j]] && Inf(camps[i], camps[j]))
  }

  lemma FirstIsBest(total: map<string, int>, camps: seq<string>)
    requires total != map[] && ParPoints(camps, total)
    ensures camps != [] && camps[0] in total
    ensures forall c :: c in total && c != camps[0] ==> total[c] < total[camps[0]] || (total[c] == total[camps[0]] && Inf(camps[0], c))
  {
    var un :| un in total;
    assert un in camps;
    assert camps[0] in camps;
    forall c | c in total && c != camps[0]
      ensures total[c] < total[camps[0]] || (total[c] == total[camps[0]] && Inf(camps[0], c))
    {
      assert c in camps;
      var i :| 0 <= i < |camps| && camps[i] == c;
    }
  }

  // ---- the scale, written out ----

  /** What a criterion pays to a camp when that many, itself included, do at least as well: all, half, or nothing. */
  function Bareme(combien: nat, premier: int): int {
    if combien <= 1 then premier else if combien == 2 then premier / 2 else 0
  }

  ghost function AutantDeVotes(parts: Parts, camp: string): nat
    requires camp in parts
  {
    |set c | c in parts && parts[c] >= parts[camp]|
  }

  /** The same in battles won; the vote stands for a measure without battles, and a table of zeros counts nobody else. */
  ghost function AutantDeVictoires(v: Victoires, parts: Parts, camp: string): nat
    requires camp in parts
  {
    if v == map[] then AutantDeVotes(parts, camp)
    else if TotalVictoires(v) == 0 then 1
    else |set c | c in parts && VictoiresDe(v, c) >= VictoiresDe(v, camp)|
  }

  lemma CriterionPays(v: Victoires, parts: Parts, camp: string)
    requires camp in parts
    ensures PlaceCritere(v, parts, camp) + 1 == AutantDeVictoires(v, parts, camp)
  {
    NoNegativeSum(v, v.Keys);
    if v == map[] {
      VotePlace(parts, camp);
    } else if TotalVictoires(v) == 0 {
      NoVictoryAtAllIsFirstPlace(v, parts, camp);
    } else {
      MeasuredPlaceIsACount(v, parts, camp);
    }
  }

  lemma VotePlace(parts: Parts, camp: string)
    requires camp in parts
    ensures Place(parts, camp) + 1 == AutantDeVotes(parts, camp)
  {
    assert AuMoins(parts, parts[camp]) == set c | c in parts && parts[c] >= parts[camp];
  }

  lemma FiveTerms(parts: Parts, m: Mesures, camp: string)
    requires camp in parts
    ensures TotalDe(parts, m, camp) ==
            PointsDuCritere(Yobisai, PlaceCritere(VictoiresDu(m, Yobisai), parts, camp))
            + PointsDuCritere(PlayerCount, PlaceCritere(VictoiresDu(m, PlayerCount), parts, camp))
            + PointsDuCritere(Regular, PlaceCritere(VictoiresDu(m, Regular), parts, camp))
            + PointsDuCritere(Challenge, PlaceCritere(VictoiresDu(m, Challenge), parts, camp))
            + PointsDuCritere(Tricolor, PlaceCritere(VictoiresDu(m, Tricolor), parts, camp))
  {
    var cs := Criteres();
    assert cs[..5] == cs;
    UpToTerm(cs, parts, m, camp, 4);
    UpToTerm(cs, parts, m, camp, 3);
    UpToTerm(cs, parts, m, camp, 2);
    UpToTerm(cs, parts, m, camp, 1);
    UpToTerm(cs, parts, m, camp, 0);
  }

  lemma UpToTerm(cs: seq<Critere>, parts: Parts, m: Mesures, camp: string, k: nat)
    requires camp in parts && k < |cs|
    ensures TotalSur(cs[..k + 1], parts, m, camp) ==
            TotalSur(cs[..k], parts, m, camp) + PointsDuCritere(cs[k], PlaceCritere(VictoiresDu(m, cs[k]), parts, camp))
  {
    assert cs[..k + 1][..k] == cs[..k];
  }

  /** A camp's total, with no sorting, grouping or table of places in it: five counts and five prices. */
  lemma TotalIsTheScale(parts: Parts, m: Mesures, camp: string)
    requires camp in parts
    ensures TotalDe(parts, m, camp) ==
            Bareme(AutantDeVotes(parts, camp), 90) + Bareme(AutantDeVotes(parts, camp), 70)
            + Bareme(AutantDeVictoires(m.regular, parts, camp), 120) + Bareme(AutantDeVictoires(m.challenge, parts, camp), 120)
            + Bareme(AutantDeVotes(parts, camp), 180)
  {
    FiveTerms(parts, m, camp);
    VotePlace(parts, camp);
    CriterionPays(m.regular, parts, camp);
    CriterionPays(m.challenge, parts, camp);
  }

  /** Two camps do better than this one, in the vote and in every measure that has battles. */
  ghost predicate DerriereDeux(parts: Parts, m: Mesures, a: string, b: string, camp: string) {
    && a in parts && b in parts && camp in parts && a != b && a != camp && b != camp
    && parts[a] > parts[camp] && parts[b] > parts[camp]
    && (forall v :: v in {m.regular, m.challenge} && v != map[] ==>
          VictoiresDe(v, a) > VictoiresDe(v, camp) && VictoiresDe(v, b) > VictoiresDe(v, camp))
  }

  lemma ThreeAtLeast(s: set<string>, a: string, b: string, c: string)
    requires a in s && b in s && c in s && a != b && a != c && b != c
    ensures |s| >= 3
  {
    SubsetCard({a, b, c}, s);
  }

  lemma ThirdInBattles(v: Victoires, parts: Parts, a: string, b: string, camp: string)
    requires a in parts && b in parts && camp in parts && a != b && a != camp && b != camp
    requires parts[a] > parts[camp] && parts[b] > parts[camp]
    requires v != map[] ==> VictoiresDe(v, a) > VictoiresDe(v, camp) && VictoiresDe(v, b) > VictoiresDe(v, camp)
    ensures AutantDeVictoires(v, parts, camp) >= 3 && AutantDeVotes(parts, camp) >= 3
  {
    ThreeAtLeast((set c | c in parts && parts[c] >= parts[camp]), a, b, camp);
    if v != map[] {
      NoNegativeSum(v, v.Keys);
      if TotalVictoires(v) == 0 {
        NoTotalNoTerm(v, v.Keys, a);
      }
      ThreeAtLeast((set c | c in parts && VictoiresDe(v, c) >= VictoiresDe(v, camp)), a, b, camp);
    }
  }

  /** A camp behind two others everywhere totals nothing. */
  lemma LastOfThreeTotalsNothing(parts: Parts, m: Mesures, a: string, b: string, camp: string)
    requires DerriereDeux(parts, m, a, b, camp)
    ensures TotalDe(parts, m, camp) == 0
  {
    TotalIsTheScale(parts, m, camp);
    ThirdInBattles(m.regular, parts, a, b, camp);
    ThirdInBattles(m.challenge, parts, a, b, camp);
  }

  ghost predicate Devance(parts: Parts, m: Mesures, camp: string) {
    forall c :: c in parts && c != camp ==> camp in parts && DevanceUn(parts, m, camp, c)
  }

  ghost predicate DevanceUn(parts: Parts, m: Mesures, camp: string, c: string)
    requires camp in parts && c in parts
  {
    && parts[c] < parts[camp] && VictoiresDe(m.regular, c) < VictoiresDe(m.regular, camp)
    && VictoiresDe(m.challenge, c) < VictoiresDe(m.challenge, camp)
  }

  /** A camp ahead of all the others everywhere totals 580, and 580 is the most there is. */
  lemma FirstEverywhereTotalsAll(parts: Parts, m: Mesures, camp: string)
    requires camp in parts
    ensures TotalDe(parts, m, camp) <= 580
    ensures Devance(parts, m, camp) ==> TotalDe(parts, m, camp) == 580
  {
    TotalIsTheScale(parts, m, camp);
    if Devance(parts, m, camp) {
      assert forall c :: c in parts && c != camp ==> DevanceUn(parts, m, camp, c);
      assert (set c | c in parts && parts[c] >= parts[camp]) == {camp};
      assert (set c | c in parts && VictoiresDe(m.regular, c) >= VictoiresDe(m.regular, camp)) == {camp};
      assert (set c | c in parts && VictoiresDe(m.challenge, c) >= VictoiresDe(m.challenge, camp)) == {camp};
    }
  }
}
