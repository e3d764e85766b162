/**
 Splitting a Splatfest queue into camps (fest_equipes.go).
 */
module CampSplit {
  import opened Wrappers
  import opened Texte

  /** One waiter of the matchmaking queue; `id` is its identity, `camp` what its ticket declares ("" if nothing). */
  datatype Attente = Attente(id: nat, uid: string, ticket: string, config: string, camp: string)

  datatype Repartition = Repartition(choisis: seq<Attente>, creneau: map<nat, string>)

  /** The festival settings in force: the "festmelange" switch, the tricolour pattern, the defending camp. */
  datatype Fete = Fete(melange: bool, motif: string, defenseur: string)

  ghost function IdsDe(ws: seq<Attente>): set<nat> {
    set w | w in ws :: w.id
  }

  ghost predicate IdsDistincts(ws: seq<Attente>) {
    forall i, j :: 0 <= i < j < |ws| ==> ws[i].id != ws[j].id
  }

  /** The waiters of one camp, in arrival order. */
  ghost function DuCamp(ws: seq<Attente>, c: string): (r: seq<Attente>)
    ensures forall w :: w in r <==> w in ws && w.camp == c
    ensures |r| <= |ws|
  {
    if ws == [] then []
    else
      var w := ws[|ws| - 1];
      DuCamp(ws[..|ws| - 1], c) + (if w.camp == c then [w] else [])
  }

  lemma {:induction false} DuCampDistinct(ws: seq<Attente>, c: string)
    requires IdsDistincts(ws)
    ensures IdsDistincts(DuCamp(ws, c))
  {
    if ws != [] {
      DuCampDistinct(ws[..|ws| - 1], c);
    }
  }

  predicate EstFileDeFete(cfg: string) {
    Contient(DernierSegment(cfg), "fest")
  }

  predicate EstTricolore(cfg: string, fete: Fete) {
    Contient(DernierSegment(cfg), if fete.motif != "" then fete.motif else "tricolor")
  }

  /** `parCamp` groups the waiters that declare a camp. */
  ghost predicate Groupes(parCamp: map<string, seq<Attente>>, ws: seq<Attente>) {
    && (forall c :: c in parCamp <==> c != "" && DuCamp(ws, c) != [])
    && (forall c :: c in parCamp ==> parCamp[c] == DuCamp(ws, c))
  }

  /** Two different camps, each able to field `n` waiters. */
  ghost predicate DeuxCamps(ws: seq<Attente>, n: nat) {
    exists a, b :: a != b && a != "" && b != "" && |DuCamp(ws, a)| >= n && |DuCamp(ws, b)| >= n
  }

  /** Two different attacking camps of at least two waiters each. */
  ghost predicate DeuxAttaquants(ws: seq<Attente>, defenseur: string) {
    exists a, b :: Attaquant(ws, defenseur, a) && Attaquant(ws, defenseur, b) && a != b
  }

  ghost predicate Attaquant(ws: seq<Attente>, defenseur: string, c: string) {
    c != "" && c != defenseur && |DuCamp(ws, c)| >= 2
  }

  /** Every waiter of `equipe` sits in this slot. */
  ghost predicate Place(r: Repartition, equipe: seq<Attente>, slot: string) {
    forall w :: w in equipe ==> w.id in r.creneau && r.creneau[w.id] == slot
  }

  /** Half from one camp as team1, half from another as team2. */
  ghost predicate Affrontement(ws: seq<Attente>, n: nat, r: Repartition, a: string, b: string) {
    && a != b && a != "" && b != "" && |DuCamp(ws, a)| >= n && |DuCamp(ws, b)| >= n
    && r.choisis == DuCamp(ws, a)[..n] + DuCamp(ws, b)[..n] && r.creneau.Keys == IdsDe(r.choisis)
    && Place(r, DuCamp(ws, a)[..n], "team1") && Place(r, DuCamp(ws, b)[..n], "team2")
  }

  /** Four defenders as team1, two of one attacking camp as team2, two of another as team3. */
  ghost predicate Tricolore(ws: seq<Attente>, d: string, r: Repartition, a: string, b: string) {
    && d != "" && |DuCamp(ws, d)| >= 4 && Attaquant(ws, d, a) && Attaquant(ws, d, b) && a != b
    && r.choisis == DuCamp(ws, d)[..4] + DuCamp(ws, a)[..2] + DuCamp(ws, b)[..2] && r.creneau.Keys == IdsDe(r.choisis)
    && Place(r, DuCamp(ws, d)[..4], "team1") && Place(r, DuCamp(ws, a)[..2], "team2") && Place(r, DuCamp(ws, b)[..2], "team3")
  }

  /** More waiters, or as many and an earlier name. */
  ghost predicate PlusFort(ws: seq<Attente>, a: string, b: string) {
    |DuCamp(ws, a)| > |DuCamp(ws, b)| || (|DuCamp(ws, a)| == |DuCamp(ws, b)| && Inf(a, b))
  }

  ghost predicate DeuxPlusForts(ws: seq<Attente>, a: string, b: string) {
    PlusFort(ws, a, b) && forall c :: c != "" && c != a && c != b ==> DuCamp(ws, c) == [] || PlusFort(ws, b, c)
  }

  ghost predicate PremiersAttaquants(ws: seq<Attente>, d: string, a: string, b: string) {
    Inf(a, b) && forall c :: Attaquant(ws, d, c) && c != a && c != b ==> Inf(b, c)
  }

  method Grouper(players: seq<Attente>) returns (parCamp: map<string, seq<Attente>>)
    ensures Groupes(parCamp, players)
  {
    parCamp := map[];
    for i := 0 to |players|
      invariant Groupes(parCamp, players[..i])
    {
      var w := players[i];
      assert players[..i + 1][..i] == players[..i];
      if w.camp != "" {
        parCamp := parCamp[w.camp := (if w.camp in parCamp then parCamp[w.camp] else []) + [w]];
      }
    }
    assert players[..|players|] == players;
  }

  /** Seats one more team, of identities not seated yet. */
  method Asseoir(r: Repartition, equipe: seq<Attente>, slot: string) returns (r': Repartition)
    requires r.creneau.Keys == IdsDe(r.choisis) && IdsDe(r.choisis) !! IdsDe(equipe)
    ensures r'.choisis == r.choisis + equipe && r'.creneau.Keys == IdsDe(r'.choisis)
    ensures Place(r', equipe, slot)
    ensures forall id :: id in r.creneau ==> r'.creneau[id] == r.creneau[id]
  {
    r' := r;
    for i := 0 to |equipe|
      invariant r'.choisis == r.choisis + equipe[..i] && r'.creneau.Keys == IdsDe(r'.choisis)
      invariant Place(r', equipe[..i], slot)
      invariant forall id :: id in r.creneau ==> id in r'.creneau && r'.creneau[id] == r.creneau[id]
    {
      var w := equipe[i];
      assert equipe[..i + 1] == equipe[..i] + [w];
      assert w.id in IdsDe(equipe);
      IdsAjout(r'.choisis, w);
      r' := Repartition(r'.choisis + [w], r'.creneau[w.id := slot]);
    }
    assert equipe[..|equipe|] == equipe;
  }

  lemma IdsAjout(ws: seq<Attente>, w: Attente)
    ensures IdsDe(ws + [w]) == IdsDe(ws) + {w.id}
  {
  }

  /** Teams of different camps have no identity in common. */
  lemma EquipesDisjointes(ws: seq<Attente>, a: string, e1: seq<Attente>, b: string, e2: seq<Attente>)
    requires IdsDistincts(ws) && a != b && e1 <= DuCamp(ws, a) && e2 <= DuCamp(ws, b)
    ensures IdsDe(e1) !! IdsDe(e2)
  {
  }

  lemma FirstTwoAttackers(ws: seq<Attente>, d: string, attaquants: seq<string>)
    requires Trie(attaquants, Inf) && (forall c :: c in attaquants <==> Attaquant(ws, d, c))
    ensures DeuxAttaquants(ws, d) <==> |attaquants| >= 2
    ensures |attaquants| >= 2 ==>
              var a, b := attaquants[0], attaquants[1];
              Attaquant(ws, d, a) && Attaquant(ws, d, b) && a != b && PremiersAttaquants(ws, d, a, b)
  {
    if |attaquants| >= 2 {
      assert attaquants[0] in attaquants && attaquants[1] in attaquants;
    }
    if DeuxAttaquants(ws, d) {
      var a, b :| Attaquant(ws, d, a) && Attaquant(ws, d, b) && a != b;
      assert a in attaquants && b in attaquants;
    }
  }

  method RepartirTricolore(players: seq<Attente>, parCamp: map<string, seq<Attente>>, defenseur: string)
    returns (r: Option<Repartition>)
    requires IdsDistincts(players) && Groupes(parCamp, players)
    ensures r.Some? <==> defenseur != "" && |DuCamp(players, defenseur)| >= 4 && DeuxAttaquants(players, defenseur)
    ensures r.Some? ==>
              exists a, b :: Tricolore(players, defenseur, r.value, a, b) && PremiersAttaquants(players, defenseur, a, b)
  {
    if defenseur == "" || defenseur !in parCamp || |parCamp[defenseur]| < 4 {
      return None;
    }
    var attaquants := Trier(set camp | camp in parCamp && camp != defenseur && |parCamp[camp]| >= 2);
    FirstTwoAttackers(players, defenseur, attaquants);
    if |attaquants| < 2 {
      return None;
    }
    var a, b := attaquants[0], attaquants[1];
    var trois := FormerTricolore(players, parCamp, defenseur, a, b);
    return Some(trois);
  }

  /** Fills the slots of a tricolour match. */
  method FormerTricolore(ghost ws: seq<Attente>, parCamp: map<string, seq<Attente>>, d: string, a: string, b: string)
    returns (r: Repartition)
    requires IdsDistincts(ws) && d in parCamp && a in parCamp && b in parCamp
    requires parCamp[d] == DuCamp(ws, d) && parCamp[a] == DuCamp(ws, a) && parCamp[b] == DuCamp(ws, b)
    requires d != "" && |DuCamp(ws, d)| >= 4 && Attaquant(ws, d, a) && Attaquant(ws, d, b) && a != b
    ensures Tricolore(ws, d, r, a, b)
  {
    var e1, e2, e3 := parCamp[d][..4], parCamp[a][..2], parCamp[b][..2];
    EquipesDisjointes(ws, d, e1, a, e2);
    EquipesDisjointes(ws, d, e1, b, e3);
    EquipesDisjointes(ws, a, e2, b, e3);
    var r1 := Asseoir(Repartition([], map[]), e1, "team1");
    var r2 := Asseoir(r1, e2, "team2");
    assert r2.choisis == e1 + e2;
    r := Asseoir(r2, e3, "team3");
  }

  /** Fills the slots of a match between two camps. */
  method FormerAffrontement(ghost ws: seq<Attente>, n: nat, parCamp: map<string, seq<Attente>>, a: string, b: string)
    returns (r: Repartition)
    requires IdsDistincts(ws) && a in parCamp && b in parCamp && a != b && a != "" && b != ""
    requires parCamp[a] == DuCamp(ws, a) && parCamp[b] == DuCamp(ws, b)
    requires |parCamp[a]| >= n && |parCamp[b]| >= n
    ensures Affrontement(ws, n, r, a, b)
  {
    var e1, e2 := parCamp[a][..n], parCamp[b][..n];
    EquipesDisjointes(ws, a, e1, b, e2);
    var r1 := Asseoir(Repartition([], map[]), e1, "team1");
    r := Asseoir(r1, e2, "team2");
  }

  /** Best represented camp first, by name at equal size. */
  function ParEffectif(parCamp: map<string, seq<Attente>>): Ordre {
    (a: string, b: string) =>
      var na := if a in parCamp then |parCamp[a]| else 0;
      var nb := if b in parCamp then |parCamp[b]| else 0;
      na > nb || (na == nb && Inf(a, b))
  }

  lemma ParEffectifTotal(parCamp: map<string, seq<Attente>>)
    ensures OrdreTotal(ParEffectif(parCamp))
  {
    InfOrdreTotal();
  }

  /** The two best represented camps can each field n as soon as any two camps can. */
  lemma TwoBestSuffice(ws: seq<Attente>, parCamp: map<string, seq<Attente>>, camps: seq<string>, n: nat)
    requires Groupes(parCamp, ws) && n >= 1
    requires Trie(camps, ParEffectif(parCamp)) && (forall c :: c in camps <==> c in parCamp)
    ensures DeuxCamps(ws, n) <==> |camps| >= 2 && |DuCamp(ws, camps[0])| >= n && |DuCamp(ws, camps[1])| >= n
    ensures |camps| >= 2 ==> DeuxPlusForts(ws, camps[0], camps[1])
  {
    if |camps| >= 2 {
      assert camps[0] in camps && camps[1] in camps && ParEffectif(parCamp)(camps[0], camps[1]);
      forall c | c != "" && c != camps[0] && c != camps[1]
        ensures DuCamp(ws, c) == [] || PlusFort(ws, camps[1], c)
      {
        if c in camps {
          var k :| 0 <= k < |camps| && camps[k] == c;
          assert ParEffectif(parCamp)(camps[1], camps[k]);
        }
      }
    }
    if DeuxCamps(ws, n) {
      var a, b :| a != b && a != "" && b != "" && |DuCamp(ws, a)| >= n && |DuCamp(ws, b)| >= n;
      assert a in camps && b in camps;
      var i :| 0 <= i < |camps| && camps[i] == a;
      var j :| 0 <= j < |camps| && camps[j] == b;
    }
  }

  /**
   Sound and complete: with mixing off, an ordinary festival queue is split exactly when two different
   camps can each field half the threshold; a tricolour one exactly when the defenders and two attackers can.
   */
  method RepartirParCamp(players: seq<Attente>, seuil: nat, cfg: string, fete: Fete) returns (r: Option<Repartition>)
    requires IdsDistincts(players)
    ensures r.Some? <==> seuil >= 2 && !fete.melange &&
                         if EstTricolore(cfg, fete) then
                           fete.defenseur != "" && |DuCamp(players, fete.defenseur)| >= 4 && DeuxAttaquants(players, fete.defenseur)
                         else DeuxCamps(players, seuil / 2)
    ensures r.Some? && EstTricolore(cfg, fete) ==>
              exists a, b :: Tricolore(players, fete.defenseur, r.value, a, b) && PremiersAttaquants(players, fete.defenseur, a, b)
    ensures r.Some? && !EstTricolore(cfg, fete) ==>
              exists a, b :: Affrontement(players, seuil / 2, r.value, a, b) && DeuxPlusForts(players, a, b)
  {
    if seuil < 2 || fete.melange {
      return None;
    }
    var parCamp := Grouper(players);
    if EstTricolore(cfg, fete) {
      r := RepartirTricolore(players, parCamp, fete.defenseur);
      return;
    }
    ParEffectifTotal(parCamp);
    var camps := TrierPar(parCamp.Keys, ParEffectif(parCamp));
    TwoBestSuffice(players, parCamp, camps, seuil / 2);
    if |parCamp| < 2 {
      return None;
    }
    var a, b := camps[0], camps[1];
    assert a in camps && b in camps;
    var parEquipe := seuil / 2;
    if |parCamp[a]| < parEquipe || |parCamp[b]| < parEquipe {
      return None;
    }
    var deux := FormerAffrontement(players, parEquipe, parCamp, a, b);
    return Some(deux);
  }

  /** Whichever way it is split, nobody is picked twice and everybody picked was waiting. */
  lemma AffrontementDistinct(ws: seq<Attente>, n: nat, r: Repartition, a: string, b: string)
    requires IdsDistincts(ws) && Affrontement(ws, n, r, a, b)
    ensures IdsDistincts(r.choisis) && |r.choisis| == 2 * n && forall w :: w in r.choisis ==> w in ws
  {
    DuCampDistinct(ws, a);
    DuCampDistinct(ws, b);
    var e1, e2 := DuCamp(ws, a)[..n], DuCamp(ws, b)[..n];
    forall v: Attente, w: Attente | v in e1 && w in e2
      ensures v.id != w.id
    {
    }
    ConcatDistinct(e1, e2);
  }

  lemma ConcatDistinct(e1: seq<Attente>, e2: seq<Attente>)
    requires IdsDistincts(e1) && IdsDistincts(e2)
    requires forall v, w :: v in e1 && w in e2 ==> v.id != w.id
    ensures IdsDistincts(e1 + e2)
  {
  }

  /** Teams of two different camps, put together. */
  lemma TwoTeamsDistinct(ws: seq<Attente>, a: string, e1: seq<Attente>, b: string, e2: seq<Attente>)
    requires IdsDistincts(ws) && a != b && e1 <= DuCamp(ws, a) && e2 <= DuCamp(ws, b)
    ensures IdsDistincts(e1) && IdsDistincts(e2) && forall v, w :: v in e1 && w in e2 ==> v.id != w.id
    ensures forall v :: v in e1 || v in e2 ==> v in ws
  {
    DuCampDistinct(ws, a);
    DuCampDistinct(ws, b);
    forall v: Attente, w: Attente | v in e1 && w in e2
      ensures v.id != w.id
    {
    }
  }

  lemma TricoloreDistinct(ws: seq<Attente>, d: string, r: Repartition, a: string, b: string)
    requires IdsDistincts(ws) && Tricolore(ws, d, r, a, b)
    ensures IdsDistincts(r.choisis) && |r.choisis| == 8 && forall w :: w in r.choisis ==> w in ws
  {
    var e1, e2, e3 := DuCamp(ws, d)[..4], DuCamp(ws, a)[..2], DuCamp(ws, b)[..2];
    TwoTeamsDistinct(ws, d, e1, a, e2);
    TwoTeamsDistinct(ws, d, e1, b, e3);
    TwoTeamsDistinct(ws, a, e2, b, e3);
    ThreeTeamsDistinct(e1, e2, e3);
  }

  lemma ThreeTeamsDistinct(e1: seq<Attente>, e2: seq<Attente>, e3: seq<Attente>)
    requires IdsDistincts(e1) && IdsDistincts(e2) && IdsDistincts(e3)
    requires forall v, w :: v in e1 && w in e2 ==> v.id != w.id
    requires forall v, w :: v in e1 && w in e3 ==> v.id != w.id
    requires forall v, w :: v in e2 && w in e3 ==> v.id != w.id
    ensures IdsDistincts(e1 + e2 + e3)
  {
  }
}
