/**
 What the sessions of a run of the matchmaking queue are made of (matchmaking.go): who is taken and who is left, and
 a mode whose announced count is not its roster.
 */
module MatchRuns {
  import opened Texte
  import opened CampSplit
  import opened MatchConfig
  import opened MatchQueue

  /** v comes before w in the list. */
  ghost predicate Avant(ws: seq<Attente>, v: Attente, w: Attente) {
    exists a, b :: 0 <= a < b < |ws| && ws[a] == v && ws[b] == w
  }

  lemma {:induction false} FilterKeepsOrder(ws: seq<Attente>, sortis: set<nat>, i: nat, j: nat)
    requires i < j < |Restants(ws, sortis)|
    ensures Avant(ws, Restants(ws, sortis)[i], Restants(ws, sortis)[j])
  {
    var n := |ws| - 1;
    var r := Restants(ws[..n], sortis);
    if j < |r| {
      FilterKeepsOrder(ws[..n], sortis, i, j);
      var a, b :| 0 <= a < b < n && ws[..n][a] == r[i] && ws[..n][b] == r[j];
      assert ws[a] == r[i] && ws[b] == r[j];
    } else {
      RestantsMembres(ws[..n], sortis);
      assert r[i] in r;
      var a :| 0 <= a < n && ws[..n][a] == r[i];
      assert ws[a] == r[i] && ws[n] == Restants(ws, sortis)[j];
    }
  }

  /** The queue as a forming step sees it, and everyone enqueued by then. */
  ghost function FileVue(f: File, pas: Pas): seq<Attente> {
    if pas.Rejoindre? then f.waiting + [pas.w] else f.waiting
  }

  ghost function Arrives(f: File, pas: Pas): seq<Attente> {
    if pas.Rejoindre? then f.inscrits + [pas.w] else f.inscrits
  }

  lemma OnlyFormingStepsForm(f: File, f': File, pas: Pas, g: Reglages)
    requires Suivant(f, f', pas, g) && f'.sessions != f.sessions
    ensures pas.Rejoindre? || pas.Reviser?
  {
  }

  lemma FormedFrom(f: File, f': File, pas: Pas, g: Reglages, s: Session)
    requires Inv(f) && Suivant(f, f', pas, g) && (pas.Rejoindre? || pas.Reviser?) && f'.sessions == f.sessions + [s]
    ensures Compose(FileVue(f, pas), s.base, g, s) && f'.inscrits == Arrives(f, pas)
  {
    var cfg := if pas.Rejoindre? then ModeDe(pas.w, g) else pas.cfg;
    var f0 := if pas.Rejoindre? then f.(waiting := f.waiting + [pas.w], inscrits := f.inscrits + [pas.w]) else f;
    FormeFrame(f0, f', cfg, g);
    assert f'.sessions != f0.sessions;
    var t :| Compose(f0.waiting, cfg, g, t) && f'.sessions == f0.sessions + [t];
    assert t == f'.sessions[|f.sessions|] == s;
    DistinctsQueue(f, pas);
    RosterOf(f0.waiting, cfg, g, s);
  }

  lemma DistinctsQueue(f: File, pas: Pas)
    requires Inv(f) && (pas.Rejoindre? ==> pas.w.id !in IdsDe(f.inscrits))
    ensures FileVue(f, pas) == Restants(Arrives(f, pas), f.issues.Keys) && IdsDistincts(FileVue(f, pas))
  {
    if pas.Rejoindre? {
      RestantsAjout(f.inscrits, pas.w, f.issues.Keys);
      assert IdsDistincts(f.inscrits + [pas.w]);
    }
    RestantsDistincts(Arrives(f, pas), f.issues.Keys);
  }

  /** The account is in the session, or the waiter was enqueued after everyone in it. */
  ghost predicate PrisOuVenuApres(s: Session, w: Attente, inscrits: seq<Attente>) {
    || w in s.joueurs
    || (exists v :: v in s.joueurs && v.uid == w.uid != "")
    || (forall v :: v in s.joueurs ==> Avant(inscrits, v, w))
  }

  lemma LeftOutCameLater(ws: seq<Attente>, inscrits: seq<Attente>, sortis: set<nat>, g: Reglages, s: Session, k: nat)
    requires ws == Restants(inscrits, sortis) && k < |ws| && ModeDe(ws[k], g) == s.base
    requires Seuil(s.base, g) <= |Distincts(ws, s.base, g)| && s.joueurs == Distincts(ws, s.base, g)[..Seuil(s.base, g)]
    ensures PrisOuVenuApres(s, ws[k], inscrits)
  {
    EarliestArrivals(ws, s.base, g, Seuil(s.base, g), k);
    forall v | v in s.joueurs && v in ws[..k]
      ensures Avant(inscrits, v, ws[k])
    {
      var a :| 0 <= a < k && ws[..k][a] == v;
      FilterKeepsOrder(inscrits, sortis, a, k);
    }
  }

  lemma FormingTakesTheEarliest(f: File, f': File, pas: Pas, g: Reglages, s: Session, w: Attente)
    requires Inv(f) && Suivant(f, f', pas, g) && f'.sessions == f.sessions + [s] && !g.festival(s.base)
    requires w in FileVue(f, pas) && ModeDe(w, g) == s.base
    ensures |s.joueurs| == Seuil(s.base, g) && PrisOuVenuApres(s, w, f'.inscrits)
  {
    OnlyFormingStepsForm(f, f', pas, g);
    FormedFrom(f, f', pas, g, s);
    DistinctsQueue(f, pas);
    var k :| 0 <= k < |FileVue(f, pas)| && FileVue(f, pas)[k] == w;
    LeftOutCameLater(FileVue(f, pas), Arrives(f, pas), f.issues.Keys, g, s, k);
  }

  /**
   In every run, a session of an ordinary mode takes exactly a room of players, and the earliest: anybody of the mode
   in the queue then has its account in the session, or was enqueued after everyone in it.
   */
  lemma SessionsTakeTheEarliest(fs: seq<File>, run: seq<Pas>, g: Reglages, i: nat, s: Session, w: Attente)
    requires Execution(fs, run, g) && i < |run| && fs[i + 1].sessions == fs[i].sessions + [s] && !g.festival(s.base)
    requires w in FileVue(fs[i], run[i]) && ModeDe(w, g) == s.base
    ensures |s.joueurs| == Seuil(s.base, g) && PrisOuVenuApres(s, w, fs[i + 1].inscrits)
  {
    RunKeepsInv(fs, run, g, i);
    assert Franchi(fs, run, g, i);
    FormingTakesTheEarliest(fs[i], fs[i + 1], run[i], g, s, w);
  }

  // ---- a roster of eight announced as ten ----

  lemma {:induction false} DuCampConcat(a: seq<Attente>, b: seq<Attente>, c: string)
    ensures DuCamp(a + b, c) == DuCamp(a, c) + DuCamp(b, c)
  {
    if b == [] {
      assert a + b == a && DuCamp(a, c) + [] == DuCamp(a, c);
    } else {
      var n := |b| - 1;
      assert (a + b)[..|a + b| - 1] == a + b[..n];
      DuCampConcat(a, b[..n], c);
    }
  }

  lemma {:induction false} OneCamp(ws: seq<Attente>, c: string)
    requires forall i :: 0 <= i < |ws| ==> ws[i].camp == c
    ensures DuCamp(ws, c) == ws
  {
    if ws != [] {
      OneCamp(ws[..|ws| - 1], c);
      assert ws == ws[..|ws| - 1] + [ws[|ws| - 1]];
    }
  }

  lemma {:induction false} OtherCamp(ws: seq<Attente>, c: string)
    requires forall i :: 0 <= i < |ws| ==> ws[i].camp != c
    ensures DuCamp(ws, c) == []
  {
    if ws != [] {
      OtherCamp(ws[..|ws| - 1], c);
    }
  }

  lemma {:induction false} AllDistinct(ws: seq<Attente>, cfg: string, g: Reglages)
    requires JoueursDistincts(ws) && forall i :: 0 <= i < |ws| ==> ModeDe(ws[i], g) == cfg
    ensures Distincts(ws, cfg, g) == ws
  {
    if ws != [] {
      var n := |ws| - 1;
      AllDistinct(ws[..n], cfg, g);
      assert ws == ws[..n] + [ws[n]];
      forall v | v in ws[..n]
        ensures ws[n].uid == "" || v.uid != ws[n].uid
      {
        var k :| 0 <= k < n && ws[..n][k] == v;
      }
    }
  }

  /** The n-th player: four of the first camp, two of the second, two of the third, then the first again. */
  function Joueur(n: nat, chemin: string, camps: (string, string, string)): Attente {
    Attente(n, seq(n + 1, _ => 'u'), seq(n + 1, _ => 't'), chemin,
            if n < 4 then camps.0 else if n < 6 then camps.1 else if n < 8 then camps.2 else camps.0)
  }

  function Joueurs(n: nat, chemin: string, camps: (string, string, string)): (ws: seq<Attente>)
    ensures |ws| == n && forall i :: 0 <= i < n ==> ws[i] == Joueur(i, chemin, camps)
  {
    seq(n, i requires 0 <= i < n => Joueur(i, chemin, camps))
  }

  lemma FourGroups(p: seq<Attente>, q: seq<Attente>, r: seq<Attente>, s: seq<Attente>, c: string)
    ensures DuCamp(p + q + r + s, c) == DuCamp(p, c) + DuCamp(q, c) + DuCamp(r, c) + DuCamp(s, c)
  {
    DuCampConcat(p, q, c);
    DuCampConcat(p + q, r, c);
    DuCampConcat(p + q + r, s, c);
  }

  lemma GroupOf(ws: seq<Attente>, lo: nat, hi: nat, camp: string, c: string)
    requires lo <= hi <= |ws| && forall i :: lo <= i < hi ==> ws[i].camp == camp
    ensures |DuCamp(ws[lo..hi], c)| == if c == camp then hi - lo else 0
  {
    if c == camp {
      OneCamp(ws[lo..hi], c);
    } else {
      OtherCamp(ws[lo..hi], c);
    }
  }

  lemma FourSlices(ws: seq<Attente>, i: nat, j: nat, k: nat)
    requires i <= j <= k <= |ws|
    ensures ws[0..i] + ws[i..j] + ws[j..k] + ws[k..|ws|] == ws
  {
  }

  lemma TenPlayers(chemin: string, camps: (string, string, string), c: string)
    requires camps.0 != camps.1 && camps.1 != camps.2 && camps.0 != camps.2
    ensures |DuCamp(Joueurs(10, chemin, camps), c)| == if c == camps.0 then 6 else if c == camps.1 || c == camps.2 then 2 else 0
  {
    GroupsOfPlayers(Joueurs(10, chemin, camps), 4, 6, 8, camps, c);
  }

  lemma GroupsOfPlayers(ws: seq<Attente>, i: nat, j: nat, k: nat, camps: (string, string, string), c: string)
    requires i <= j <= k <= |ws| && camps.0 != camps.1 && camps.1 != camps.2 && camps.0 != camps.2
    requires forall l :: 0 <= l < |ws| ==> ws[l].camp == if l < i then camps.0 else if l < j then camps.1 else if l < k then camps.2 else camps.0
    ensures |DuCamp(ws, c)| == if c == camps.0 then i + (|ws| - k) else if c == camps.1 then j - i else if c == camps.2 then k - j else 0
  {
    GroupOf(ws, 0, i, camps.0, c);
    GroupOf(ws, i, j, camps.1, c);
    GroupOf(ws, j, k, camps.2, c);
    GroupOf(ws, k, |ws|, camps.0, c);
    FourGroups(ws[0..i], ws[i..j], ws[j..k], ws[k..|ws|], c);
    FourSlices(ws, i, j, k);
  }

  lemma PlayersAreDistinct(n: nat, chemin: string, camps: (string, string, string))
    ensures JoueursDistincts(Joueurs(n, chemin, camps)) && IdsDistincts(Joueurs(n, chemin, camps))
  {
    var ws := Joueurs(n, chemin, camps);
    forall i, j | 0 <= i < j < n
      ensures ws[i].uid != ws[j].uid
    {
      assert |ws[i].uid| == i + 1 && |ws[j].uid| == j + 1;
    }
  }

  /** Teams seated by identity. */
  ghost function Assis(d4: seq<Attente>, a2: seq<Attente>, b2: seq<Attente>): Repartition {
    Repartition(d4 + a2 + b2,
                map id | id in IdsDe(d4 + a2 + b2) :: if id in IdsDe(d4) then "team1" else if id in IdsDe(a2) then "team2" else "team3")
  }

  lemma SeatedByIdentity(d4: seq<Attente>, a2: seq<Attente>, b2: seq<Attente>)
    requires IdsDe(d4) !! IdsDe(a2) && IdsDe(d4) !! IdsDe(b2) && IdsDe(a2) !! IdsDe(b2)
    ensures var r := Assis(d4, a2, b2);
            Place(r, d4, "team1") && Place(r, a2, "team2") && Place(r, b2, "team3")
  {
    IdsConcat(d4 + a2, b2);
    IdsConcat(d4, a2);
    forall w | w in d4
      ensures w.id in IdsDe(d4)
    {
    }
    forall w | w in a2
      ensures w.id in IdsDe(a2)
    {
    }
    forall w | w in b2
      ensures w.id in IdsDe(b2)
    {
    }
  }

  lemma IdsConcat(p: seq<Attente>, q: seq<Attente>)
    ensures IdsDe(p + q) == IdsDe(p) + IdsDe(q)
  {
  }

  lemma TricoloreCanBeSeated(ws: seq<Attente>, d: string, a: string, b: string)
    requires IdsDistincts(ws) && d != "" && |DuCamp(ws, d)| >= 4 && Attaquant(ws, d, a) && Attaquant(ws, d, b) && a != b
    ensures Tricolore(ws, d, Assis(DuCamp(ws, d)[..4], DuCamp(ws, a)[..2], DuCamp(ws, b)[..2]), a, b)
  {
    var d4, a2, b2 := DuCamp(ws, d)[..4], DuCamp(ws, a)[..2], DuCamp(ws, b)[..2];
    EquipesDisjointes(ws, d, d4, a, a2);
    EquipesDisjointes(ws, d, d4, b, b2);
    EquipesDisjointes(ws, a, a2, b, b2);
    SeatedByIdentity(d4, a2, b2);
  }

  /** A mode that is a festival's, is tricolour, and whose room is for ten. */
  ghost predicate TricoloreDeDix(chemin: string, cfg: string, g: Reglages) {
    && g.mode(chemin) == cfg && g.resolue(chemin) && g.festival(cfg) && g.tricolore(cfg)
    && g.capacite(cfg, g.repli) == 10 && g.capacite(chemin, 8) == 10 && !g.fete.melange
  }

  ghost function SessionDeHuit(chemin: string, cfg: string, camps: (string, string, string)): Session {
    var ws := Joueurs(10, chemin, camps);
    var r := Assis(Debut(DuCamp(ws, camps.0), 4), Debut(DuCamp(ws, camps.1), 2), Debut(DuCamp(ws, camps.2), 2));
    Session(cfg, r.choisis, 10, r.creneau)
  }

  function Debut(ws: seq<Attente>, n: nat): seq<Attente> {
    if n <= |ws| then ws[..n] else ws
  }

  /** Three camps as the example seats them. */
  ghost predicate TroisCamps(camps: (string, string, string)) {
    && camps.0 != "" && camps.1 != "" && camps.2 != ""
    && camps.0 != camps.1 && camps.1 != camps.2 && camps.0 != camps.2 && Inf(camps.1, camps.2)
  }

  lemma CampsOfTen(chemin: string, camps: (string, string, string))
    requires TroisCamps(camps)
    ensures var ws := Joueurs(10, chemin, camps);
            && |DuCamp(ws, camps.0)| == 6 && |DuCamp(ws, camps.1)| == 2 && |DuCamp(ws, camps.2)| == 2
            && Attaquant(ws, camps.0, camps.1) && Attaquant(ws, camps.0, camps.2)
            && PremiersAttaquants(ws, camps.0, camps.1, camps.2)
  {
    forall c
      ensures |DuCamp(Joueurs(10, chemin, camps), c)| ==
              if c == camps.0 then 6 else if c == camps.1 || c == camps.2 then 2 else 0
    {
      TenPlayers(chemin, camps, c);
    }
  }

  lemma EightAreSplit(chemin: string, cfg: string, camps: (string, string, string), g: Reglages)
    requires TricoloreDeDix(chemin, cfg, g) && g.fete.defenseur == camps.0 && TroisCamps(camps)
    ensures var ws, s := Joueurs(10, chemin, camps), SessionDeHuit(chemin, cfg, camps);
            && ScissionPossible(ws, cfg, g) && Scission(ws, cfg, g, Repartition(s.joueurs, s.creneau)) && |s.joueurs| == 8
            && s.joueurs[0] in ws
  {
    var ws := Joueurs(10, chemin, camps);
    PlayersAreDistinct(10, chemin, camps);
    CampsOfTen(chemin, camps);
    TricoloreCanBeSeated(ws, camps.0, camps.1, camps.2);
    DuCampMembers(ws, camps.0);
    var s := SessionDeHuit(chemin, cfg, camps);
    assert Tricolore(ws, camps.0, Repartition(s.joueurs, s.creneau), camps.1, camps.2);
  }

  lemma TenFormEight(chemin: string, cfg: string, camps: (string, string, string), g: Reglages)
    requires TricoloreDeDix(chemin, cfg, g) && g.fete.defenseur == camps.0 && TroisCamps(camps)
    ensures Compose(Joueurs(10, chemin, camps), cfg, g, SessionDeHuit(chemin, cfg, camps))
    ensures |SessionDeHuit(chemin, cfg, camps).joueurs| == 8
  {
    var ws, s := Joueurs(10, chemin, camps), SessionDeHuit(chemin, cfg, camps);
    PlayersAreDistinct(10, chemin, camps);
    AllDistinct(ws, cfg, g);
    EightAreSplit(chemin, cfg, camps, g);
    var r := Repartition(s.joueurs, s.creneau);
    assert Scission(ws, cfg, g, r) && s.joueurs == MatchQueue.Coupe(r.choisis, Seuil(cfg, g)) && s.creneau == r.creneau;
  }

  lemma DuCampMembers(ws: seq<Attente>, c: string)
    ensures forall i :: 0 <= i < |DuCamp(ws, c)| ==> DuCamp(ws, c)[i] in ws
  {
  }

  // ---- the run ----

  /** The queue once the first n players have joined and none could be served. */
  ghost function EnAttente(n: nat, chemin: string, camps: (string, string, string)): File {
    VIDE.(waiting := Joueurs(n, chemin, camps), inscrits := Joueurs(n, chemin, camps))
  }

  lemma OneMoreWaits(n: nat, chemin: string, cfg: string, camps: (string, string, string), g: Reglages)
    requires n < 9 && TricoloreDeDix(chemin, cfg, g)
    ensures Suivant(EnAttente(n, chemin, camps), EnAttente(n + 1, chemin, camps), Rejoindre(Joueur(n, chemin, camps)), g)
  {
    var ws := Joueurs(n + 1, chemin, camps);
    assert ws == Joueurs(n, chemin, camps) + [Joueur(n, chemin, camps)];
    PlayersAreDistinct(n + 1, chemin, camps);
    AllDistinct(ws, cfg, g);
    NewIdentity(n, chemin, camps);
  }

  lemma NewIdentity(n: nat, chemin: string, camps: (string, string, string))
    ensures Joueur(n, chemin, camps).id !in IdsDe(Joueurs(n, chemin, camps))
  {
  }

  lemma TenthJoins(chemin: string, cfg: string, camps: (string, string, string), g: Reglages, s: Session)
    requires TricoloreDeDix(chemin, cfg, g) && Compose(Joueurs(10, chemin, camps), cfg, g, s)
    ensures Suivant(EnAttente(9, chemin, camps), Sert(EnAttente(10, chemin, camps), s), Rejoindre(Joueur(9, chemin, camps)), g)
  {
    assert Joueurs(10, chemin, camps) == Joueurs(9, chemin, camps) + [Joueur(9, chemin, camps)];
    NewIdentity(9, chemin, camps);
  }

  /** The queue after n of ten steps; the tenth forms the session. */
  ghost function Etape(n: nat, chemin: string, camps: (string, string, string), s: Session): File {
    if n < 10 then EnAttente(n, chemin, camps) else Sert(EnAttente(10, chemin, camps), s)
  }

  lemma StepOf(n: nat, chemin: string, cfg: string, camps: (string, string, string), g: Reglages, s: Session)
    requires n < 10 && TricoloreDeDix(chemin, cfg, g) && Compose(Joueurs(10, chemin, camps), cfg, g, s)
    ensures Suivant(Etape(n, chemin, camps, s), Etape(n + 1, chemin, camps, s), Rejoindre(Joueur(n, chemin, camps)), g)
  {
    if n < 9 {
      OneMoreWaits(n, chemin, cfg, camps, g);
    } else {
      TenthJoins(chemin, cfg, camps, g, s);
    }
  }

  lemma Beginning(chemin: string, camps: (string, string, string), s: Session)
    ensures Etape(0, chemin, camps, s) == VIDE && Etape(10, chemin, camps, s).sessions == [s]
  {
    assert Joueurs(0, chemin, camps) == [];
  }

  lemma TenJoin(chemin: string, cfg: string, camps: (string, string, string), g: Reglages, s: Session)
    returns (fs: seq<File>, run: seq<Pas>)
    requires TricoloreDeDix(chemin, cfg, g) && Compose(Joueurs(10, chemin, camps), cfg, g, s)
    ensures Execution(fs, run, g) && |run| == 10 && fs[10].sessions == [s]
  {
    var n := 10;
    run := seq(n, i requires 0 <= i < n => Rejoindre(Joueur(i, chemin, camps)));
    fs := seq(n + 1, i requires 0 <= i < n + 1 => Etape(i, chemin, camps, s));
    Beginning(chemin, camps, s);
    forall i | 0 <= i < n
      ensures Franchi(fs, run, g, i)
    {
      StepOf(i, chemin, cfg, camps, g, s);
      assert fs[i] == Etape(i, chemin, camps, s) && fs[i + 1] == Etape(i + 1, chemin, camps, s);
    }
  }

  lemma Holds(s: string, p: string, mot: string, q: string)
    requires s == p + mot + q
    ensures Contient(s, mot)
  {
    ContientIff(s, mot);
    assert s[|p|..] == mot + q;
  }

  lemma PlainName(s: string)
    requires '/' !in s
    ensures DernierSegment(s) == s
  {
  }

  lemma NoPairOfO(s: string)
    requires s == "private_match_fest_tricolor"
    ensures '/' !in s && forall i :: 0 <= i < |s| - 1 ==> s[i] != 'o' || s[i + 1] != 'o'
  {
  }

  lemma Keywords(s: string)
    requires s == "private_match_fest_tricolor"
    ensures Contient(s, "private_match") && Contient(s, "fest") && Contient(s, "tricolor") && !Contient(s, "coop")
  {
    Holds(s, "", "private_match", s[13..]);
    Holds(s, s[..14], "fest", s[18..]);
    Holds(s, s[..19], "tricolor", "");
    NoPairOfO(s);
    SansPaire(s, "coop", 1);
  }

  /** A mode named so is a festival's, is tricolour, and its room is for ten. */
  lemma SuchAMode(base: string, repli: nat, fete: Fete)
    requires base == "private_match_fest_tricolor" && fete.motif == ""
    ensures '/' !in base && EstFileDeFete(base) && EstTricolore(base, fete) && S3RoomCapacity(base, repli) == 10
  {
    NoPairOfO(base);
    PlainName(base);
    Keywords(base);
  }

  /** The exception does occur: ten players of such a mode join, and eight are announced as ten. */
  lemma EightAnnouncedAsTen(base: string, repli: nat, fete: Fete)
    returns (fs: seq<File>, run: seq<Pas>, s: Session)
    requires base == "private_match_fest_tricolor" && fete == Fete(false, "", "Alpha")
    ensures Execution(fs, run, ReglagesDuServeur(repli, fete)) && |run| == 10
    ensures fs[10].sessions == [s] && s.annonces == 10 && |s.joueurs| == 8
  {
    var chemin := PREFIXE + base;
    SuchAMode(base, repli, fete);
    SuchAMode(base, 8, fete);
    PathOf(base);
    CapacityOfPath(chemin, 8);
    s := SessionDeHuit(chemin, base, ("Alpha", "Bravo", "Charlie"));
    TenFormEight(chemin, base, ("Alpha", "Bravo", "Charlie"), ReglagesDuServeur(repli, fete));
    fs, run := TenJoin(chemin, base, ("Alpha", "Bravo", "Charlie"), ReglagesDuServeur(repli, fete), s);
  }

  lemma PathOf(base: string)
    requires '/' !in base
    ensures Resolue(PREFIXE + base) && BaseConfigName(PREFIXE + base) == base
  {
    DernierSegmentDe(PREFIXE, base);
  }

  // ---- how many players each kind of mode takes ----

  /** The keyword stands somewhere in the name of the mode. */
  ghost predicate Porte(base: string, mot: string) {
    exists x, y :: EcritAutour(base, x, mot, y)
  }

  ghost predicate EcritAutour(base: string, x: string, mot: string, y: string) {
    base == x + mot + y
  }

  lemma PorteIff(base: string, mot: string)
    ensures Porte(base, mot) <==> Contient(base, mot)
  {
    ContientIff(base, mot);
    if k :| 0 <= k <= |base| && mot <= base[k..] {
      assert base == base[..k] + mot + base[k + |mot|..];
      assert EcritAutour(base, base[..k], mot, base[k + |mot|..]);
    }
    if x, y :| EcritAutour(base, x, mot, y) {
      Holds(base, x, mot, y);
    }
  }

  /** The modes of two teams of four, by the words that name them. */
  ghost predicate Versus(base: string) {
    && !Porte(base, "coop") && !Porte(base, "private_match")
    && (Porte(base, "regular") || Porte(base, "bankara") || Porte(base, "league") || Porte(base, "x_match") || Porte(base, "fest"))
  }

  /** The room of a mode by its name: four in Salmon Run, ten in private, eight in any versus mode, the setting otherwise. */
  lemma RoomByName(base: string, repli: nat)
    ensures Porte(base, "coop") ==> S3RoomCapacity(base, repli) == 4
    ensures Porte(base, "private_match") && !Porte(base, "coop") ==> S3RoomCapacity(base, repli) == 10
    ensures Versus(base) ==> S3RoomCapacity(base, repli) == 8
    ensures !Porte(base, "coop") && !Porte(base, "private_match") && !Versus(base) ==> S3RoomCapacity(base, repli) == repli
  {
    PorteIff(base, "coop");
    PorteIff(base, "private_match");
    PorteIff(base, "regular");
    PorteIff(base, "bankara");
    PorteIff(base, "league");
    PorteIff(base, "x_match");
    PorteIff(base, "fest");
  }

  /** The festival's queues and the tricolour ones are told by a word of their name, in the last segment. */
  lemma FestivalByName(base: string, fete: Fete)
    requires '/' !in base
    ensures EstFileDeFete(base) <==> Porte(base, "fest")
    ensures EstTricolore(base, fete) <==> Porte(base, if fete.motif != "" then fete.motif else "tricolor")
  {
    DernierSegmentDe("/", base);
    WholeSegment(base);
    PorteIff(base, "fest");
    PorteIff(base, if fete.motif != "" then fete.motif else "tricolor");
  }

  lemma {:induction false} WholeSegment(base: string)
    requires '/' !in base
    ensures DernierSegment(base) == base
    decreases |base|
  {
    if base != "" {
      WholeSegment(base[..|base| - 1]);
    }
  }

  /**
   In every run and whatever the settings, a session of a versus mode has eight players and announces eight, one of
   Salmon Run has four and announces four, and a private one announces ten and, but for a tricolour festival, has ten.
   Any other mode takes the size set for the server, and announces it.
   */
  lemma SizesByName(fs: seq<File>, run: seq<Pas>, repli: nat, fete: Fete, i: nat, s: Session)
    requires Execution(fs, run, ReglagesDuServeur(repli, fete)) && i < |fs| && s in fs[i].sessions
    ensures Versus(s.base) ==> |s.joueurs| == 8 == s.annonces
    ensures Porte(s.base, "coop") && !EstFileDeFete(s.base) ==> |s.joueurs| == 4 == s.annonces
    ensures Porte(s.base, "private_match") && !Porte(s.base, "coop") ==>
              s.annonces == 10 && (|s.joueurs| == 10 || (EstFileDeFete(s.base) && EstTricolore(s.base, fete)))
    ensures !Porte(s.base, "coop") && !Porte(s.base, "private_match") && !Versus(s.base) && !EstFileDeFete(s.base) ==>
              |s.joueurs| == repli == s.annonces
  {
    SizeAndCount(fs, run, repli, fete, i, s);
    RoomByName(s.base, repli);
    RoomByName(s.base, |s.joueurs|);
  }

  lemma SizeAndCount(fs: seq<File>, run: seq<Pas>, repli: nat, fete: Fete, i: nat, s: Session)
    requires Execution(fs, run, ReglagesDuServeur(repli, fete)) && i < |fs| && s in fs[i].sessions
    ensures s.annonces == S3RoomCapacity(s.base, |s.joueurs|)
    ensures var n := S3RoomCapacity(s.base, repli);
            |s.joueurs| == if !EstFileDeFete(s.base) then n else if EstTricolore(s.base, fete) then Min(8, n) else 2 * (n / 2)
  {
    var g := ReglagesDuServeur(repli, fete);
    RunFormsSessions(fs, run, g, i);
    assert s.joueurs[0] in s.joueurs;
    CapacityOfPath(s.joueurs[0].config, |s.joueurs|);
  }

  // ---- when a festival's queue forms ----

  lemma JoiningForms(f: File, f': File, w: Attente, g: Reglages)
    requires Suivant(f, f', Rejoindre(w), g) && PeutFormer(f.waiting + [w], ModeDe(w, g), g)
    ensures exists s :: Compose(f.waiting + [w], ModeDe(w, g), g, s) && f'.sessions == f.sessions + [s]
  {
    var f0 := f.(waiting := f.waiting + [w], inscrits := f.inscrits + [w]);
    FormeFrame(f0, f', ModeDe(w, g), g);
    var s :| Compose(f0.waiting, ModeDe(w, g), g, s) && f' == Sert(f0, s);
    EnvoieTousFrame(f0, s.joueurs, Reussi(s));
    assert f'.sessions == f.sessions + [s];
  }

  /** Half a room from one camp as team1 and half from another as team2. */
  ghost predicate DeuxEquipes(s: Session, d: seq<Attente>, a: string, b: string, n: nat) {
    && a != b && |DuCamp(d, a)| >= n && |DuCamp(d, b)| >= n && s.joueurs == DuCamp(d, a)[..n] + DuCamp(d, b)[..n]
    && (forall v :: v in s.joueurs ==> v.id in s.creneau && s.creneau[v.id] == if v.camp == a then "team1" else "team2")
  }

  /**
   In a festival mode of eight that is not tricolour, with mixing off, the arrival that makes eight players of the mode, four
   of them in each of two camps, forms a session of four against four.
   */
  lemma FourAgainstFourForm(f: File, f': File, w: Attente, g: Reglages, a: string, b: string)
    requires Suivant(f, f', Rejoindre(w), g)
    requires var cfg := ModeDe(w, g); g.festival(cfg) && !g.tricolore(cfg) && Seuil(cfg, g) == 8 && !g.fete.melange
    requires var d := Distincts(f.waiting + [w], ModeDe(w, g), g);
             |d| >= 8 && a != b && a != "" && b != "" && |DuCamp(d, a)| >= 4 && |DuCamp(d, b)| >= 4
    ensures var d := Distincts(f.waiting + [w], ModeDe(w, g), g);
            exists s, x, y :: f'.sessions == f.sessions + [s] && DeuxEquipes(s, d, x, y, 4)
  {
    var cfg := ModeDe(w, g);
    var d := Distincts(f.waiting + [w], cfg, g);
    assert DeuxCamps(d, 4);
    JoiningForms(f, f', w, g);
    var s :| Compose(f.waiting + [w], cfg, g, s) && f'.sessions == f.sessions + [s];
    var r :| Scission(d, cfg, g, r) && s.joueurs == MatchQueue.Coupe(r.choisis, 8) && s.creneau == r.creneau;
    var x, y :| Affrontement(d, 4, r, x, y) && DeuxPlusForts(d, x, y);
    SeatedFourFour(d, r, x, y, s);
  }

  lemma SeatedFourFour(d: seq<Attente>, r: Repartition, x: string, y: string, s: Session)
    requires Affrontement(d, 4, r, x, y) && s.joueurs == MatchQueue.Coupe(r.choisis, 8) && s.creneau == r.creneau
    ensures DeuxEquipes(s, d, x, y, 4)
  {
    var p, q := DuCamp(d, x)[..4], DuCamp(d, y)[..4];
    assert forall v :: v in p ==> v in DuCamp(d, x);
    assert forall v :: v in q ==> v in DuCamp(d, y);
    assert s.joueurs == p + q;
  }

  /** Four of the defending camp as team1, two and two of two other camps as team2 and team3. */
  ghost predicate TroisEquipes(s: Session, d: seq<Attente>, c: string, a: string, b: string) {
    && a != b && a != c && b != c && |DuCamp(d, c)| >= 4 && |DuCamp(d, a)| >= 2 && |DuCamp(d, b)| >= 2
    && s.joueurs == DuCamp(d, c)[..4] + DuCamp(d, a)[..2] + DuCamp(d, b)[..2]
    && forall v :: v in s.joueurs ==>
         v.id in s.creneau && s.creneau[v.id] == if v.camp == c then "team1" else if v.camp == a then "team2" else "team3"
  }

  /** In a tricolour mode of eight the arrival that makes four defenders, and two of each of two other camps, forms them. */
  lemma FourTwoTwoForm(f: File, f': File, w: Attente, g: Reglages, a: string, b: string)
    requires Suivant(f, f', Rejoindre(w), g)
    requires var cfg := ModeDe(w, g); g.festival(cfg) && g.tricolore(cfg) && Seuil(cfg, g) == 8 && !g.fete.melange
    requires g.fete.defenseur != "" && a != b && a != "" && b != "" && a != g.fete.defenseur && b != g.fete.defenseur
    requires var d := Distincts(f.waiting + [w], ModeDe(w, g), g);
             |d| >= 8 && |DuCamp(d, g.fete.defenseur)| >= 4 && |DuCamp(d, a)| >= 2 && |DuCamp(d, b)| >= 2
    ensures var d := Distincts(f.waiting + [w], ModeDe(w, g), g);
            exists s, x, y :: f'.sessions == f.sessions + [s] && TroisEquipes(s, d, g.fete.defenseur, x, y)
  {
    var cfg := ModeDe(w, g);
    var d := Distincts(f.waiting + [w], cfg, g);
    assert Attaquant(d, g.fete.defenseur, a) && Attaquant(d, g.fete.defenseur, b);
    JoiningForms(f, f', w, g);
    var s :| Compose(f.waiting + [w], cfg, g, s) && f'.sessions == f.sessions + [s];
    var r :| Scission(d, cfg, g, r) && s.joueurs == MatchQueue.Coupe(r.choisis, 8) && s.creneau == r.creneau;
    var x, y :| Tricolore(d, g.fete.defenseur, r, x, y) && PremiersAttaquants(d, g.fete.defenseur, x, y);
    SeatedFourTwoTwo(d, r, g.fete.defenseur, x, y, s);
  }

  lemma SeatedFourTwoTwo(d: seq<Attente>, r: Repartition, c: string, x: string, y: string, s: Session)
    requires Tricolore(d, c, r, x, y) && s.joueurs == MatchQueue.Coupe(r.choisis, 8) && s.creneau == r.creneau
    ensures TroisEquipes(s, d, c, x, y)
  {
    var o, p, q := DuCamp(d, c)[..4], DuCamp(d, x)[..2], DuCamp(d, y)[..2];
    assert forall v :: v in o ==> v in DuCamp(d, c);
    assert forall v :: v in p ==> v in DuCamp(d, x);
    assert forall v :: v in q ==> v in DuCamp(d, y);
    assert s.joueurs == o + p + q;
  }

  /** With mixing on, no festival queue ever forms. */
  lemma MixingFormsNothing(f: File, f': File, w: Attente, g: Reglages)
    requires Suivant(f, f', Rejoindre(w), g) && g.festival(ModeDe(w, g)) && g.fete.melange
    ensures f'.sessions == f.sessions && f'.waiting == f.waiting + [w]
  {
  }
}
