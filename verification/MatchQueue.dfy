/**
 The matchmaking queue as a state machine (matchmaking.go): one shared list of waiters, a queue per mode
 inside it, and a one-slot channel per waiter. A step is what happens under one hold of the lock.
 */
module MatchQueue {
  import opened Texte
  import opened CampSplit
  import opened MatchConfig
  import opened Listes

  datatype Session = Session(base: string, joueurs: seq<Attente>, annonces: nat, creneau: map<nat, string>)

  datatype Message = Reussi(session: Session) | Annule

  /** How a waiter left the queue. */
  datatype Issue = Servi | Retire | Abandonne

  datatype File = File(
    waiting: seq<Attente>,
    annules: seq<Attente>,        // cancelled, their CANCELLED ticket not sent yet
    canaux: map<nat, Message>,    // the one-slot channels that hold a message
    inscrits: seq<Attente>,       // every waiter ever enqueued, in order
    issues: map<nat, Issue>,
    envois: multiset<nat>,        // messages put in each channel, ever
    perdus: nat,                  // messages dropped because the slot was taken
    sessions: seq<Session>)

  /** How the server reads configurations, and the settings in force. */
  datatype Reglages = Reglages(
    mode: string -> string,              // baseConfigName
    resolue: string -> bool,             // the path of a created ticket
    capacite: (string, nat) -> nat,      // s3RoomCapacity
    festival: string -> bool,            // estFileDeFete
    tricolore: string -> bool,           // estTricolore
    repli: nat,                          // NPLN_MATCH_SIZE
    fete: Fete)

  /** The server's own reading. The queue laws hold for any. */
  function ReglagesDuServeur(repli: nat, fete: Fete): Reglages {
    Reglages(BaseConfigName, Resolue, S3RoomCapacity, EstFileDeFete, c => EstTricolore(c, fete), repli, fete)
  }

  function ModeDe(w: Attente, g: Reglages): string {
    g.mode(w.config)
  }

  /** At most one waiter per player of this mode, in arrival order; a nameless player is never a duplicate. */
  ghost function Distincts(ws: seq<Attente>, cfg: string, g: Reglages): seq<Attente> {
    if ws == [] then []
    else
      var w := ws[|ws| - 1];
      var d := Distincts(ws[..|ws| - 1], cfg, g);
      if ModeDe(w, g) == cfg && (w.uid == "" || forall v :: v in d ==> v.uid != w.uid) then d + [w] else d
  }

  /** The in-place filter: what stays, in order. */
  ghost function Restants(ws: seq<Attente>, sortis: set<nat>): seq<Attente> {
    if ws == [] then []
    else Restants(ws[..|ws| - 1], sortis) + (if ws[|ws| - 1].id in sortis then [] else [ws[|ws| - 1]])
  }

  function Seuil(cfg: string, g: Reglages): nat {
    g.capacite(cfg, g.repli)
  }

  /** What formMatchLocked keeps of a split: never more than the threshold. */
  function Coupe(ws: seq<Attente>, n: nat): seq<Attente> {
    if |ws| > n then ws[..n] else ws
  }

  ghost predicate ScissionPossible(d: seq<Attente>, cfg: string, g: Reglages) {
    && Seuil(cfg, g) >= 2 && !g.fete.melange
    && if g.tricolore(cfg) then
         g.fete.defenseur != "" && |DuCamp(d, g.fete.defenseur)| >= 4 && DeuxAttaquants(d, g.fete.defenseur)
       else DeuxCamps(d, Seuil(cfg, g) / 2)
  }

  ghost predicate Scission(d: seq<Attente>, cfg: string, g: Reglages, r: Repartition) {
    if g.tricolore(cfg) then
      exists a, b :: Tricolore(d, g.fete.defenseur, r, a, b) && PremiersAttaquants(d, g.fete.defenseur, a, b)
    else exists a, b :: Affrontement(d, Seuil(cfg, g) / 2, r, a, b) && DeuxPlusForts(d, a, b)
  }

  ghost predicate PeutFormer(ws: seq<Attente>, cfg: string, g: Reglages) {
    && |Distincts(ws, cfg, g)| >= Seuil(cfg, g) > 0
    && (g.festival(cfg) ==> ScissionPossible(Distincts(ws, cfg, g), cfg, g))
  }

  /** The session formMatchLocked builds: the whole mode in arrival order, or a festival split of it. */
  ghost predicate Compose(ws: seq<Attente>, cfg: string, g: Reglages, s: Session) {
    && PeutFormer(ws, cfg, g) && s.joueurs != []
    && (if g.festival(cfg) then
          exists r :: Scission(Distincts(ws, cfg, g), cfg, g, r)
                      && s.joueurs == Coupe(r.choisis, Seuil(cfg, g)) && s.creneau == r.creneau
        else s.joueurs == Distincts(ws, cfg, g)[..Seuil(cfg, g)] && s.creneau == map[])
    && s.base == ModeDe(s.joueurs[0], g)
    && s.annonces == g.capacite(s.joueurs[0].config, |s.joueurs|)
  }

  /** A non-blocking send on a one-slot channel. */
  function Envoie(f: File, id: nat, m: Message): File {
    if id in f.canaux then f.(perdus := f.perdus + 1)
    else f.(canaux := f.canaux[id := m], envois := f.envois + multiset{id})
  }

  ghost function EnvoieTous(f: File, ws: seq<Attente>, m: Message): File {
    if ws == [] then f else Envoie(EnvoieTous(f, ws[..|ws| - 1], m), ws[|ws| - 1].id, m)
  }

  ghost function Marque(issues: map<nat, Issue>, ids: set<nat>, i: Issue): map<nat, Issue> {
    issues + (map id | id in ids :: i)
  }

  /** Every player of the session gets its ticket and leaves the queue. */
  ghost function Sert(f: File, s: Session): File {
    EnvoieTous(f, s.joueurs, Reussi(s)).(
      waiting := Restants(f.waiting, IdsDe(s.joueurs)),
      issues := Marque(f.issues, IdsDe(s.joueurs), Servi),
      sessions := f.sessions + [s])
  }

  /** formMatchLocked for one mode. */
  ghost predicate Forme(f: File, f': File, cfg: string, g: Reglages) {
    if PeutFormer(f.waiting, cfg, g) then exists s :: Compose(f.waiting, cfg, g, s) && f' == Sert(f, s)
    else f' == f
  }

  /** The waiters of one ticket: several streams may track the same ticket. */
  ghost function DuTicket(ws: seq<Attente>, ticket: string): seq<Attente> {
    if ws == [] then []
    else DuTicket(ws[..|ws| - 1], ticket) + (if ws[|ws| - 1].ticket == ticket then [ws[|ws| - 1]] else [])
  }

  datatype Pas =
    | Rejoindre(w: Attente)             // TrackMatchmakingTicket enqueues and may form
    | Reviser(cfg: string)              // the periodic recheck of one mode
    | RetirerTicket(ticket: string)     // CancelMatchmakingTicket, under the lock
    | ConclureAnnulation(w: Attente)    // CancelMatchmakingTicket, after the lock
    | Quitter(w: Attente)               // the client's stream is gone
    | Recevoir(id: nat)                 // the stream takes its message

  ghost predicate Suivant(f: File, f': File, pas: Pas, g: Reglages) {
    match pas
    case Rejoindre(w) =>
      && w.id !in IdsDe(f.inscrits) && g.resolue(w.config)
      && Forme(f.(waiting := f.waiting + [w], inscrits := f.inscrits + [w]), f', ModeDe(w, g), g)
    case Reviser(cfg) => Forme(f, f', cfg, g)
    case RetirerTicket(t) =>
      var ids := IdsDe(DuTicket(f.waiting, t));
      f' == f.(waiting := Restants(f.waiting, ids), annules := f.annules + DuTicket(f.waiting, t),
               issues := Marque(f.issues, ids, Retire))
    case ConclureAnnulation(w) =>
      w in f.annules && f' == Envoie(f, w.id, Annule).(annules := Restants(f.annules, {w.id}))
    case Quitter(w) =>
      f' == if w in f.waiting then
              f.(waiting := Restants(f.waiting, {w.id}), issues := f.issues[w.id := Abandonne])
            else f
    case Recevoir(id) => id in f.canaux && f' == f.(canaux := f.canaux - {id})
  }

  const VIDE := File([], [], map[], [], map[], multiset{}, 0, [])

  /** A run from the empty queue, state by state. */
  ghost predicate Execution(fs: seq<File>, run: seq<Pas>, g: Reglages) {
    && |fs| == |run| + 1 && fs[0] == VIDE
    && forall i :: 0 <= i < |run| ==> Franchi(fs, run, g, i)
  }

  ghost predicate Franchi(fs: seq<File>, run: seq<Pas>, g: Reglages, i: nat)
    requires i < |run| && |fs| == |run| + 1
  {
    Suivant(fs[i], fs[i + 1], run[i], g)
  }

  // ---- invariants ----

  /** Conservation and order: the queue is everyone enqueued, in order, less those that left it. */
  ghost predicate Conserve(f: File) {
    && IdsDistincts(f.inscrits) && f.issues.Keys <= IdsDe(f.inscrits)
    && f.waiting == Restants(f.inscrits, f.issues.Keys)
  }

  ghost predicate AnnulesOk(f: File) {
    && IdsDistincts(f.annules)
    && forall id :: id in IdsDe(f.annules) ==> id in f.issues && f.issues[id] == Retire
  }

  /** Who has been sent its one message: the served, and the cancelled whose ticket went out. */
  ghost function Avertis(f: File): set<nat> {
    set id | id in f.issues && (f.issues[id] == Servi || (f.issues[id] == Retire && id !in IdsDe(f.annules)))
  }

  /** One message each, to exactly those, and none was ever dropped. */
  ghost predicate EnvoisOk(f: File) {
    f.envois == multiset(Avertis(f)) && f.canaux.Keys <= Avertis(f) && f.perdus == 0
  }

  ghost predicate Inv(f: File) {
    Conserve(f) && AnnulesOk(f) && EnvoisOk(f)
  }

  ghost predicate TousResolus(ws: seq<Attente>, g: Reglages) {
    forall w :: w in ws ==> g.resolue(w.config)
  }

  /** No mode outside the festivals holds a full room of distinct players. */
  ghost predicate AuRepos(f: File, g: Reglages) {
    forall cfg :: !g.festival(cfg) && Seuil(cfg, g) > 0 ==> |Distincts(f.waiting, cfg, g)| < Seuil(cfg, g)
  }

  /** How many players a session of this mode takes. */
  ghost function Taille(cfg: string, g: Reglages): nat {
    if !g.festival(cfg) then Seuil(cfg, g)
    else if g.tricolore(cfg) then Min(8, Seuil(cfg, g)) else 2 * (Seuil(cfg, g) / 2)
  }

  /** One mode, no player twice, and the announced count asked for the first player's path. */
  ghost predicate SessionFormee(s: Session, g: Reglages) {
    && s.joueurs != [] && (forall w :: w in s.joueurs ==> ModeDe(w, g) == s.base)
    && IdsDistincts(s.joueurs) && JoueursDistincts(s.joueurs)
    && |s.joueurs| == Taille(s.base, g)
    && g.resolue(s.joueurs[0].config) && s.annonces == g.capacite(s.joueurs[0].config, |s.joueurs|)
  }

  /** A tricolour festival match, always of eight, in a mode whose room is for ten. */
  ghost predicate TricolorePrive(cfg: string, g: Reglages) {
    g.festival(cfg) && g.tricolore(cfg) && Seuil(cfg, g) == 10
  }

  // ---- the filters ----

  lemma {:induction false} RestantsMembres(ws: seq<Attente>, sortis: set<nat>)
    ensures forall w :: w in Restants(ws, sortis) <==> w in ws && w.id !in sortis
  {
    if ws != [] {
      RestantsMembres(ws[..|ws| - 1], sortis);
      assert ws == ws[..|ws| - 1] + [ws[|ws| - 1]];
    }
  }

  lemma DernierNouveau(ws: seq<Attente>)
    requires IdsDistincts(ws) && ws != []
    ensures IdsDistincts(ws[..|ws| - 1]) && forall v :: v in ws[..|ws| - 1] ==> v.id != ws[|ws| - 1].id
  {
  }

  lemma {:induction false} RestantsDistincts(ws: seq<Attente>, sortis: set<nat>)
    requires IdsDistincts(ws)
    ensures IdsDistincts(Restants(ws, sortis))
  {
    if ws != [] {
      var avant := ws[..|ws| - 1];
      DernierNouveau(ws);
      RestantsDistincts(avant, sortis);
      RestantsMembres(avant, sortis);
    }
  }

  /** Filtering twice is filtering once. */
  lemma {:induction false} RestantsDeux(ws: seq<Attente>, a: set<nat>, b: set<nat>)
    ensures Restants(Restants(ws, a), b) == Restants(ws, a + b)
  {
    if ws != [] {
      RestantsDeux(ws[..|ws| - 1], a, b);
      var w := ws[|ws| - 1];
      var r := Restants(ws[..|ws| - 1], a);
      assert r + [] == r && (r + [w])[..|r + [w]| - 1] == r;
    }
  }

  lemma {:induction false} NobodyLeaves(ws: seq<Attente>, sortis: set<nat>)
    requires forall i :: 0 <= i < |ws| ==> ws[i].id !in sortis
    ensures Restants(ws, sortis) == ws
  {
    if ws != [] {
      NobodyLeaves(ws[..|ws| - 1], sortis);
    }
  }

  lemma RestantsRien(ws: seq<Attente>, sortis: set<nat>)
    requires IdsDe(ws) !! sortis
    ensures Restants(ws, sortis) == ws
  {
  }

  lemma RestantsAjout(ws: seq<Attente>, w: Attente, sortis: set<nat>)
    ensures Restants(ws + [w], sortis) == Restants(ws, sortis) + (if w.id in sortis then [] else [w])
  {
  }

  // ---- counting distinct players ----

  lemma {:induction false} DistinctsMembres(ws: seq<Attente>, cfg: string, g: Reglages)
    ensures forall w :: w in Distincts(ws, cfg, g) ==> w in ws && ModeDe(w, g) == cfg
  {
    if ws != [] {
      DistinctsMembres(ws[..|ws| - 1], cfg, g);
      assert forall v :: v in ws[..|ws| - 1] ==> v in ws;
    }
  }

  /** No player appears twice in a list. */
  ghost predicate JoueursDistincts(ws: seq<Attente>) {
    forall i, j :: 0 <= i < j < |ws| ==> ws[i].uid == "" || ws[i].uid != ws[j].uid
  }

  lemma {:induction false} DistinctsJoueurs(ws: seq<Attente>, cfg: string, g: Reglages)
    ensures JoueursDistincts(Distincts(ws, cfg, g))
  {
    if ws != [] {
      DistinctsJoueurs(ws[..|ws| - 1], cfg, g);
      var d := Distincts(ws[..|ws| - 1], cfg, g);
      assert forall i :: 0 <= i < |d| ==> d[i] in d;
    }
  }

  lemma {:induction false} DistinctsDistincts(ws: seq<Attente>, cfg: string, g: Reglages)
    requires IdsDistincts(ws)
    ensures IdsDistincts(Distincts(ws, cfg, g))
  {
    if ws != [] {
      var avant := ws[..|ws| - 1];
      DernierNouveau(ws);
      DistinctsDistincts(avant, cfg, g);
      DistinctsMembres(avant, cfg, g);
    }
  }

  /** The named players of a mode, and how many nameless waiters it has. */
  ghost function Noms(ws: seq<Attente>, cfg: string, g: Reglages): set<string> {
    set w | w in ws && ModeDe(w, g) == cfg && w.uid != "" :: w.uid
  }

  ghost function Anonymes(ws: seq<Attente>, cfg: string, g: Reglages): nat {
    if ws == [] then 0
    else Anonymes(ws[..|ws| - 1], cfg, g) + (if ModeDe(ws[|ws| - 1], g) == cfg && ws[|ws| - 1].uid == "" then 1 else 0)
  }

  lemma NomsAjout(ws: seq<Attente>, w: Attente, cfg: string, g: Reglages)
    ensures Noms(ws + [w], cfg, g) == Noms(ws, cfg, g) + (if ModeDe(w, g) == cfg && w.uid != "" then {w.uid} else {})
  {
  }

  lemma {:induction false} DistinctsCount(ws: seq<Attente>, cfg: string, g: Reglages)
    ensures |Distincts(ws, cfg, g)| == |Noms(ws, cfg, g)| + Anonymes(ws, cfg, g)
    ensures forall u :: u in Noms(ws, cfg, g) <==> u != "" && exists v :: v in Distincts(ws, cfg, g) && v.uid == u
  {
    if ws != [] {
      var avant := ws[..|ws| - 1];
      var w := ws[|ws| - 1];
      assert ws == avant + [w];
      DistinctsCount(avant, cfg, g);
      NomsAjout(avant, w, cfg, g);
      var d := Distincts(avant, cfg, g);
      assert forall v :: v in d + [w] <==> v in d || v == w;
      if ModeDe(w, g) == cfg && w.uid != "" {
        if w.uid !in Noms(avant, cfg, g) {
          assert |Noms(avant, cfg, g) + {w.uid}| == |Noms(avant, cfg, g)| + 1;
        } else {
          assert Noms(avant, cfg, g) + {w.uid} == Noms(avant, cfg, g);
        }
      }
    }
  }

  /** Removing waiters never makes a mode fuller, although duplicates may resurface. */
  lemma {:induction false} FewerAfterFilter(ws: seq<Attente>, sortis: set<nat>, cfg: string, g: Reglages)
    ensures |Distincts(Restants(ws, sortis), cfg, g)| <= |Distincts(ws, cfg, g)|
  {
    DistinctsCount(ws, cfg, g);
    DistinctsCount(Restants(ws, sortis), cfg, g);
    RestantsMembres(ws, sortis);
    assert Noms(Restants(ws, sortis), cfg, g) <= Noms(ws, cfg, g);
    SubsetCard(Noms(Restants(ws, sortis), cfg, g), Noms(ws, cfg, g));
    AnonymesFiltre(ws, sortis, cfg, g);
  }

  lemma {:induction false} AnonymesFiltre(ws: seq<Attente>, sortis: set<nat>, cfg: string, g: Reglages)
    ensures Anonymes(Restants(ws, sortis), cfg, g) <= Anonymes(ws, cfg, g)
  {
    if ws != [] {
      AnonymesFiltre(ws[..|ws| - 1], sortis, cfg, g);
      var r := Restants(ws[..|ws| - 1], sortis);
      var w := ws[|ws| - 1];
      assert r + [] == r && (r + [w])[..|r + [w]| - 1] == r;
    }
  }

  // ---- sends ----

  /** Each of these empty channels has received the message. */
  ghost function Remplis(f: File, ids: set<nat>, m: Message): File {
    f.(canaux := f.canaux + (map id | id in ids :: m), envois := f.envois + multiset(ids))
  }

  lemma EnvoisAjout(e: multiset<nat>, ids: set<nat>, id: nat)
    requires id !in ids
    ensures e + multiset(ids) + multiset{id} == e + multiset(ids + {id})
  {
  }

  lemma CanauxAjout(c: map<nat, Message>, ids: set<nat>, id: nat, m: Message)
    ensures (c + (map i | i in ids :: m))[id := m] == c + (map i | i in ids + {id} :: m)
  {
  }

  lemma OneMoreSend(f: File, ids: set<nat>, id: nat, m: Message)
    requires id !in ids && id !in f.canaux
    ensures Envoie(Remplis(f, ids, m), id, m) == Remplis(f, ids + {id}, m)
  {
    EnvoisAjout(f.envois, ids, id);
    CanauxAjout(f.canaux, ids, id, m);
  }

  /** When no slot is taken, no send is dropped. */
  lemma {:induction false} SendsFindRoom(f: File, ws: seq<Attente>, m: Message)
    requires IdsDistincts(ws) && forall w :: w in ws ==> w.id !in f.canaux
    ensures EnvoieTous(f, ws, m) == Remplis(f, IdsDe(ws), m)
  {
    if ws == [] {
      assert f.canaux + (map id | id in IdsDe([]) :: m) == f.canaux;
      assert f.envois + multiset(IdsDe([])) == f.envois;
    } else {
      var avant := ws[..|ws| - 1];
      var w := ws[|ws| - 1];
      DernierNouveau(ws);
      assert ws == avant + [w] && w in ws;
      assert forall v :: v in avant ==> v in ws;
      SendsFindRoom(f, avant, m);
      IdsAjout(avant, w);
      OneMoreSend(f, IdsDe(avant), w.id, m);
    }
  }

  // ---- what a formed session looks like ----

  lemma SousListeJoueurs(d: seq<Attente>, l: seq<Attente>)
    requires JoueursDistincts(d) && IdsDistincts(l) && forall w :: w in l ==> w in d
    ensures JoueursDistincts(l)
  {
    forall i, j | 0 <= i < j < |l|
      ensures l[i].uid == "" || l[i].uid != l[j].uid
    {
      assert l[i] in d && l[j] in d;
      var a :| 0 <= a < |d| && d[a] == l[i];
      var b :| 0 <= b < |d| && d[b] == l[j];
      assert a != b;
    }
  }

  lemma FestivalCapacity(cfg: string, n: nat)
    requires EstFileDeFete(cfg)
    ensures S3RoomCapacity(cfg, n) == if Contient(cfg, "coop") then 4 else if Contient(cfg, "private_match") then 10 else 8
  {
    SegmentContient(cfg, "fest");
  }

  lemma SegmentContient(cfg: string, mot: string)
    requires Contient(DernierSegment(cfg), mot)
    ensures Contient(cfg, mot)
  {
    var seg := DernierSegment(cfg);
    ContientIff(seg, mot);
    ContientIff(cfg, mot);
    var i :| 0 <= i <= |seg| && mot <= seg[i..];
    assert cfg[|cfg| - |seg| + i..] == seg[i..];
  }

  /** A festival split takes distinct waiters of the queue, and as many as the mode's room but for tricolour. */
  lemma FestivalRoster(d: seq<Attente>, cfg: string, g: Reglages, r: Repartition)
    requires IdsDistincts(d) && Scission(d, cfg, g, r)
    ensures var l := Coupe(r.choisis, Seuil(cfg, g));
            && IdsDistincts(l) && (forall w :: w in l ==> w in d)
            && |l| == if g.tricolore(cfg) then Min(8, Seuil(cfg, g)) else 2 * (Seuil(cfg, g) / 2)
  {
    if g.tricolore(cfg) {
      var a, b :| Tricolore(d, g.fete.defenseur, r, a, b) && PremiersAttaquants(d, g.fete.defenseur, a, b);
      TricoloreDistinct(d, g.fete.defenseur, r, a, b);
    } else {
      var a, b :| Affrontement(d, Seuil(cfg, g) / 2, r, a, b) && DeuxPlusForts(d, a, b);
      AffrontementDistinct(d, Seuil(cfg, g) / 2, r, a, b);
    }
  }

  function Min(a: nat, b: nat): nat {
    if a < b then a else b
  }

  /** The roster of a formed session: who it takes, and how many. */
  lemma RosterOf(ws: seq<Attente>, cfg: string, g: Reglages, s: Session)
    requires IdsDistincts(ws) && Compose(ws, cfg, g, s)
    ensures IdsDistincts(s.joueurs) && JoueursDistincts(s.joueurs)
    ensures forall w :: w in s.joueurs ==> w in ws && ModeDe(w, g) == cfg
    ensures s.base == cfg
    ensures |s.joueurs| == Taille(cfg, g)
  {
    var d := Distincts(ws, cfg, g);
    DistinctsMembres(ws, cfg, g);
    DistinctsJoueurs(ws, cfg, g);
    DistinctsDistincts(ws, cfg, g);
    if g.festival(cfg) {
      var r :| Scission(d, cfg, g, r) && s.joueurs == Coupe(r.choisis, Seuil(cfg, g)) && s.creneau == r.creneau;
      FestivalRoster(d, cfg, g, r);
    }
    SousListeJoueurs(d, s.joueurs);
    assert s.joueurs[0] in s.joueurs;
  }

  lemma AnnouncedFromBase(cfg: string, n: nat, repli: nat, fete: Fete)
    requires var seuil := S3RoomCapacity(cfg, repli);
             n == if !EstFileDeFete(cfg) then seuil
                  else if EstTricolore(cfg, fete) then Min(8, seuil) else 2 * (seuil / 2)
    ensures S3RoomCapacity(cfg, n) == n <==>
            !(EstFileDeFete(cfg) && EstTricolore(cfg, fete) && S3RoomCapacity(cfg, repli) == 10)
  {
    if EstFileDeFete(cfg) {
      FestivalCapacity(cfg, n);
      FestivalCapacity(cfg, repli);
    } else {
      CapacityTwice(cfg, repli);
    }
  }

  lemma CapacityTwice(cfg: string, repli: nat)
    ensures S3RoomCapacity(cfg, S3RoomCapacity(cfg, repli)) == S3RoomCapacity(cfg, repli)
  {
  }

  /** The announced count of the server is the room of the mode; a roster of another size is the exception. */
  lemma AnnouncedCount(chemin: string, n: nat, g: Reglages)
    requires g == ReglagesDuServeur(g.repli, g.fete) && Resolue(chemin)
    requires n == Taille(g.mode(chemin), g)
    ensures g.capacite(chemin, n) == n <==> !TricolorePrive(g.mode(chemin), g)
  {
    CapacityOfPath(chemin, n);
    AnnouncedFromBase(g.mode(chemin), n, g.repli, g.fete);
  }

  lemma CompositionFormee(ws: seq<Attente>, cfg: string, g: Reglages, s: Session)
    requires IdsDistincts(ws) && TousResolus(ws, g) && Compose(ws, cfg, g, s)
    ensures SessionFormee(s, g)
  {
    RosterOf(ws, cfg, g, s);
    assert s.joueurs[0] in s.joueurs;
  }

  // ---- every step keeps the invariant ----

  /** Leaving the queue through any exit conserves everyone else. */
  lemma LeavingConserves(f: File, f': File, ids: set<nat>)
    requires Conserve(f) && ids <= IdsDe(f.waiting)
    requires f'.inscrits == f.inscrits && f'.issues.Keys == f.issues.Keys + ids
    requires f'.waiting == Restants(f.waiting, ids)
    ensures Conserve(f') && ids !! f.issues.Keys
  {
    RestantsMembres(f.inscrits, f.issues.Keys);
    RestantsDeux(f.inscrits, f.issues.Keys, ids);
  }

  lemma ServedWereSilent(f: File, ids: set<nat>, f': File)
    requires AnnulesOk(f) && ids !! f.issues.Keys && f'.annules == f.annules
    requires f'.issues == Marque(f.issues, ids, Servi)
    ensures AnnulesOk(f') && ids !! Avertis(f) && Avertis(f') == Avertis(f) + ids
  {
  }

  lemma AddedOnce(e: multiset<nat>, a: set<nat>, b: set<nat>)
    requires a !! b && e == multiset(a)
    ensures e + multiset(b) == multiset(a + b)
  {
  }

  lemma SertKeepsInv(f: File, s: Session)
    requires Inv(f) && IdsDistincts(s.joueurs) && forall w :: w in s.joueurs ==> w in f.waiting
    ensures Inv(Sert(f, s))
  {
    var ids := IdsDe(s.joueurs);
    var f' := f.(waiting := Restants(f.waiting, ids), issues := Marque(f.issues, ids, Servi));
    LeavingConserves(f, f', ids);
    ServedWereSilent(f, ids, f');
    forall w | w in s.joueurs
      ensures w.id !in f.canaux
    {
      assert w.id in ids;
    }
    SendsFindRoom(f, s.joueurs, Reussi(s));
    AddedOnce(f.envois, Avertis(f), ids);
    ServedWereSilent(f, ids, Sert(f, s));
  }

  lemma FormeKeepsInv(f: File, f': File, cfg: string, g: Reglages)
    requires Inv(f) && Forme(f, f', cfg, g)
    ensures Inv(f')
  {
    if PeutFormer(f.waiting, cfg, g) {
      var s :| Compose(f.waiting, cfg, g, s) && f' == Sert(f, s);
      RestantsDistincts(f.inscrits, f.issues.Keys);
      RosterOf(f.waiting, cfg, g, s);
      SertKeepsInv(f, s);
    }
  }

  lemma {:induction false} DuTicketMembres(ws: seq<Attente>, ticket: string)
    ensures forall w :: w in DuTicket(ws, ticket) <==> w in ws && w.ticket == ticket
  {
    if ws != [] {
      DuTicketMembres(ws[..|ws| - 1], ticket);
      assert ws == ws[..|ws| - 1] + [ws[|ws| - 1]];
    }
  }

  lemma {:induction false} DuTicketDistinct(ws: seq<Attente>, ticket: string)
    requires IdsDistincts(ws)
    ensures IdsDistincts(DuTicket(ws, ticket))
  {
    if ws != [] {
      var avant := ws[..|ws| - 1];
      DernierNouveau(ws);
      DuTicketDistinct(avant, ticket);
      DuTicketMembres(avant, ticket);
    }
  }

  lemma CancelledStaySilent(f: File, f': File, retires: seq<Attente>)
    requires AnnulesOk(f) && IdsDistincts(retires) && IdsDe(retires) !! f.issues.Keys
    requires f'.annules == f.annules + retires && f'.issues == Marque(f.issues, IdsDe(retires), Retire)
    ensures AnnulesOk(f') && Avertis(f') == Avertis(f)
  {
    forall v: Attente, w: Attente | v in f.annules && w in retires
      ensures v.id != w.id
    {
      assert v.id in IdsDe(f.annules) && w.id in IdsDe(retires);
    }
    ConcatDistinct(f.annules, retires);
  }

  lemma RetirerKeepsInv(f: File, f': File, ticket: string, g: Reglages)
    requires Inv(f) && Suivant(f, f', RetirerTicket(ticket), g)
    ensures Inv(f')
  {
    var retires := DuTicket(f.waiting, ticket);
    DuTicketMembres(f.waiting, ticket);
    RestantsDistincts(f.inscrits, f.issues.Keys);
    DuTicketDistinct(f.waiting, ticket);
    LeavingConserves(f, f', IdsDe(retires));
    CancelledStaySilent(f, f', retires);
  }

  lemma ConclureKeepsInv(f: File, f': File, w: Attente, g: Reglages)
    requires Inv(f) && Suivant(f, f', ConclureAnnulation(w), g)
    ensures Inv(f')
  {
    assert w.id in IdsDe(f.annules) && w.id !in Avertis(f);
    RestantsMembres(f.annules, {w.id});
    RestantsDistincts(f.annules, {w.id});
    assert IdsDe(f'.annules) == IdsDe(f.annules) - {w.id};
    assert Avertis(f') == Avertis(f) + {w.id};
    assert multiset(Avertis(f) + {w.id}) == multiset(Avertis(f)) + multiset{w.id};
  }

  lemma QuitterKeepsInv(f: File, f': File, w: Attente, g: Reglages)
    requires Inv(f) && Suivant(f, f', Quitter(w), g)
    ensures Inv(f')
  {
    if w in f.waiting {
      LeavingConserves(f, f', {w.id});
      assert Avertis(f') == Avertis(f);
    }
  }

  lemma StepKeepsInv(f: File, f': File, pas: Pas, g: Reglages)
    requires Inv(f) && Suivant(f, f', pas, g)
    ensures Inv(f')
  {
    match pas
    case Rejoindre(w) =>
      FormeKeepsInv(f.(waiting := f.waiting + [w], inscrits := f.inscrits + [w]), f', ModeDe(w, g), g);
    case Reviser(cfg) => FormeKeepsInv(f, f', cfg, g);
    case RetirerTicket(t) => RetirerKeepsInv(f, f', t, g);
    case ConclureAnnulation(w) => ConclureKeepsInv(f, f', w, g);
    case Quitter(w) => QuitterKeepsInv(f, f', w, g);
    case Recevoir(_) =>
  }

  // ---- the queue at rest ----

  /** Joining adds at most one distinct player, and only to the waiter's own mode. */
  lemma OneMoreDistinct(ws: seq<Attente>, w: Attente, cfg: string, g: Reglages)
    ensures Distincts(ws + [w], cfg, g) == Distincts(ws, cfg, g) || Distincts(ws + [w], cfg, g) == Distincts(ws, cfg, g) + [w]
    ensures cfg != ModeDe(w, g) ==> Distincts(ws + [w], cfg, g) == Distincts(ws, cfg, g)
  {
  }

  /**
   The arrival that fills a room is served with it. What stays was there before the arrival, so no room
   is full, although tickets of players just served may resurface.
   */
  lemma ServedRoomIsNotFull(ws: seq<Attente>, w: Attente, s: Session, cfg: string, g: Reglages)
    requires !g.festival(cfg) && |Distincts(ws, cfg, g)| < Seuil(cfg, g) && ModeDe(w, g) == cfg
    requires Compose(ws + [w], cfg, g, s)
    ensures |Distincts(Restants(ws + [w], IdsDe(s.joueurs)), cfg, g)| < Seuil(cfg, g)
  {
    OneMoreDistinct(ws, w, cfg, g);
    assert s.joueurs == Distincts(ws, cfg, g) + [w];
    assert w in s.joueurs;
    RestantsAjout(ws, w, IdsDe(s.joueurs));
    assert Restants(ws, IdsDe(s.joueurs)) + [] == Restants(ws, IdsDe(s.joueurs));
    FewerAfterFilter(ws, IdsDe(s.joueurs), cfg, g);
  }

  lemma RejoindreAtRest(f: File, f': File, w: Attente, g: Reglages)
    requires Inv(f) && AuRepos(f, g) && Suivant(f, f', Rejoindre(w), g)
    ensures AuRepos(f', g)
  {
    var ws := f.waiting + [w];
    var mode := ModeDe(w, g);
    var f1 := f.(waiting := ws, inscrits := f.inscrits + [w]);
    forall cfg | !g.festival(cfg) && Seuil(cfg, g) > 0
      ensures |Distincts(f'.waiting, cfg, g)| < Seuil(cfg, g)
    {
      OneMoreDistinct(f.waiting, w, cfg, g);
      if PeutFormer(ws, mode, g) {
        var s :| Compose(ws, mode, g, s) && f' == Sert(f1, s);
        FewerAfterFilter(ws, IdsDe(s.joueurs), cfg, g);
        if cfg == mode {
          ServedRoomIsNotFull(f.waiting, w, s, cfg, g);
        }
      }
    }
  }

  /** Anything that only removes waiters keeps every room short. */
  lemma LeavingKeepsRest(f: File, f': File, ids: set<nat>, g: Reglages)
    requires AuRepos(f, g) && f'.waiting == Restants(f.waiting, ids)
    ensures AuRepos(f', g)
  {
    forall cfg | !g.festival(cfg) && Seuil(cfg, g) > 0
      ensures |Distincts(f'.waiting, cfg, g)| < Seuil(cfg, g)
    {
      FewerAfterFilter(f.waiting, ids, cfg, g);
    }
  }

  lemma StepKeepsRest(f: File, f': File, pas: Pas, g: Reglages)
    requires Inv(f) && AuRepos(f, g) && Suivant(f, f', pas, g)
    ensures AuRepos(f', g)
  {
    match pas
    case Rejoindre(w) => RejoindreAtRest(f, f', w, g);
    case Reviser(cfg) =>
      if PeutFormer(f.waiting, cfg, g) {
        var s :| Compose(f.waiting, cfg, g, s) && f' == Sert(f, s);
        LeavingKeepsRest(f, f', IdsDe(s.joueurs), g);
      }
    case RetirerTicket(t) => LeavingKeepsRest(f, f', IdsDe(DuTicket(f.waiting, t)), g);
    case ConclureAnnulation(_) =>
    case Quitter(w) =>
      if w in f.waiting {
        LeavingKeepsRest(f, f', {w.id}, g);
      }
    case Recevoir(_) =>
  }

  // ---- main results: over every run ----

  lemma {:induction false} RunKeepsInv(fs: seq<File>, run: seq<Pas>, g: Reglages, i: nat)
    requires Execution(fs, run, g) && i < |fs|
    ensures Inv(fs[i]) && AuRepos(fs[i], g)
  {
    if i > 0 {
      RunKeepsInv(fs, run, g, i - 1);
      assert Franchi(fs, run, g, i - 1);
      StepKeepsInv(fs[i - 1], fs[i], run[i - 1], g);
      StepKeepsRest(fs[i - 1], fs[i], run[i - 1], g);
    }
  }

  /** Whenever the lock is free, no ordinary mode holds as many distinct waiters as its room. */
  lemma QueueAtRest(fs: seq<File>, run: seq<Pas>, g: Reglages, i: nat, cfg: string)
    requires Execution(fs, run, g) && i < |fs|
    requires !g.festival(cfg) && Seuil(cfg, g) > 0
    ensures |Distincts(fs[i].waiting, cfg, g)| < Seuil(cfg, g)
  {
    RunKeepsInv(fs, run, g, i);
  }

  /**
   Everyone ever enqueued is waiting, in arrival order, or left by exactly one exit; each was sent at most
   one message, exactly one once served or told of the cancellation, and no send found its channel full.
   */
  lemma OneExitOneMessage(fs: seq<File>, run: seq<Pas>, g: Reglages, i: nat, w: Attente)
    requires Execution(fs, run, g) && i < |fs| && w in fs[i].inscrits
    ensures var f := fs[i];
            && f.waiting == Restants(f.inscrits, f.issues.Keys) && f.perdus == 0
            && (w in f.waiting <==> w.id !in f.issues)
            && f.envois[w.id] == (if w.id in f.issues && (f.issues[w.id].Servi? || (f.issues[w.id].Retire? && w !in f.annules))
                                  then 1 else 0)
  {
    RunKeepsInv(fs, run, g, i);
    var f := fs[i];
    RestantsMembres(f.inscrits, f.issues.Keys);
    AnnulesInscrits(fs, run, g, i);
    if w.id in IdsDe(f.annules) {
      var v :| v in f.annules && v.id == w.id;
    }
  }

  lemma {:induction false} AnnulesInscrits(fs: seq<File>, run: seq<Pas>, g: Reglages, i: nat)
    requires Execution(fs, run, g) && i < |fs|
    ensures forall w :: w in fs[i].annules ==> w in fs[i].inscrits
  {
    if i > 0 {
      RunKeepsInv(fs, run, g, i - 1);
      AnnulesInscrits(fs, run, g, i - 1);
      assert Franchi(fs, run, g, i - 1);
      StepKeepsAnnulesInscrits(fs[i - 1], fs[i], run[i - 1], g);
    }
  }

  lemma StepKeepsAnnulesInscrits(f: File, f': File, pas: Pas, g: Reglages)
    requires Inv(f) && Suivant(f, f', pas, g) && forall w :: w in f.annules ==> w in f.inscrits
    ensures forall w :: w in f'.annules ==> w in f'.inscrits
  {
    RestantsMembres(f.inscrits, f.issues.Keys);
    match pas
    case RetirerTicket(t) => DuTicketMembres(f.waiting, t);
    case ConclureAnnulation(w) => RestantsMembres(f.annules, {w.id});
    case Rejoindre(w) => FormeFrame(f.(waiting := f.waiting + [w], inscrits := f.inscrits + [w]), f', ModeDe(w, g), g);
    case Reviser(cfg) => FormeFrame(f, f', cfg, g);
    case _ =>
  }

  lemma FormeFrame(f: File, f': File, cfg: string, g: Reglages)
    requires Forme(f, f', cfg, g)
    ensures f'.inscrits == f.inscrits && f'.annules == f.annules
    ensures f'.sessions == f.sessions || exists s :: Compose(f.waiting, cfg, g, s) && f'.sessions == f.sessions + [s]
  {
    if PeutFormer(f.waiting, cfg, g) {
      var s :| Compose(f.waiting, cfg, g, s) && f' == Sert(f, s);
      EnvoieTousFrame(f, s.joueurs, Reussi(s));
    }
  }

  lemma {:induction false} EnvoieTousFrame(f: File, ws: seq<Attente>, m: Message)
    ensures var f' := EnvoieTous(f, ws, m);
            f' == f.(canaux := f'.canaux, envois := f'.envois, perdus := f'.perdus)
  {
    if ws != [] {
      EnvoieTousFrame(f, ws[..|ws| - 1], m);
    }
  }

  /** A waiter leaves once and for all: its exit never changes. */
  lemma {:induction false} ExitsAreFinal(fs: seq<File>, run: seq<Pas>, g: Reglages, i: nat, j: nat, id: nat)
    requires Execution(fs, run, g) && i <= j < |fs| && id in fs[i].issues
    ensures id in fs[j].issues && fs[j].issues[id] == fs[i].issues[id]
    decreases j
  {
    if i < j {
      ExitsAreFinal(fs, run, g, i, j - 1, id);
      RunKeepsInv(fs, run, g, j - 1);
      assert Franchi(fs, run, g, j - 1);
      StepKeepsExits(fs[j - 1], fs[j], run[j - 1], g, id);
    }
  }

  lemma StepKeepsExits(f: File, f': File, pas: Pas, g: Reglages, id: nat)
    requires Inv(f) && Suivant(f, f', pas, g) && id in f.issues
    ensures id in f'.issues && f'.issues[id] == f.issues[id]
  {
    match pas
    case Rejoindre(w) =>
      FormeKeepsExits(f.(waiting := f.waiting + [w], inscrits := f.inscrits + [w]), f', ModeDe(w, g), g, id);
    case Reviser(cfg) => FormeKeepsExits(f, f', cfg, g, id);
    case RetirerTicket(t) =>
      RestantsMembres(f.inscrits, f.issues.Keys);
      DuTicketMembres(f.waiting, t);
    case Quitter(w) => RestantsMembres(f.inscrits, f.issues.Keys);
    case _ =>
  }

  lemma FormeKeepsExits(f: File, f': File, cfg: string, g: Reglages, id: nat)
    requires Inv(f) && Forme(f, f', cfg, g) && id in f.issues
    ensures id in f'.issues && f'.issues[id] == f.issues[id]
  {
    if PeutFormer(f.waiting, cfg, g) {
      var s :| Compose(f.waiting, cfg, g, s) && f' == Sert(f, s);
      RestantsMembres(f.inscrits, f.issues.Keys);
      RestantsDistincts(f.inscrits, f.issues.Keys);
      RosterOf(f.waiting, cfg, g, s);
    }
  }

  ghost predicate SessionsFormees(f: File, g: Reglages) {
    TousResolus(f.inscrits, g) && forall s :: s in f.sessions ==> SessionFormee(s, g)
  }

  lemma FormeSessions(f: File, f': File, cfg: string, g: Reglages)
    requires Inv(f) && SessionsFormees(f, g) && Forme(f, f', cfg, g)
    ensures SessionsFormees(f', g)
  {
    FormeFrame(f, f', cfg, g);
    RestantsMembres(f.inscrits, f.issues.Keys);
    RestantsDistincts(f.inscrits, f.issues.Keys);
    if f'.sessions != f.sessions {
      var s :| Compose(f.waiting, cfg, g, s) && f'.sessions == f.sessions + [s];
      CompositionFormee(f.waiting, cfg, g, s);
    }
  }

  lemma StepKeepsSessions(f: File, f': File, pas: Pas, g: Reglages)
    requires Inv(f) && SessionsFormees(f, g) && Suivant(f, f', pas, g)
    ensures SessionsFormees(f', g)
  {
    match pas
    case Rejoindre(w) =>
      FormeSessions(f.(waiting := f.waiting + [w], inscrits := f.inscrits + [w]), f', ModeDe(w, g), g);
    case Reviser(cfg) => FormeSessions(f, f', cfg, g);
    case _ =>
  }

  lemma {:induction false} RunFormsSessions(fs: seq<File>, run: seq<Pas>, g: Reglages, i: nat)
    requires Execution(fs, run, g) && i < |fs|
    ensures SessionsFormees(fs[i], g)
  {
    if i > 0 {
      RunFormsSessions(fs, run, g, i - 1);
      RunKeepsInv(fs, run, g, i - 1);
      assert Franchi(fs, run, g, i - 1);
      StepKeepsSessions(fs[i - 1], fs[i], run[i - 1], g);
    }
  }

  /**
   Every session the server ever forms is of one mode and of pairwise distinct players, and its roster is
   exactly as large as the count it announces, but in a tricolour mode whose room is for ten.
   */
  lemma CompleteRostersOnly(fs: seq<File>, run: seq<Pas>, repli: nat, fete: Fete, i: nat, s: Session)
    requires Execution(fs, run, ReglagesDuServeur(repli, fete)) && i < |fs| && s in fs[i].sessions
    ensures forall w :: w in s.joueurs ==> BaseConfigName(w.config) == s.base
    ensures IdsDistincts(s.joueurs) && JoueursDistincts(s.joueurs)
    ensures s.annonces == |s.joueurs| <==>
            !(EstFileDeFete(s.base) && EstTricolore(s.base, fete) && S3RoomCapacity(s.base, repli) == 10)
  {
    var g := ReglagesDuServeur(repli, fete);
    RunFormsSessions(fs, run, g, i);
    assert s.joueurs[0] in s.joueurs;
    AnnouncedCount(s.joueurs[0].config, |s.joueurs|, g);
  }

  // ---- first come, first served ----

  lemma {:induction false} DistinctsPrefixe(ws: seq<Attente>, i: nat, cfg: string, g: Reglages)
    requires i <= |ws|
    ensures Distincts(ws[..i], cfg, g) <= Distincts(ws, cfg, g)
  {
    if i < |ws| {
      DistinctsPrefixe(ws[..|ws| - 1], i, cfg, g);
      assert ws[..|ws| - 1][..i] == ws[..i];
    } else {
      assert ws[..i] == ws;
    }
  }

  /**
   A waiter of the mode left out of the first n distinct ones either belongs to a player among them, or
   arrived after every one of them.
   */
  lemma EarliestArrivals(ws: seq<Attente>, cfg: string, g: Reglages, n: nat, i: nat)
    requires n <= |Distincts(ws, cfg, g)| && i < |ws| && ModeDe(ws[i], g) == cfg
    ensures var pris := Distincts(ws, cfg, g)[..n];
            || ws[i] in pris
            || (exists v :: v in pris && v.uid == ws[i].uid != "")
            || (forall v :: v in pris ==> v in ws[..i])
  {
    var d := Distincts(ws, cfg, g);
    var avant := Distincts(ws[..i], cfg, g);
    DistinctsPrefixe(ws, i, cfg, g);
    DistinctsPrefixe(ws, i + 1, cfg, g);
    assert ws[..i] + [ws[i]] == ws[..i + 1];
    DistinctsMembres(ws[..i], cfg, g);
    if n <= |avant| {
      assert d[..n] == avant[..n];
    } else if Distincts(ws[..i + 1], cfg, g) == avant + [ws[i]] {
      assert (avant + [ws[i]])[|avant|] == ws[i];
      assert d[..n][|avant|] == ws[i];
    } else {
      assert d[..n][..|avant|] == avant;
      var v :| v in avant && v.uid == ws[i].uid != "";
      assert v in d[..n];
    }
  }

}
