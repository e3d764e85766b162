/**
 The Salmon Run point cards (coop_carte_points.go): what a shift pays, and the two cards of each player it is
 credited to, one for all shifts and one for its own.
 */
module PointCards {
  import opened Wrappers
  import opened Valeurs
  import opened Sommes
  import opened Listes

  const POINTS_PAR_OEUF_LIVRE := 2
  const PRIME_QUART_REUSSI := 50
  const VAGUE_DU_QUART_REUSSI := 2
  const VERSION_CARTE := 131072

  function PointsDuQuart(oeufsLivres: int, vagueFinale: int): int {
    POINTS_PAR_OEUF_LIVRE * oeufsLivres + (if vagueFinale >= VAGUE_DU_QUART_REUSSI then PRIME_QUART_REUSSI else 0)
  }

  /** The fields of a card, by name. */
  datatype Champ =
    | JobNum | GoldenIkuraTotal | IkuraTotal | RescueTotal | BossTotal | KumaPoint
    | LimitedKumaPoint | Version | TotalClearWave | TotalGradePoint | BestGradePoint | BestGoldenIkuraNum
    | Grade | ShiftId | ShiftTime | JobTypeString

  type Doc = map<Champ, Valeur>

  type Docs = map<string, Doc>

  /** What a player earned on one shift. */
  datatype Gain = Gain(
    oeufsOr: int, oeufs: int, sauvetages: int, boss: int, vagues: int, orLivre: int,
    gradePt: int, grade: int, shiftID: string, shiftTime: string, typeQuart: string)

  /** How cards are named: one total card a player, one card a player and shift. */
  datatype Noms = Noms(total: string -> string, creneau: (string, string) -> string) {
    /** Players whose id is one path segment never share a card. */
    ghost predicate Separes() {
      && (forall u, v :: Segment(u) && Segment(v) ==> (total(u) == total(v) <==> u == v))
      && (forall u, s, v, t :: Segment(u) && Segment(v) ==> (creneau(u, s) == creneau(v, t) <==> u == v && s == t))
      && (forall u, v, t :: Segment(u) && Segment(v) ==> total(u) != creneau(v, t))
    }
  }

  predicate Segment(s: string) {
    '/' !in s
  }

  const RACINE := "tenants/current/documents/services/GameRecord/users/"

  function NomCarteTotale(uid: string): string {
    RACINE + uid + "/PointCardTotal/Data"
  }

  function NomCarteCreneau(uid: string, shiftID: string): string {
    RACINE + uid + "/PointCardRegular/" + shiftID
  }

  function NomsDuServeur(): Noms {
    Noms(NomCarteTotale, NomCarteCreneau)
  }

  /** The user segment of a card's name can be read back. */
  lemma SegmentBack(r: string, u: string, v: string, x: string, y: string)
    requires Segment(u) && Segment(v) && r + u + "/" + x == r + v + "/" + y
    ensures u == v && x == y
  {
    var a, b := r + u + "/" + x, r + v + "/" + y;
    assert a[|r|..] == u + "/" + x && b[|r|..] == v + "/" + y;
    var c := u + "/" + x;
    assert c == v + "/" + y;
    assert c[|u|] == '/' && c[|v|] == '/';
    assert forall i :: 0 <= i < |u| ==> c[i] == u[i];
    assert forall i :: 0 <= i < |v| ==> c[i] == v[i];
    assert |u| == |v|;
    assert u == c[..|u|] == v;
    assert x == c[|u| + 1..] == y;
  }

  lemma TotalName(u: string, x: string)
    requires x == "PointCardTotal/Data"
    ensures NomCarteTotale(u) == RACINE + u + "/" + x
  {
  }

  lemma ShiftName(u: string, s: string, x: string)
    requires x == "PointCardRegular/"
    ensures NomCarteCreneau(u, s) == RACINE + u + "/" + (x + s)
  {
  }

  lemma TotalIsNotShift(x: string, y: string, s: string)
    requires x == "PointCardTotal/Data" && y == "PointCardRegular/"
    ensures x != y + s
  {
    assert x[9] == 'T' && y[9] == 'R';
    assert (y + s)[9] == y[9];
  }

  lemma ServerNamesAreApart()
    ensures NomsDuServeur().Separes()
  {
    var x, y := "PointCardTotal/Data", "PointCardRegular/";
    var r := RACINE;
    forall u, v | Segment(u) && Segment(v)
      ensures NomCarteTotale(u) == NomCarteTotale(v) <==> u == v
    {
      TotalName(u, x);
      TotalName(v, x);
      if NomCarteTotale(u) == NomCarteTotale(v) {
        SegmentBack(r, u, v, x, x);
      }
    }
    forall u, s, v, t | Segment(u) && Segment(v)
      ensures NomCarteCreneau(u, s) == NomCarteCreneau(v, t) <==> u == v && s == t
    {
      ShiftName(u, s, y);
      ShiftName(v, t, y);
      if NomCarteCreneau(u, s) == NomCarteCreneau(v, t) {
        SegmentBack(r, u, v, y + s, y + t);
        assert s == (y + s)[|y|..] && t == (y + t)[|y|..];
      }
    }
    forall u, v, t | Segment(u) && Segment(v)
      ensures NomCarteTotale(u) != NomCarteCreneau(v, t)
    {
      TotalName(u, x);
      ShiftName(v, t, y);
      TotalIsNotShift(x, y, t);
      if NomCarteTotale(u) == NomCarteCreneau(v, t) {
        SegmentBack(r, u, v, x, y + t);
      }
    }
  }

  // ---- the cards ----

  function EntierDuDoc(doc: Doc, cle: Champ): int {
    if cle in doc && doc[cle].Entier? then doc[cle].i else 0
  }

  function DocDe(docs: Docs, nom: string): Doc {
    if nom in docs then docs[nom] else map[]
  }

  function Max(a: int, b: int): int {
    if a > b then a else b
  }

  /** The six counters, one shift further. */
  function Compteurs(anc: Doc, g: Gain): Doc {
    map[
      JobNum := Entier(EntierDuDoc(anc, JobNum) + 1),
      GoldenIkuraTotal := Entier(EntierDuDoc(anc, GoldenIkuraTotal) + g.oeufsOr),
      IkuraTotal := Entier(EntierDuDoc(anc, IkuraTotal) + g.oeufs),
      RescueTotal := Entier(EntierDuDoc(anc, RescueTotal) + g.sauvetages),
      BossTotal := Entier(EntierDuDoc(anc, BossTotal) + g.boss),
      KumaPoint := Entier(EntierDuDoc(anc, KumaPoint) + PointsDuQuart(g.orLivre, g.vagues))]
  }

  function ResteTotal(anc: Doc): Doc {
    map[LimitedKumaPoint := Entier(EntierDuDoc(anc, LimitedKumaPoint)), Version := Entier(VERSION_CARTE)]
  }

  /** The fields that are there whatever the credit. */
  function Fixes(anc: Doc, g: Gain): Doc {
    map[
      TotalClearWave := Entier(EntierDuDoc(anc, TotalClearWave) + g.vagues),
      TotalGradePoint := Entier(g.gradePt),
      BestGradePoint := Entier(Max(g.gradePt, EntierDuDoc(anc, BestGradePoint))),
      BestGoldenIkuraNum := Entier(Max(g.oeufsOr, EntierDuDoc(anc, BestGoldenIkuraNum))),
      Grade := Entier(g.grade),
      ShiftId := Chaine(g.shiftID),
      Version := Entier(VERSION_CARTE)]
  }

  function ResteCreneau(anc: Doc, g: Gain): Doc {
    Fixes(anc, g)
    + (if g.shiftTime != "" then map[ShiftTime := Chaine(g.shiftTime)] else map[])
    + (if g.typeQuart != "" then map[JobTypeString := Chaine(g.typeQuart)] else map[])
  }

  /** docAvec: these fields over the old document's. */
  function CarteTotale(anc: Doc, g: Gain): Doc {
    anc + (Compteurs(anc, g) + ResteTotal(anc))
  }

  function CarteCreneau(anc: Doc, g: Gain): Doc {
    anc + (Compteurs(anc, g) + ResteCreneau(anc, g))
  }

  /** The six counters both cards add up. */
  predicate Compteur(c: Champ) {
    c.JobNum? || c.GoldenIkuraTotal? || c.IkuraTotal? || c.RescueTotal? || c.BossTotal? || c.KumaPoint?
  }

  /** What a shift adds to a counter. */
  function Part(c: Champ, g: Gain): int
    requires Compteur(c)
  {
    match c
    case JobNum => 1
    case GoldenIkuraTotal => g.oeufsOr
    case IkuraTotal => g.oeufs
    case RescueTotal => g.sauvetages
    case BossTotal => g.boss
    case KumaPoint => PointsDuQuart(g.orLivre, g.vagues)
  }

  lemma CountersMove(anc: Doc, g: Gain, c: Champ)
    requires Compteur(c)
    ensures c in Compteurs(anc, g) && Compteurs(anc, g)[c] == Entier(EntierDuDoc(anc, c) + Part(c, g))
  {
  }

  lemma OthersAreNotCounters(anc: Doc, g: Gain, c: Champ)
    requires Compteur(c)
    ensures c !in ResteTotal(anc) && c !in ResteCreneau(anc, g)
  {
  }

  lemma CountersAddUp(anc: Doc, g: Gain, c: Champ)
    requires Compteur(c)
    ensures EntierDuDoc(CarteTotale(anc, g), c) == EntierDuDoc(anc, c) + Part(c, g)
    ensures EntierDuDoc(CarteCreneau(anc, g), c) == EntierDuDoc(anc, c) + Part(c, g)
  {
    CountersMove(anc, g, c);
    OthersAreNotCounters(anc, g, c);
  }

  lemma BestsAreMaxima(anc: Doc, g: Gain)
    ensures EntierDuDoc(CarteCreneau(anc, g), BestGoldenIkuraNum) == Max(g.oeufsOr, EntierDuDoc(anc, BestGoldenIkuraNum))
    ensures EntierDuDoc(CarteCreneau(anc, g), BestGradePoint) == Max(g.gradePt, EntierDuDoc(anc, BestGradePoint))
  {
    var r := ResteCreneau(anc, g);
    assert BestGoldenIkuraNum in r && r[BestGoldenIkuraNum] == Entier(Max(g.oeufsOr, EntierDuDoc(anc, BestGoldenIkuraNum)));
    assert BestGradePoint in r && r[BestGradePoint] == Entier(Max(g.gradePt, EntierDuDoc(anc, BestGradePoint)));
  }

  /** One credit: the total card, then the shift's if it has an id. */
  function ApresCredit(docs: Docs, n: Noms, uid: string, g: Gain): Docs {
    var d := docs[n.total(uid) := CarteTotale(DocDe(docs, n.total(uid)), g)];
    if g.shiftID == "" then d
    else d[n.creneau(uid, g.shiftID) := CarteCreneau(DocDe(d, n.creneau(uid, g.shiftID)), g)]
  }

  lemma OtherCell(docs: Docs, k: string, doc: Doc, l: string)
    ensures DocDe(docs[k := doc], l) == if l == k then doc else DocDe(docs, l)
  {
  }

  /** Where a credit is seen from another card. */
  lemma CreditSeenFromTotal(docs: Docs, n: Noms, u: string, g: Gain, uid: string)
    requires n.Separes() && Segment(u) && Segment(uid)
    ensures DocDe(ApresCredit(docs, n, u, g), n.total(uid)) ==
            (if u == uid then CarteTotale(DocDe(docs, n.total(uid)), g) else DocDe(docs, n.total(uid)))
  {
    var ct := CarteTotale(DocDe(docs, n.total(u)), g);
    var d := docs[n.total(u) := ct];
    OtherCell(docs, n.total(u), ct, n.total(uid));
    if g.shiftID != "" {
      var nc := n.creneau(u, g.shiftID);
      OtherCell(d, nc, CarteCreneau(DocDe(d, nc), g), n.total(uid));
    }
  }

  lemma CreditSeenFromShift(docs: Docs, n: Noms, u: string, g: Gain, uid: string, s: string)
    requires n.Separes() && Segment(u) && Segment(uid) && s != ""
    ensures DocDe(ApresCredit(docs, n, u, g), n.creneau(uid, s)) ==
            (if u == uid && g.shiftID == s then CarteCreneau(DocDe(docs, n.creneau(uid, s)), g) else DocDe(docs, n.creneau(uid, s)))
  {
    var ct := CarteTotale(DocDe(docs, n.total(u)), g);
    var d := docs[n.total(u) := ct];
    OtherCell(docs, n.total(u), ct, n.creneau(uid, s));
    if g.shiftID != "" {
      var nc := n.creneau(u, g.shiftID);
      OtherCell(d, nc, CarteCreneau(DocDe(d, nc), g), n.creneau(uid, s));
    }
  }

  lemma CounterSeenFrom(docs: Docs, n: Noms, u: string, g: Gain, uid: string, s: string, c: Champ)
    requires n.Separes() && Segment(u) && Segment(uid) && s != "" && Compteur(c)
    ensures var d := ApresCredit(docs, n, u, g);
            && EntierDuDoc(DocDe(d, n.total(uid)), c) ==
               EntierDuDoc(DocDe(docs, n.total(uid)), c) + (if u == uid then Part(c, g) else 0)
            && EntierDuDoc(DocDe(d, n.creneau(uid, s)), c) ==
               EntierDuDoc(DocDe(docs, n.creneau(uid, s)), c) + (if u == uid && g.shiftID == s then Part(c, g) else 0)
  {
    CreditSeenFromTotal(docs, n, u, g, uid);
    CreditSeenFromShift(docs, n, u, g, uid, s);
    CountersAddUp(DocDe(docs, n.total(uid)), g, c);
    CountersAddUp(DocDe(docs, n.creneau(uid, s)), g, c);
  }

  // ---- a log of credits ----

  datatype Credit = Credit(cleMatch: string, uid: string, gain: Gain)

  function ApresCredits(docs: Docs, n: Noms, cs: seq<Credit>): Docs {
    if cs == [] then docs
    else ApresCredit(ApresCredits(docs, n, cs[..|cs| - 1]), n, cs[|cs| - 1].uid, cs[|cs| - 1].gain)
  }

  /** What these credits added to a counter of the player, over all shifts. */
  function SommeJoueur(cs: seq<Credit>, uid: string, c: Champ): int
    requires Compteur(c)
  {
    if cs == [] then 0
    else SommeJoueur(cs[..|cs| - 1], uid, c) + (if cs[|cs| - 1].uid == uid then Part(c, cs[|cs| - 1].gain) else 0)
  }

  /** The same, over one shift. */
  function SommeCreneau(cs: seq<Credit>, uid: string, s: string, c: Champ): int
    requires Compteur(c)
  {
    if cs == [] then 0
    else
      SommeCreneau(cs[..|cs| - 1], uid, s, c)
      + (if cs[|cs| - 1].uid == uid && cs[|cs| - 1].gain.shiftID == s then Part(c, cs[|cs| - 1].gain) else 0)
  }

  ghost predicate Segments(cs: seq<Credit>) {
    forall i :: 0 <= i < |cs| ==> Segment(cs[i].uid)
  }

  /** A player's total card holds what it held, plus all its credits. */
  lemma {:induction false} TotalCardIsTheSum(docs: Docs, n: Noms, cs: seq<Credit>, uid: string, c: Champ)
    requires n.Separes() && Segment(uid) && Segments(cs) && Compteur(c)
    ensures EntierDuDoc(DocDe(ApresCredits(docs, n, cs), n.total(uid)), c) ==
            EntierDuDoc(DocDe(docs, n.total(uid)), c) + SommeJoueur(cs, uid, c)
  {
    if cs != [] {
      var k := cs[|cs| - 1];
      TotalCardIsTheSum(docs, n, cs[..|cs| - 1], uid, c);
      CounterSeenFrom(ApresCredits(docs, n, cs[..|cs| - 1]), n, k.uid, k.gain, uid, "-", c);
    }
  }

  /** A shift's card holds what it held, plus the credits of that shift. */
  lemma {:induction false} ShiftCardIsTheSum(docs: Docs, n: Noms, cs: seq<Credit>, uid: string, s: string, c: Champ)
    requires n.Separes() && Segment(uid) && Segments(cs) && s != "" && Compteur(c)
    ensures EntierDuDoc(DocDe(ApresCredits(docs, n, cs), n.creneau(uid, s)), c) ==
            EntierDuDoc(DocDe(docs, n.creneau(uid, s)), c) + SommeCreneau(cs, uid, s, c)
  {
    if cs != [] {
      var k := cs[|cs| - 1];
      ShiftCardIsTheSum(docs, n, cs[..|cs| - 1], uid, s, c);
      CounterSeenFrom(ApresCredits(docs, n, cs[..|cs| - 1]), n, k.uid, k.gain, uid, s, c);
    }
  }

  /** The credits of a player, split by shift. */
  lemma {:induction false} CreditsSplitByShift(cs: seq<Credit>, uid: string, c: Champ, creneaux: set<string>)
    requires Compteur(c) && "" !in creneaux
    requires forall i :: 0 <= i < |cs| && cs[i].uid == uid && cs[i].gain.shiftID != "" ==> cs[i].gain.shiftID in creneaux
    ensures SommeJoueur(cs, uid, c) == Somme(creneaux, (s: string) => SommeCreneau(cs, uid, s, c)) + SommeCreneau(cs, uid, "", c)
  {
    var f := (s: string) => SommeCreneau(cs, uid, s, c);
    if cs == [] {
      AllZero(creneaux, f);
    } else {
      var avant := cs[..|cs| - 1];
      var k := cs[|cs| - 1];
      var g := (s: string) => SommeCreneau(avant, uid, s, c);
      CreditsSplitByShift(avant, uid, c, creneaux);
      SameTerms(creneaux, g, (s: string) => SommeCreneau(avant, uid, s, c));
      if k.uid == uid && k.gain.shiftID != "" {
        OneTermChanges(creneaux, g, f, k.gain.shiftID);
      } else {
        SameTerms(creneaux, g, f);
      }
    }
  }

  /** What a shift card gained over this run. */
  function Gagne(avant: Docs, apres: Docs, nom: string, c: Champ): int {
    EntierDuDoc(DocDe(apres, nom), c) - EntierDuDoc(DocDe(avant, nom), c)
  }

  /**
   Conservation: for each of the six counters, what a player's total card gained is what its shift cards
   gained together, plus the credits that came without a shift id.
   */
  lemma CardsAgree(docs: Docs, n: Noms, cs: seq<Credit>, uid: string, c: Champ, creneaux: set<string>)
    requires n.Separes() && Segment(uid) && Segments(cs) && Compteur(c) && "" !in creneaux
    requires forall i :: 0 <= i < |cs| && cs[i].uid == uid && cs[i].gain.shiftID != "" ==> cs[i].gain.shiftID in creneaux
    ensures var d := ApresCredits(docs, n, cs);
            Gagne(docs, d, n.total(uid), c) ==
            Somme(creneaux, (s: string) => Gagne(docs, d, n.creneau(uid, s), c)) + SommeCreneau(cs, uid, "", c)
  {
    var d := ApresCredits(docs, n, cs);
    TotalCardIsTheSum(docs, n, cs, uid, c);
    CreditsSplitByShift(cs, uid, c, creneaux);
    var f := (s: string) => SommeCreneau(cs, uid, s, c);
    var g := (s: string) => Gagne(docs, d, n.creneau(uid, s), c);
    forall s | s in creneaux
      ensures f(s) == g(s)
    {
      ShiftCardIsTheSum(docs, n, cs, uid, s, c);
    }
    SameTerms(creneaux, f, (s: string) => SommeCreneau(cs, uid, s, c));
    SameTerms(creneaux, f, (s: string) => Gagne(docs, d, n.creneau(uid, s), c));
  }

  /** The number of a player's credits, and the points they paid. */
  function Quarts(cs: seq<Credit>, uid: string): nat {
    if cs == [] then 0 else Quarts(cs[..|cs| - 1], uid) + (if cs[|cs| - 1].uid == uid then 1 else 0)
  }

  function Points(cs: seq<Credit>, uid: string): int {
    if cs == [] then 0
    else
      Points(cs[..|cs| - 1], uid)
      + (if cs[|cs| - 1].uid == uid then 2 * cs[|cs| - 1].gain.orLivre + (if cs[|cs| - 1].gain.vagues >= 2 then 50 else 0) else 0)
  }

  /** The total card counts the credited shifts and the sum of what they paid. */
  lemma {:induction false} JobsAndPoints(cs: seq<Credit>, uid: string)
    ensures SommeJoueur(cs, uid, JobNum) == Quarts(cs, uid) && SommeJoueur(cs, uid, KumaPoint) == Points(cs, uid)
  {
    if cs != [] {
      JobsAndPoints(cs[..|cs| - 1], uid);
    }
  }

  /** The sum of a figure over a player's credits, all shifts or one. */
  function SommeDe(cs: seq<Credit>, uid: string, f: Gain -> int): int {
    if cs == [] then 0 else SommeDe(cs[..|cs| - 1], uid, f) + (if cs[|cs| - 1].uid == uid then f(cs[|cs| - 1].gain) else 0)
  }

  function SommeAuCreneau(cs: seq<Credit>, uid: string, s: string, f: Gain -> int): int {
    if cs == [] then 0
    else
      SommeAuCreneau(cs[..|cs| - 1], uid, s, f)
      + (if cs[|cs| - 1].uid == uid && cs[|cs| - 1].gain.shiftID == s then f(cs[|cs| - 1].gain) else 0)
  }

  /** Which figure of a shift each counter adds up. */
  lemma {:induction false} EachCounterHasItsFigure(cs: seq<Credit>, uid: string)
    ensures SommeJoueur(cs, uid, GoldenIkuraTotal) == SommeDe(cs, uid, (g: Gain) => g.oeufsOr)
    ensures SommeJoueur(cs, uid, IkuraTotal) == SommeDe(cs, uid, (g: Gain) => g.oeufs)
    ensures SommeJoueur(cs, uid, RescueTotal) == SommeDe(cs, uid, (g: Gain) => g.sauvetages)
    ensures SommeJoueur(cs, uid, BossTotal) == SommeDe(cs, uid, (g: Gain) => g.boss)
  {
    if cs != [] {
      EachCounterHasItsFigure(cs[..|cs| - 1], uid);
    }
  }

  /** The waves of a shift card are those it held and those of the shift's credits. */
  lemma {:induction false} WavesAddUp(docs: Docs, n: Noms, cs: seq<Credit>, uid: string, s: string)
    requires n.Separes() && Segment(uid) && Segments(cs) && s != ""
    ensures EntierDuDoc(DocDe(ApresCredits(docs, n, cs), n.creneau(uid, s)), TotalClearWave) ==
            EntierDuDoc(DocDe(docs, n.creneau(uid, s)), TotalClearWave) + SommeAuCreneau(cs, uid, s, (g: Gain) => g.vagues)
  {
    if cs != [] {
      var k := cs[|cs| - 1];
      var avant := ApresCredits(docs, n, cs[..|cs| - 1]);
      WavesAddUp(docs, n, cs[..|cs| - 1], uid, s);
      CreditSeenFromShift(avant, n, k.uid, k.gain, uid, s);
      ShownByCredit(DocDe(avant, n.creneau(uid, s)), k.gain);
    }
  }

  lemma FixedIsShown(anc: Doc, g: Gain, c: Champ)
    requires c in Fixes(anc, g) && c != ShiftTime && c != JobTypeString
    ensures Montre(CarteCreneau(anc, g), c, Fixes(anc, g)[c])
  {
    assert Montre(ResteCreneau(anc, g), c, Fixes(anc, g)[c]);
  }

  lemma FixedFigures(anc: Doc, g: Gain)
    ensures var f := Fixes(anc, g);
            && Montre(f, TotalClearWave, Entier(EntierDuDoc(anc, TotalClearWave) + g.vagues))
            && Montre(f, Grade, Entier(g.grade)) && Montre(f, TotalGradePoint, Entier(g.gradePt))
            && Montre(f, ShiftId, Chaine(g.shiftID)) && Montre(f, Version, Entier(131072))
  {
  }

  /** What the card of a shift shows after one more credit, besides its six counters and its two bests. */
  lemma ShownByCredit(anc: Doc, g: Gain)
    ensures var d := CarteCreneau(anc, g);
            && EntierDuDoc(d, TotalClearWave) == EntierDuDoc(anc, TotalClearWave) + g.vagues
            && Montre(d, Grade, Entier(g.grade)) && Montre(d, TotalGradePoint, Entier(g.gradePt))
            && Montre(d, ShiftId, Chaine(g.shiftID)) && Montre(d, Version, Entier(131072))
    ensures Lu(CarteCreneau(anc, g), ShiftTime) == if g.shiftTime != "" then Some(Chaine(g.shiftTime)) else Lu(anc, ShiftTime)
    ensures Lu(CarteCreneau(anc, g), JobTypeString) == if g.typeQuart != "" then Some(Chaine(g.typeQuart)) else Lu(anc, JobTypeString)
  {
    ShownFigures(anc, g);
    ShownTimes(anc, g);
  }

  lemma ShownFigures(anc: Doc, g: Gain)
    ensures var d := CarteCreneau(anc, g);
            && EntierDuDoc(d, TotalClearWave) == EntierDuDoc(anc, TotalClearWave) + g.vagues
            && Montre(d, Grade, Entier(g.grade)) && Montre(d, TotalGradePoint, Entier(g.gradePt))
            && Montre(d, ShiftId, Chaine(g.shiftID)) && Montre(d, Version, Entier(131072))
  {
    FixedFigures(anc, g);
    FixedIsShown(anc, g, TotalClearWave);
    FixedIsShown(anc, g, Grade);
    FixedIsShown(anc, g, TotalGradePoint);
    FixedIsShown(anc, g, ShiftId);
    FixedIsShown(anc, g, Version);
  }

  lemma ShownTimes(anc: Doc, g: Gain)
    ensures Lu(CarteCreneau(anc, g), ShiftTime) == if g.shiftTime != "" then Some(Chaine(g.shiftTime)) else Lu(anc, ShiftTime)
    ensures Lu(CarteCreneau(anc, g), JobTypeString) == if g.typeQuart != "" then Some(Chaine(g.typeQuart)) else Lu(anc, JobTypeString)
  {
    assert ShiftTime !in Compteurs(anc, g) && JobTypeString !in Compteurs(anc, g);
    assert Lu(ResteCreneau(anc, g), ShiftTime) == if g.shiftTime != "" then Some(Chaine(g.shiftTime)) else None;
    assert Lu(ResteCreneau(anc, g), JobTypeString) == if g.typeQuart != "" then Some(Chaine(g.typeQuart)) else None;
  }

  function Lu(d: Doc, c: Champ): Option<Valeur> {
    if c in d then Some(d[c]) else None
  }

  predicate Montre(d: Doc, c: Champ, v: Valeur) {
    Lu(d, c) == Some(v)
  }

  /** The player's last credit of this shift that satisfies p. */
  ghost predicate Dernier(cs: seq<Credit>, uid: string, s: string, p: Gain -> bool, i: nat) {
    && i < |cs| && cs[i].uid == uid && cs[i].gain.shiftID == s && p(cs[i].gain)
    && forall j :: i < j < |cs| && cs[j].uid == uid && cs[j].gain.shiftID == s ==> !p(cs[j].gain)
  }

  lemma DernierAvant(cs: seq<Credit>, uid: string, s: string, p: Gain -> bool, i: nat)
    requires Dernier(cs, uid, s, p, i) && i < |cs| - 1
    ensures Dernier(cs[..|cs| - 1], uid, s, p, i)
    ensures cs[|cs| - 1].uid == uid && cs[|cs| - 1].gain.shiftID == s ==> !p(cs[|cs| - 1].gain)
  {
  }

  /** A shift's card shows the grade and the points of the last credit of the shift, the shift's id, and the version. */
  lemma {:induction false} LastCreditIsShown(docs: Docs, n: Noms, cs: seq<Credit>, uid: string, s: string, i: nat)
    requires n.Separes() && Segment(uid) && Segments(cs) && s != "" && Dernier(cs, uid, s, (g: Gain) => true, i)
    ensures var d := DocDe(ApresCredits(docs, n, cs), n.creneau(uid, s));
            && Montre(d, Grade, Entier(cs[i].gain.grade)) && Montre(d, TotalGradePoint, Entier(cs[i].gain.gradePt))
            && Montre(d, ShiftId, Chaine(s)) && Montre(d, Version, Entier(131072))
  {
    var k := cs[|cs| - 1];
    var avant := ApresCredits(docs, n, cs[..|cs| - 1]);
    CreditSeenFromShift(avant, n, k.uid, k.gain, uid, s);
    ShownByCredit(DocDe(avant, n.creneau(uid, s)), k.gain);
    if i < |cs| - 1 {
      DernierAvant(cs, uid, s, (g: Gain) => true, i);
      LastCreditIsShown(docs, n, cs[..|cs| - 1], uid, s, i);
    }
  }

  /** Its shift time and job type are the last ones a credit of the shift brought. */
  lemma {:induction false} LastTimeIsShown(docs: Docs, n: Noms, cs: seq<Credit>, uid: string, s: string, i: nat)
    requires n.Separes() && Segment(uid) && Segments(cs) && s != ""
    requires Dernier(cs, uid, s, (g: Gain) => g.shiftTime != "", i)
    ensures Montre(DocDe(ApresCredits(docs, n, cs), n.creneau(uid, s)), ShiftTime, Chaine(cs[i].gain.shiftTime))
  {
    var k := cs[|cs| - 1];
    var avant := ApresCredits(docs, n, cs[..|cs| - 1]);
    CreditSeenFromShift(avant, n, k.uid, k.gain, uid, s);
    ShownByCredit(DocDe(avant, n.creneau(uid, s)), k.gain);
    if i < |cs| - 1 {
      DernierAvant(cs, uid, s, (g: Gain) => g.shiftTime != "", i);
      LastTimeIsShown(docs, n, cs[..|cs| - 1], uid, s, i);
    }
  }

  lemma {:induction false} LastJobTypeIsShown(docs: Docs, n: Noms, cs: seq<Credit>, uid: string, s: string, i: nat)
    requires n.Separes() && Segment(uid) && Segments(cs) && s != ""
    requires Dernier(cs, uid, s, (g: Gain) => g.typeQuart != "", i)
    ensures Montre(DocDe(ApresCredits(docs, n, cs), n.creneau(uid, s)), JobTypeString, Chaine(cs[i].gain.typeQuart))
  {
    var k := cs[|cs| - 1];
    var avant := ApresCredits(docs, n, cs[..|cs| - 1]);
    CreditSeenFromShift(avant, n, k.uid, k.gain, uid, s);
    ShownByCredit(DocDe(avant, n.creneau(uid, s)), k.gain);
    if i < |cs| - 1 {
      DernierAvant(cs, uid, s, (g: Gain) => g.typeQuart != "", i);
      LastJobTypeIsShown(docs, n, cs[..|cs| - 1], uid, s, i);
    }
  }

  /** A total card keeps its limited points over any credits, and shows the version once credited. */
  lemma {:induction false} LimitedPointsAreKept(docs: Docs, n: Noms, cs: seq<Credit>, uid: string)
    requires n.Separes() && Segment(uid) && Segments(cs)
    ensures var avant, d := DocDe(docs, n.total(uid)), DocDe(ApresCredits(docs, n, cs), n.total(uid));
            && EntierDuDoc(d, LimitedKumaPoint) == EntierDuDoc(avant, LimitedKumaPoint)
            && ((exists i :: 0 <= i < |cs| && cs[i].uid == uid) ==> Montre(d, Version, Entier(131072)))
  {
    if cs != [] {
      var k := cs[|cs| - 1];
      var avant := ApresCredits(docs, n, cs[..|cs| - 1]);
      LimitedPointsAreKept(docs, n, cs[..|cs| - 1], uid);
      CreditSeenFromTotal(avant, n, k.uid, k.gain, uid);
      TotalShown(DocDe(avant, n.total(uid)), k.gain);
      if i :| 0 <= i < |cs| && cs[i].uid == uid {
        assert i < |cs| - 1 ==> cs[..|cs| - 1][i].uid == uid;
      }
    }
  }

  lemma TotalShown(anc: Doc, g: Gain)
    ensures var d := CarteTotale(anc, g);
            EntierDuDoc(d, LimitedKumaPoint) == EntierDuDoc(anc, LimitedKumaPoint) && Montre(d, Version, Entier(131072))
  {
    var r := ResteTotal(anc);
    assert LimitedKumaPoint in r && r[LimitedKumaPoint] == Entier(EntierDuDoc(anc, LimitedKumaPoint));
    assert Version in r && r[Version] == Entier(VERSION_CARTE);
  }

  lemma BestSeenFrom(docs: Docs, n: Noms, u: string, g: Gain, uid: string, s: string)
    requires n.Separes() && Segment(u) && Segment(uid) && s != ""
    ensures var avant := EntierDuDoc(DocDe(docs, n.creneau(uid, s)), BestGoldenIkuraNum);
            EntierDuDoc(DocDe(ApresCredit(docs, n, u, g), n.creneau(uid, s)), BestGoldenIkuraNum) ==
            if u == uid && g.shiftID == s then Max(g.oeufsOr, avant) else avant
  {
    CreditSeenFromShift(docs, n, u, g, uid, s);
    BestsAreMaxima(DocDe(docs, n.creneau(uid, s)), g);
  }

  /** The best of a shift, over its credits and what its card held. */
  function Meilleur(cs: seq<Credit>, uid: string, s: string, dejaMeilleur: int): int {
    if cs == [] then dejaMeilleur
    else
      var m := Meilleur(cs[..|cs| - 1], uid, s, dejaMeilleur);
      if cs[|cs| - 1].uid == uid && cs[|cs| - 1].gain.shiftID == s then Max(cs[|cs| - 1].gain.oeufsOr, m) else m
  }

  lemma {:induction false} BestDominates(cs: seq<Credit>, uid: string, s: string, m: int)
    ensures forall i :: 0 <= i < |cs| && cs[i].uid == uid && cs[i].gain.shiftID == s ==> cs[i].gain.oeufsOr <= Meilleur(cs, uid, s, m)
    ensures Meilleur(cs, uid, s, m) == m
         || exists i :: 0 <= i < |cs| && cs[i].uid == uid && cs[i].gain.shiftID == s && cs[i].gain.oeufsOr == Meilleur(cs, uid, s, m)
  {
    if cs != [] {
      BestDominates(cs[..|cs| - 1], uid, s, m);
    }
  }

  /** A shift's card keeps the best of its credits. */
  lemma {:induction false} BestIsKept(docs: Docs, n: Noms, cs: seq<Credit>, uid: string, s: string)
    requires n.Separes() && Segment(uid) && Segments(cs) && s != ""
    ensures EntierDuDoc(DocDe(ApresCredits(docs, n, cs), n.creneau(uid, s)), BestGoldenIkuraNum) ==
            Meilleur(cs, uid, s, EntierDuDoc(DocDe(docs, n.creneau(uid, s)), BestGoldenIkuraNum))
  {
    if cs != [] {
      var k := cs[|cs| - 1];
      BestIsKept(docs, n, cs[..|cs| - 1], uid, s);
      BestSeenFrom(ApresCredits(docs, n, cs[..|cs| - 1]), n, k.uid, k.gain, uid, s);
    }
  }

  // ---- reading a verdict ----

  function TronqueReel(r: real): (n: int)
    ensures r >= 0.0 ==> n as real <= r < n as real + 1.0
    ensures r < 0.0 ==> n as real - 1.0 < r <= n as real
  {
    if r >= 0.0 then r.Floor else -((-r).Floor)
  }

  /** The integer a value stands for: an integer, a double cut towards zero, or nothing. */
  function Nombre(v: Valeur): (n: int)
    ensures v.Entier? ==> n == v.i
    ensures v.Flottant? && v.r >= 0.0 ==> n as real <= v.r < n as real + 1.0
    ensures v.Flottant? && v.r < 0.0 ==> n as real - 1.0 < v.r <= n as real
    ensures !v.Entier? && !v.Flottant? ==> n == 0
  {
    match v
    case Entier(i) => i
    case Flottant(r) => TronqueReel(r)
    case _ => 0
  }

  /** Everything the tree holds under this name, at any depth, wherever the map iteration starts. */
  ghost function SommeParNom(v: Valeur, nom: string): int
    decreases v, 1
  {
    match v
    case Carte(m) =>
      Somme(m.Keys, (k: string) => if k !in v.champs then 0 else if k == nom then Nombre(v.champs[k]) else SommeParNom(v.champs[k], nom))
    case Tableau(vs) => SommeListe(vs, nom)
    case _ => 0
  }

  ghost function SommeListe(vs: seq<Valeur>, nom: string): int
    decreases vs, 0
  {
    if vs == [] then 0 else SommeListe(vs[..|vs| - 1], nom) + SommeParNom(vs[|vs| - 1], nom)
  }

  /** The source's walk, in whatever order it meets the keys. */
  method SommerParNom(v: Valeur, nom: string) returns (total: int)
    ensures total == SommeParNom(v, nom)
    decreases v
  {
    total := 0;
    if v.Carte? {
      ghost var f := (k: string) =>
        if k !in v.champs then 0 else if k == nom then Nombre(v.champs[k]) else SommeParNom(v.champs[k], nom);
      var restants := v.champs.Keys;
      while restants != {}
        invariant restants <= v.champs.Keys && total + Somme(restants, f) == Somme(v.champs.Keys, f)
        decreases restants
      {
        var k :| k in restants;
        TakeOut(restants, f, k);
        if k == nom {
          total := total + Nombre(v.champs[k]);
        } else {
          var sous := SommerParNom(v.champs[k], nom);
          total := total + sous;
        }
        restants := restants - {k};
      }
      SameTerms(v.champs.Keys, f, (k: string) =>
        if k !in v.champs then 0 else if k == nom then Nombre(v.champs[k]) else SommeParNom(v.champs[k], nom));
    } else if v.Tableau? {
      for i := 0 to |v.vs|
        invariant total == SommeListe(v.vs[..i], nom)
      {
        assert v.vs[..i + 1][..i] == v.vs[..i];
        var sous := SommerParNom(v.vs[i], nom);
        total := total + sous;
      }
      assert v.vs[..|v.vs|] == v.vs;
    }
  }

  /** The name is met at the end of these steps, and not before. */
  ghost predicate Occurrence(v: Valeur, nom: string, acces: seq<Acces>) {
    && acces != [] && acces[|acces| - 1] == Cle(nom) && LuEn(v, acces).Some?
    && forall i :: 0 <= i < |acces| - 1 ==> acces[i] != Cle(nom)
  }

  /** The same tree with another value there. */
  function Pose(v: Valeur, acces: seq<Acces>, w: Valeur): Valeur
    requires LuEn(v, acces).Some?
    decreases |acces|
  {
    if acces == [] then w
    else
      match acces[0]
      case Cle(k) => Carte(v.champs[k := Pose(v.champs[k], acces[1..], w)])
      case Indice(i) => Tableau(v.vs[i := Pose(v.vs[i], acces[1..], w)])
  }

  ghost function Terme(v: Valeur, nom: string): string -> int
    requires v.Carte?
  {
    (k: string) => if k !in v.champs then 0 else if k == nom then Nombre(v.champs[k]) else SommeParNom(v.champs[k], nom)
  }

  lemma SumOfTerms(v: Valeur, nom: string)
    requires v.Carte?
    ensures SommeParNom(v, nom) == Somme(v.champs.Keys, Terme(v, nom))
  {
    SameTerms(v.champs.Keys, Terme(v, nom), (k: string) =>
      if k !in v.champs then 0 else if k == nom then Nombre(v.champs[k]) else SommeParNom(v.champs[k], nom));
  }

  /** Replacing the value under one occurrence of the name, wherever it is, moves the sum by just the difference. */
  lemma {:induction false} OneOccurrenceMoves(v: Valeur, nom: string, acces: seq<Acces>, w: Valeur)
    requires Occurrence(v, nom, acces)
    ensures SommeParNom(Pose(v, acces, w), nom) == SommeParNom(v, nom) - Nombre(LuEn(v, acces).value) + Nombre(w)
    decreases |acces|
  {
    var p := Pose(v, acces, w);
    match acces[0]
    case Cle(k) =>
      SumOfTerms(v, nom);
      SumOfTerms(p, nom);
      assert p.champs.Keys == v.champs.Keys;
      OneTermChanges(v.champs.Keys, Terme(v, nom), Terme(p, nom), k);
      if |acces| > 1 {
        assert Occurrence(v.champs[k], nom, acces[1..]);
        OneOccurrenceMoves(v.champs[k], nom, acces[1..], w);
      } else {
        assert acces[1..] == [];
      }
    case Indice(i) =>
      assert Occurrence(v.vs[i], nom, acces[1..]);
      OneOccurrenceMoves(v.vs[i], nom, acces[1..], w);
      OneOfTheListMoves(v.vs, nom, i, Pose(v.vs[i], acces[1..], w));
  }

  lemma {:induction false} OneOfTheListMoves(vs: seq<Valeur>, nom: string, i: nat, w: Valeur)
    requires i < |vs|
    ensures SommeListe(vs[i := w], nom) == SommeListe(vs, nom) - SommeParNom(vs[i], nom) + SommeParNom(w, nom)
    decreases |vs|
  {
    var n := |vs| - 1;
    if i < n {
      assert vs[i := w][..n] == vs[..n][i := w];
      OneOfTheListMoves(vs[..n], nom, i, w);
    } else {
      assert vs[i := w][..n] == vs[..n];
    }
  }

  /** A tree where the name is only met over nothing sums to nothing: with the above, the sum is of all occurrences and no more. */
  lemma {:induction false} NothingToAdd(v: Valeur, nom: string)
    requires forall acces :: Occurrence(v, nom, acces) ==> Nombre(LuEn(v, acces).value) == 0
    ensures SommeParNom(v, nom) == 0
    decreases v, 1
  {
    match v
    case Carte(m) =>
      forall k | k in v.champs
        ensures Terme(v, nom)(k) == 0
      {
        if k == nom {
          var acces := [Cle(k)];
          assert acces[1..] == [] && LuEn(v.champs[k], acces[1..]) == Some(v.champs[k]);
          assert LuEn(v, acces) == Some(v.champs[k]);
          assert Occurrence(v, nom, acces);
        } else {
          BelowAKey(v, nom, k);
          NothingToAdd(v.champs[k], nom);
        }
      }
      SumOfTerms(v, nom);
      AllZero(v.champs.Keys, Terme(v, nom));
    case Tableau(vs) =>
      forall i | 0 <= i < |v.vs|
        ensures SommeParNom(v.vs[i], nom) == 0
      {
        BelowAnIndex(v, nom, i);
        NothingToAdd(v.vs[i], nom);
      }
      NothingInTheList(v.vs, nom);
    case _ =>
  }

  lemma {:induction false} NothingInTheList(vs: seq<Valeur>, nom: string)
    requires forall i :: 0 <= i < |vs| ==> SommeParNom(vs[i], nom) == 0
    ensures SommeListe(vs, nom) == 0
    decreases |vs|
  {
    if vs != [] {
      NothingInTheList(vs[..|vs| - 1], nom);
    }
  }

  lemma BelowAKey(v: Valeur, nom: string, k: string)
    requires v.Carte? && k in v.champs && k != nom
    requires forall acces :: Occurrence(v, nom, acces) ==> Nombre(LuEn(v, acces).value) == 0
    ensures forall acces :: Occurrence(v.champs[k], nom, acces) ==> Nombre(LuEn(v.champs[k], acces).value) == 0
  {
    forall acces | Occurrence(v.champs[k], nom, acces)
      ensures Nombre(LuEn(v.champs[k], acces).value) == 0
    {
      var tout := [Cle(k)] + acces;
      assert tout[1..] == acces;
      assert Occurrence(v, nom, tout);
    }
  }

  lemma BelowAnIndex(v: Valeur, nom: string, i: nat)
    requires v.Tableau? && i < |v.vs|
    requires forall acces :: Occurrence(v, nom, acces) ==> Nombre(LuEn(v, acces).value) == 0
    ensures forall acces :: Occurrence(v.vs[i], nom, acces) ==> Nombre(LuEn(v.vs[i], acces).value) == 0
  {
    forall acces | Occurrence(v.vs[i], nom, acces)
      ensures Nombre(LuEn(v.vs[i], acces).value) == 0
    {
      var tout := [Indice(i)] + acces;
      assert tout[1..] == acces;
      assert Occurrence(v, nom, tout);
    }
  }

  /** A result the depth-first walk of `premierParNom` may give: map keys come in no particular order. */
  ghost predicate Rend(v: Valeur, nom: string, n: int)
    decreases v
  {
    match v
    case Carte(m) =>
      if nom in v.champs then n == Nombre(v.champs[nom])
      else if n == 0 then forall k :: k in v.champs ==> Rend(v.champs[k], nom, 0)
      else exists k :: k in v.champs && Rend(v.champs[k], nom, n)
    case Tableau(vs) =>
      if n == 0 then forall i :: 0 <= i < |v.vs| ==> Rend(v.vs[i], nom, 0)
      else exists i :: 0 <= i < |v.vs| && Rend(v.vs[i], nom, n) && forall j :: 0 <= j < i ==> Rend(v.vs[j], nom, 0)
    case _ => n == 0
  }

  method PremierParNom(v: Valeur, nom: string) returns (n: int)
    ensures Rend(v, nom, n)
    decreases v
  {
    if v.Carte? {
      if nom in v.champs {
        return Nombre(v.champs[nom]);
      }
      var restants := v.champs.Keys;
      while restants != {}
        invariant restants <= v.champs.Keys && forall k :: k in v.champs.Keys - restants ==> Rend(v.champs[k], nom, 0)
        decreases restants
      {
        var k :| k in restants;
        n := PremierParNom(v.champs[k], nom);
        if n != 0 {
          return n;
        }
        restants := restants - {k};
      }
    } else if v.Tableau? {
      for i := 0 to |v.vs|
        invariant forall j :: 0 <= j < i ==> Rend(v.vs[j], nom, 0)
      {
        n := PremierParNom(v.vs[i], nom);
        if n != 0 {
          return n;
        }
      }
    }
    return 0;
  }

  /**
   The numbers other than zero that a walk may meet first: of a map, those of any of its values; of a list, those of
   the first element that has any.
   */
  ghost function Candidats(v: Valeur, nom: string): set<int>
    decreases v
  {
    match v
    case Carte(m) =>
      if nom in v.champs then {Nombre(v.champs[nom])} - {0}
      else set k, w | k in v.champs && w in Candidats(v.champs[k], nom) :: w
    case Tableau(vs) =>
      set i, w | 0 <= i < |v.vs| && w in Candidats(v.vs[i], nom) && forall j :: 0 <= j < i ==> Candidats(v.vs[j], nom) == {} :: w
    case _ => {}
  }

  /** A walk of this value gives this number exactly when it may meet it first, or, for zero, when it meets none. */
  ghost predicate Trouve(v: Valeur, nom: string, n: int) {
    && (Rend(v, nom, n) <==> n in Candidats(v, nom) || (n == 0 && Candidats(v, nom) == {}))
    && 0 !in Candidats(v, nom)
  }

  /** The walk gives a number it may meet first, any of them, and zero exactly when there is none. */
  lemma {:induction false} WalkFindsWhatIsThere(v: Valeur, nom: string, n: int)
    ensures Rend(v, nom, n) <==> n in Candidats(v, nom) || (n == 0 && Candidats(v, nom) == {})
    ensures 0 !in Candidats(v, nom)
    decreases v
  {
    match v
    case Carte(m) =>
      if nom !in v.champs {
        forall k | k in v.champs
          ensures Trouve(v.champs[k], nom, n)
        {
          WalkFindsWhatIsThere(v.champs[k], nom, n);
        }
        MapWalk(v, nom, n);
      } else {
        var x := Nombre(v.champs[nom]);
        assert Candidats(v, nom) == if x == 0 then {} else {x};
      }
    case Tableau(vs) =>
      forall i | 0 <= i < |v.vs|
        ensures Trouve(v.vs[i], nom, n) && Trouve(v.vs[i], nom, 0)
      {
        WalkFindsWhatIsThere(v.vs[i], nom, n);
        WalkFindsWhatIsThere(v.vs[i], nom, 0);
      }
      ListWalk(v, nom, n);
    case _ =>
  }

  lemma MapWalk(v: Valeur, nom: string, n: int)
    requires v.Carte? && nom !in v.champs && forall k :: k in v.champs ==> Trouve(v.champs[k], nom, n)
    ensures Trouve(v, nom, n)
  {
    forall k | k in v.champs
      ensures Candidats(v.champs[k], nom) <= Candidats(v, nom) && 0 !in Candidats(v.champs[k], nom)
    {
      assert Trouve(v.champs[k], nom, n);
    }
    assert Candidats(v, nom) == {} <==> forall k :: k in v.champs ==> Candidats(v.champs[k], nom) == {};
  }

  lemma ListWalk(v: Valeur, nom: string, n: int)
    requires v.Tableau? && forall i :: 0 <= i < |v.vs| ==> Trouve(v.vs[i], nom, n) && Trouve(v.vs[i], nom, 0)
    ensures Trouve(v, nom, n)
  {
    NoneInAny(v, nom, |v.vs|);
    assert Candidats(v, nom) == {} <==> forall i :: 0 <= i < |v.vs| ==> Candidats(v.vs[i], nom) == {};
  }

  lemma {:induction false} NoneInAny(v: Valeur, nom: string, n: nat)
    requires v.Tableau? && n <= |v.vs|
    ensures Candidats(v, nom) == {} ==> forall i :: 0 <= i < n ==> Candidats(v.vs[i], nom) == {}
  {
    if n > 0 {
      NoneInAny(v, nom, n - 1);
      if forall i :: 0 <= i < n - 1 ==> Candidats(v.vs[i], nom) == {} {
        assert Candidats(v.vs[n - 1], nom) <= Candidats(v, nom);
      }
    }
  }

  /** Whatever the order of the keys, the walk gives one and the same number. */
  ghost predicate MemePartout(v: Valeur, nom: string) {
    forall n, p :: PeutRendre(v, nom, n) && PeutRendre(v, nom, p) ==> n == p
  }

  ghost predicate PeutRendre(v: Valeur, nom: string, n: int) {
    Rend(v, nom, n)
  }

  /** Every walk gives the same number exactly when there is at most one that it may meet first. */
  lemma SameOnEveryWalkIff(v: Valeur, nom: string)
    ensures MemePartout(v, nom) <==> |Candidats(v, nom)| <= 1
  {
    forall n
      ensures PeutRendre(v, nom, n) <==> n in Candidats(v, nom) || (n == 0 && Candidats(v, nom) == {})
    {
      WalkFindsWhatIsThere(v, nom, n);
    }
    if |Candidats(v, nom)| <= 1 {
      forall n, p | PeutRendre(v, nom, n) && PeutRendre(v, nom, p)
        ensures n == p
      {
        if n in Candidats(v, nom) && p in Candidats(v, nom) {
          SubsetCard({n, p}, Candidats(v, nom));
        }
      }
    } else {
      var n, p := TwoOf(Candidats(v, nom));
      assert PeutRendre(v, nom, n) && PeutRendre(v, nom, p);
    }
  }

  lemma TwoOf(s: set<int>) returns (n: int, p: int)
    requires |s| > 1
    ensures n in s && p in s && n != p
  {
    SubsetSize(s, {});
    n :| n in s && n !in {};
    SubsetSize(s, {n});
    p :| p in s && p !in {n};
  }

  /** Two teams' worth of numbers under one name: the walk may give either. */
  lemma OrderMayMatter()
    ensures exists v, nom :: Rend(v, nom, 1) && Rend(v, nom, 2)
  {
    var a, b := Carte(map["x" := Entier(1)]), Carte(map["x" := Entier(2)]);
    var v := Carte(map["a" := a, "b" := b]);
    assert Rend(a, "x", 1) && Rend(b, "x", 2);
    assert v.champs["a"] == a && v.champs["b"] == b;
    assert Rend(v, "x", 1) && Rend(v, "x", 2);
  }

  // ---- each player is credited once a match ----

  function CleCredit(cleMatch: string, uid: string): string {
    cleMatch + "|" + uid
  }

  /** `u` ends with a bar and `w`. */
  predicate FinitParBarre(u: string, w: string) {
    |w| < |u| && u[|u| - |w| - 1..] == "|" + w
  }

  /** What is left of `u` before that. */
  function AvantBarre(u: string, w: string): string
    requires FinitParBarre(u, w)
  {
    u[..|u| - |w| - 1]
  }

  lemma SameLengthKeys(m1: string, u1: string, m2: string, u2: string)
    requires |u1| == |u2|
    ensures CleCredit(m1, u1) == CleCredit(m2, u2) <==> m1 == m2 && u1 == u2
  {
    var k1, k2 := CleCredit(m1, u1), CleCredit(m2, u2);
    if k1 == k2 {
      assert |m1| == |m2|;
      assert m1 == k1[..|m1|] && m2 == k2[..|m2|] && u1 == k1[|m1| + 1..] && u2 == k2[|m2| + 1..];
    }
  }

  lemma LongerIdKeys(m1: string, u1: string, m2: string, u2: string)
    requires |u1| > |u2|
    ensures CleCredit(m1, u1) == CleCredit(m2, u2) <==> FinitParBarre(u1, u2) && m2 == m1 + "|" + AvantBarre(u1, u2)
  {
    var k1, k2 := CleCredit(m1, u1), CleCredit(m2, u2);
    var d := |u1| - |u2| - 1;
    if k1 == k2 {
      assert |m2| == |m1| + 1 + d;
      assert u1 == k1[|m1| + 1..] && m2 == k2[..|m2|] && "|" + u2 == k2[|m2|..];
      assert u1[d..] == k1[|m1| + 1 + d..] && u1[..d] == k1[|m1| + 1..][..d];
      assert m2 == k1[..|m1| + 1 + d] == m1 + "|" + u1[..d];
    }
    if FinitParBarre(u1, u2) && m2 == m1 + "|" + AvantBarre(u1, u2) {
      assert u1 == u1[..d] + ("|" + u2);
      assert k2 == m1 + "|" + (u1[..d] + ("|" + u2));
    }
  }

  /** Two credits share a key exactly when they are the same, or one id ends with a bar and the other's. */
  lemma KeysClashIff(m1: string, u1: string, m2: string, u2: string)
    ensures CleCredit(m1, u1) == CleCredit(m2, u2) <==>
            || (m1 == m2 && u1 == u2)
            || (FinitParBarre(u1, u2) && m2 == m1 + "|" + AvantBarre(u1, u2))
            || (FinitParBarre(u2, u1) && m1 == m2 + "|" + AvantBarre(u2, u1))
  {
    if |u1| == |u2| {
      SameLengthKeys(m1, u1, m2, u2);
    } else if |u1| > |u2| {
      LongerIdKeys(m1, u1, m2, u2);
    } else {
      LongerIdKeys(m2, u2, m1, u1);
    }
  }

  predicate Confondus(u: string, w: string) {
    FinitParBarre(u, w) || FinitParBarre(w, u)
  }

  /** Two players can share a key in some pair of matches exactly when one id ends with a bar and the other. */
  lemma PlayersClashIff(u1: string, u2: string)
    requires u1 != u2
    ensures (exists m1, m2 :: CleCredit(m1, u1) == CleCredit(m2, u2)) <==> Confondus(u1, u2)
  {
    forall m1, m2 | CleCredit(m1, u1) == CleCredit(m2, u2)
      ensures Confondus(u1, u2)
    {
      KeysClashIff(m1, u1, m2, u2);
    }
    if Confondus(u1, u2) {
      var m1, m2 := ClashingMatches("", u1, u2);
    }
  }

  lemma ClashingMatches(m: string, u1: string, u2: string) returns (m1: string, m2: string)
    requires Confondus(u1, u2)
    ensures CleCredit(m1, u1) == CleCredit(m2, u2) && m1 != m2 && (m1 == m || m2 == m)
  {
    if FinitParBarre(u1, u2) {
      m1, m2 := m, m + "|" + AvantBarre(u1, u2);
    } else {
      m1, m2 := m + "|" + AvantBarre(u2, u1), m;
    }
    KeysClashIff(m1, u1, m2, u2);
    assert |m1| != |m2|;
  }

  /** A credit key tells the match and the player, unless one id ends with a bar and the other. */
  lemma KeyTellsMatchAndPlayer(m1: string, u1: string, m2: string, u2: string)
    requires !Confondus(u1, u2)
    ensures CleCredit(m1, u1) == CleCredit(m2, u2) <==> m1 == m2 && u1 == u2
  {
    KeysClashIff(m1, u1, m2, u2);
  }

  /** What crediting one player makes of the log: nothing if the key is marked. */
  ghost function ApresJoueur(cs: seq<Credit>, c: Credit): seq<Credit> {
    if CleCredit(c.cleMatch, c.uid) in Cles(cs) then cs else cs + [c]
  }

  ghost predicate Credite(cs: seq<Credit>, cleMatch: string, uid: string) {
    exists i :: 0 <= i < |cs| && cs[i].cleMatch == cleMatch && cs[i].uid == uid
  }

  /** Two such players lose a credit: in some pair of matches, the second is never credited for its own. */
  lemma BarHidesACredit(u1: string, u2: string, g: Gain) returns (m1: string, m2: string)
    requires u1 != u2 && Confondus(u1, u2)
    ensures var cs := ApresJoueur([], Credit(m1, u1, g));
            && cs == [Credit(m1, u1, g)] && ApresJoueur(cs, Credit(m2, u2, g)) == cs && !Credite(cs, m2, u2)
  {
    m1, m2 := ClashingMatches("m", u1, u2);
    assert Credit(m1, u1, g) in [Credit(m1, u1, g)];
  }

  /** Among these players, a mark always means a credit. */
  ghost predicate MarquesFideles(joueurs: set<string>) {
    forall cs, m, u :: u in joueurs && Entre(cs, joueurs) ==> (MarqueDans(cs, m, u) <==> Credite(cs, m, u))
  }

  ghost predicate Entre(cs: seq<Credit>, joueurs: set<string>) {
    forall i :: 0 <= i < |cs| ==> cs[i].uid in joueurs
  }

  ghost predicate MarqueDans(cs: seq<Credit>, cleMatch: string, uid: string) {
    CleCredit(cleMatch, uid) in Cles(cs)
  }

  /** Over all logs of some players, marks and credits agree exactly when no id ends with a bar and another's. */
  lemma MarksMeanCreditsIff(joueurs: set<string>)
    ensures MarquesFideles(joueurs) <==> forall u, w :: u in joueurs && w in joueurs ==> !Confondus(u, w)
  {
    if forall u, w :: u in joueurs && w in joueurs ==> !Confondus(u, w) {
      forall cs, m, u | u in joueurs && Entre(cs, joueurs)
        ensures MarqueDans(cs, m, u) <==> Credite(cs, m, u)
      {
        MarkMeansCredit(cs, m, u);
      }
    }
    forall u, w | u in joueurs && w in joueurs && Confondus(u, w)
      ensures !MarquesFideles(joueurs)
    {
      MarkWithoutCredit(joueurs, u, w);
    }
  }

  lemma MarkMeansCredit(cs: seq<Credit>, cleMatch: string, uid: string)
    requires forall i :: 0 <= i < |cs| ==> !Confondus(cs[i].uid, uid)
    ensures MarqueDans(cs, cleMatch, uid) <==> Credite(cs, cleMatch, uid)
  {
    forall i | 0 <= i < |cs|
      ensures CleCredit(cs[i].cleMatch, cs[i].uid) == CleCredit(cleMatch, uid) <==> cs[i].cleMatch == cleMatch && cs[i].uid == uid
      ensures CleCredit(cs[i].cleMatch, cs[i].uid) in Cles(cs)
    {
      KeyTellsMatchAndPlayer(cs[i].cleMatch, cs[i].uid, cleMatch, uid);
      assert cs[i] in cs;
    }
    if MarqueDans(cs, cleMatch, uid) {
      var c :| c in cs && CleCredit(c.cleMatch, c.uid) == CleCredit(cleMatch, uid);
      var i :| 0 <= i < |cs| && cs[i] == c;
    }
  }

  lemma MarkWithoutCredit(joueurs: set<string>, u: string, w: string)
    requires u in joueurs && w in joueurs && Confondus(u, w)
    ensures !MarquesFideles(joueurs)
  {
    var g := Gain(0, 0, 0, 0, 0, 0, 0, 0, "", "", "");
    var m1, m2 := BarHidesACredit(u, w, g);
    var cs := [Credit(m1, u, g)];
    assert cs[0] in cs && Entre(cs, joueurs);
    assert MarqueDans(cs, m2, w) && !Credite(cs, m2, w);
  }

  ghost function Cles(cs: seq<Credit>): set<string> {
    set c | c in cs :: CleCredit(c.cleMatch, c.uid)
  }

  /** No two credits of one player for one match. */
  ghost predicate UneFois(cs: seq<Credit>) {
    forall i, j :: 0 <= i < j < |cs| ==> CleCredit(cs[i].cleMatch, cs[i].uid) != CleCredit(cs[j].cleMatch, cs[j].uid)
  }

  /** A player whose key is marked was credited for that match, by exactly one credit. */
  lemma CreditedExactlyOnce(cs: seq<Credit>, cleMatch: string, uid: string)
    requires UneFois(cs) && forall i :: 0 <= i < |cs| ==> !Confondus(cs[i].uid, uid)
    ensures CleCredit(cleMatch, uid) in Cles(cs) <==> Credite(cs, cleMatch, uid)
    ensures forall i, j :: 0 <= i < |cs| && 0 <= j < |cs| && cs[i].cleMatch == cs[j].cleMatch && cs[i].uid == cs[j].uid ==> i == j
  {
    MarkMeansCredit(cs, cleMatch, uid);
  }

  ghost function GainDe(commun: Gain, entree: Valeur): Gain {
    commun.(oeufsOr := SommeParNom(entree, "golden_ikura_num"), oeufs := SommeParNom(entree, "ikura_num"),
            sauvetages := SommeParNom(entree, "rescue_num"))
  }

  /** Which names of a player's entry feed which figures; what the shift's players have in common is not touched. */
  lemma FiguresOfAnEntry(commun: Gain, a: int, b: int, c: int, x: string, y: string, z: string)
    requires x == "golden_ikura_num" && y == "ikura_num" && z == "rescue_num"
    ensures var entree := Carte(map[x := Entier(a), y := Entier(b), z := Entier(c)]);
            GainDe(commun, entree) == Gain(a, b, c, commun.boss, commun.vagues, commun.orLivre, commun.gradePt, commun.grade,
                                           commun.shiftID, commun.shiftTime, commun.typeQuart)
  {
    var m: Champs := map[x := Entier(a), y := Entier(b), z := Entier(c)];
    assert x[0] == 'g' && y[0] == 'i' && z[0] == 'r';
    ThreeNames(m, x, y, z);
    ThreeNames(m, y, x, z);
    ThreeNames(m, z, x, y);
  }

  lemma ThreeNames(m: Champs, x: string, y: string, z: string)
    requires m.Keys == {x, y, z} && x != y && y != z && x != z && m[x].Entier? && m[y].Entier? && m[z].Entier?
    ensures SommeParNom(Carte(m), x) == m[x].i
  {
    var v := Carte(m);
    var f := Terme(v, x);
    SumOfTerms(v, x);
    TakeOut(v.champs.Keys, f, x);
    AllZero(v.champs.Keys - {x}, f);
  }

  /** `s` up to its first '-', if that is not at the very start. */
  function AvantTiret(s: string): string {
    var i := Tiret(s, 0);
    if 0 < i < |s| then s[..i] else s
  }

  function Tiret(s: string, i: nat): (r: nat)
    requires i <= |s|
    ensures i <= r <= |s| && (forall j :: i <= j < r ==> s[j] != '-') && (r < |s| ==> s[r] == '-')
    decreases |s| - i
  {
    if i == |s| || s[i] == '-' then i else Tiret(s, i + 1)
  }

  /** The shift a verdict belongs to: its shift id, or the beginning of its shift time. */
  function CreneauDe(shiftID: string, shiftTime: string): string {
    var s := AvantTiret(shiftID);
    if s == "" && 0 < Tiret(shiftTime, 0) < |shiftTime| then shiftTime[..Tiret(shiftTime, 0)] else s
  }

  /** A shift id runs up to its first dash; one without a dash, or that starts with one, is taken whole. */
  lemma CutAtTheDash(s: string, a: string, b: string)
    ensures s == a + "-" + b && '-' !in a && a != "" ==> AvantTiret(s) == a
    ensures '-' !in s || (s != "" && s[0] == '-') ==> AvantTiret(s) == s
  {
    if s == a + "-" + b && '-' !in a {
      assert s[|a|] == '-' && forall j :: 0 <= j < |a| ==> s[j] == a[j];
      assert Tiret(s, 0) == |a|;
      assert s[..|a|] == a;
    }
  }

  /** The shift's id comes first; only without one does the beginning of its time stand for it. */
  lemma ShiftOfAVerdict(shiftID: string, shiftTime: string, a: string, b: string)
    ensures shiftID != "" ==> CreneauDe(shiftID, shiftTime) == AvantTiret(shiftID) != ""
    ensures shiftID == "" && shiftTime == a + "-" + b && '-' !in a && a != "" ==> CreneauDe(shiftID, shiftTime) == a
    ensures shiftID == "" && ('-' !in shiftTime || shiftTime[0] == '-') ==> CreneauDe(shiftID, shiftTime) == ""
  {
    CutAtTheDash(shiftTime, a, b);
    if shiftID == "" && shiftTime == a + "-" + b && '-' !in a && a != "" {
      assert shiftTime[|a|] == '-';
    }
  }

  class CartesDePoints {
    const n: Noms
    var deja: set<string>
    var docs: Docs
    ghost const depart: Docs
    ghost var credits: seq<Credit>

    /** The documents are what the log of credits makes of those at the start, and the log repeats nothing. */
    ghost predicate Valid()
      reads this
    {
      docs == ApresCredits(depart, n, credits) && deja == Cles(credits) && UneFois(credits)
    }

    constructor (docs: Docs)
      ensures Valid() && credits == [] && depart == docs && this.docs == docs && n == NomsDuServeur()
    {
      n := NomsDuServeur();
      this.docs, depart := docs, docs;
      deja, credits := {}, [];
    }

    method QuartDejaCredite(cleMatch: string, uid: string) returns (r: bool)
      modifies this`deja
      ensures r <==> CleCredit(cleMatch, uid) in old(deja)
      ensures deja == old(deja) + {CleCredit(cleMatch, uid)}
    {
      var k := cleMatch + "|" + uid;
      if k in deja {
        assert deja + {k} == deja;
        return true;
      }
      deja := deja + {k};
      return false;
    }

    method CrediterCartesDePoints(uid: string, g: Gain)
      requires uid != ""
      modifies this`docs
      ensures docs == ApresCredit(old(docs), n, uid, g)
    {
      var nomT := n.total(uid);
      docs := docs[nomT := CarteTotale(DocDe(docs, nomT), g)];
      if g.shiftID == "" {
        return;
      }
      var nomC := n.creneau(uid, g.shiftID);
      docs := docs[nomC := CarteCreneau(DocDe(docs, nomC), g)];
    }

    /** One player of a verdict, if the match has not been credited to it yet. */
    method CrediterJoueur(cleMatch: string, uid: string, entree: Valeur, commun: Gain)
      requires Valid() && uid != ""
      modifies this
      ensures Valid() && CleCredit(cleMatch, uid) in deja
      ensures credits == ApresJoueur(old(credits), Credit(cleMatch, uid, GainDe(commun, entree)))
    {
      var fait := QuartDejaCredite(cleMatch, uid);
      if fait {
        assert old(deja) + {CleCredit(cleMatch, uid)} == old(deja);
        return;
      }
      var or := SommerParNom(entree, "golden_ikura_num");
      var oeufs := SommerParNom(entree, "ikura_num");
      var sauvetages := SommerParNom(entree, "rescue_num");
      var g := commun.(oeufsOr := or, oeufs := oeufs, sauvetages := sauvetages);
      CrediterCartesDePoints(uid, g);
      var c := Credit(cleMatch, uid, g);
      OneMoreCredit(credits, c);
      credits := credits + [c];
    }

    /** A verdict credits every player it names that was not credited for this match, and nobody else. */
    method CrediterQuartCoop(cleMatch: string, perso: map<string, Valeur>, commun: Gain, uidParSession: string -> string)
      requires Valid()
      modifies this
      ensures Valid() && old(credits) <= credits
      ensures TousCredites(perso.Keys, cleMatch, uidParSession, deja)
      ensures CreditsDuVerdict(credits[|old(credits)|..], cleMatch, perso, commun, uidParSession)
    {
      var restants := perso.Keys;
      ghost var avant := credits;
      while restants != {}
        invariant restants <= perso.Keys && Valid() && avant <= credits
        invariant TousCredites(perso.Keys - restants, cleMatch, uidParSession, deja)
        invariant CreditsDuVerdict(credits[|avant|..], cleMatch, perso, commun, uidParSession)
        decreases restants
      {
        var s :| s in restants;
        var uid := uidParSession(s);
        if uid != "" {
          ghost var cs := credits;
          CrediterJoueur(cleMatch, uid, perso[s], commun);
          KeysGrow(cs, credits);
          OneMoreOfTheVerdict(avant, cs, credits, cleMatch, perso, commun, uidParSession, s);
        }
        restants := restants - {s};
      }
    }
  }

  ghost predicate TousCredites(sessions: set<string>, cleMatch: string, uidParSession: string -> string, deja: set<string>) {
    forall s :: s in sessions ==> uidParSession(s) == "" || CleCredit(cleMatch, uidParSession(s)) in deja
  }

  ghost predicate CreditsDuVerdict(cs: seq<Credit>, cleMatch: string, perso: map<string, Valeur>, commun: Gain, uidParSession: string -> string) {
    forall i :: 0 <= i < |cs| ==> CreditDuVerdict(cs[i], cleMatch, perso, commun, uidParSession)
  }

  lemma OneMoreOfTheVerdict(avant: seq<Credit>, cs: seq<Credit>, ds: seq<Credit>, cleMatch: string, perso: map<string, Valeur>,
                            commun: Gain, uidParSession: string -> string, s: string)
    requires avant <= cs && s in perso && uidParSession(s) != ""
    requires CreditsDuVerdict(cs[|avant|..], cleMatch, perso, commun, uidParSession)
    requires ds == cs || ds == cs + [Credit(cleMatch, uidParSession(s), GainDe(commun, perso[s]))]
    ensures CreditsDuVerdict(ds[|avant|..], cleMatch, perso, commun, uidParSession)
  {
  }

  /** A verdict repeated after all its players were credited adds nothing. */
  lemma RepeatedVerdictAddsNothing(cs: seq<Credit>, ds: seq<Credit>, cleMatch: string, perso: map<string, Valeur>,
                                   commun: Gain, uidParSession: string -> string)
    requires cs <= ds && UneFois(ds) && CreditsDuVerdict(ds[|cs|..], cleMatch, perso, commun, uidParSession)
    requires TousCredites(perso.Keys, cleMatch, uidParSession, Cles(cs))
    ensures ds == cs
  {
    assert forall i :: |cs| <= i < |ds| ==> ds[i] == ds[|cs|..][i - |cs|];
    if |ds| > |cs| {
      VerdictKeysAreKnown(ds[|cs|], cleMatch, perso, commun, uidParSession, Cles(cs));
    }
  }

  lemma VerdictKeysAreKnown(c: Credit, cleMatch: string, perso: map<string, Valeur>, commun: Gain,
                            uidParSession: string -> string, deja: set<string>)
    requires CreditDuVerdict(c, cleMatch, perso, commun, uidParSession) && TousCredites(perso.Keys, cleMatch, uidParSession, deja)
    ensures CleCredit(c.cleMatch, c.uid) in deja
  {
  }

  /** A credit that one player's entry of the verdict accounts for. */
  ghost predicate CreditDuVerdict(c: Credit, cleMatch: string, perso: map<string, Valeur>, commun: Gain, uidParSession: string -> string) {
    c.cleMatch == cleMatch && c.uid != "" && exists s :: s in perso && uidParSession(s) == c.uid && c.gain == GainDe(commun, perso[s])
  }

  lemma OneMoreCredit(cs: seq<Credit>, c: Credit)
    requires UneFois(cs) && CleCredit(c.cleMatch, c.uid) !in Cles(cs)
    ensures UneFois(cs + [c]) && Cles(cs + [c]) == Cles(cs) + {CleCredit(c.cleMatch, c.uid)}
    ensures (cs + [c])[..|cs|] == cs
  {
  }

  lemma KeysGrow(cs: seq<Credit>, ds: seq<Credit>)
    requires cs <= ds
    ensures Cles(cs) <= Cles(ds)
  {
  }

  /** What the players of a shift have in common, read from the verdict. */
  method LireCommun(equipe: Valeur, shiftID: string, shiftTime: string, typeQuart: string, challenge: int) returns (g: Gain)
    ensures g.shiftID == CreneauDe(shiftID, shiftTime) && g.shiftTime == shiftTime && g.typeQuart == typeQuart
    ensures g.orLivre == SommeParNom(equipe, "delivered_golden_ikura_num")
    ensures Rend(equipe, "final_wave", g.vagues) || (Rend(equipe, "final_wave", 0) && Rend(equipe, "total_clear_wave", g.vagues))
    ensures Rend(equipe, "total_grade_point", g.gradePt) || (Rend(equipe, "total_grade_point", 0) && g.gradePt == challenge)
    ensures Rend(equipe, "grade", g.grade) && Rend(equipe, "did_defeat_boss", g.boss)
  {
    var vagues := PremierParNom(equipe, "final_wave");
    if vagues == 0 {
      vagues := PremierParNom(equipe, "total_clear_wave");
    }
    var orLivre := SommerParNom(equipe, "delivered_golden_ikura_num");
    var gradePt := PremierParNom(equipe, "total_grade_point");
    var grade := PremierParNom(equipe, "grade");
    var boss := PremierParNom(equipe, "did_defeat_boss");
    if gradePt == 0 {
      gradePt := challenge;
    }
    g := Gain(0, 0, 0, boss, vagues, orLivre, gradePt, grade, CreneauDe(shiftID, shiftTime), shiftTime, typeQuart);
  }
}
