/**
 The referee's aggregation (gamesync.go): each console reports on every player; the reports of a match are
 merged field by field, and the verdict is made of the merged entries.
 */
module Arbitrage {
  import opened Wrappers
  import opened Valeurs
  import opened Listes

  /** The merged entries of one match: player, then field. */
  type Entrees = map<string, Champs>

  /** The fields of a map value; none for any other value. */
  function ChampsDe(v: Valeur): Champs {
    if v.Carte? then v.champs else map[]
  }

  /** What one report makes of the entries of its match: an empty entry is ignored. */
  function ApresRapport(m: Entrees, src: Champs): Entrees {
    map j | j in m.Keys + src.Keys && (j in m || ChampsDe(src[j]) != map[]) ::
      (if j in m then m[j] else map[]) + (if j in src then ChampsDe(src[j]) else map[])
  }

  /** The source's loop, one player further. */
  function ApresEntree(m: Entrees, j: string, entree: Valeur): Entrees {
    if ChampsDe(entree) == map[] then m else m[j := (if j in m then m[j] else map[]) + ChampsDe(entree)]
  }

  class Rapports {
    const t: Tables
    var m: map<string, Entrees>

    constructor ()
      ensures m == map[] && t == TablesDuServeur() && TablesOk(t)
    {
      t := TablesDuServeur();
      m := map[];
      new;
      ServerTablesAreOk(t);
    }

    /** A report merges into its match, whatever the order of its entries; no other match changes. */
    method RetenirRapport(cleMatch: string, resultats: Valeur) returns (n: nat)
      modifies this`m
      ensures cleMatch == "" || ChampsDe(resultats) == map[] ==> m == old(m) && n == 0
      ensures cleMatch != "" && ChampsDe(resultats) != map[] ==>
                && m == old(m)[cleMatch := ApresRapport(if cleMatch in old(m) then old(m)[cleMatch] else map[], ChampsDe(resultats))]
                && n == |m[cleMatch]|
    {
      var src := ChampsDe(resultats);
      if cleMatch == "" || src == map[] {
        return 0;
      }
      var e := FusionnerEntrees(if cleMatch in m then m[cleMatch] else map[], src);
      m := m[cleMatch := e];
      return |e|;
    }

    /** The verdict's entries: none without a report, those of the reports in Salmon Run, completed ones otherwise. */
    method ResultatsIndividuels(cleMatch: string, vainqueur: int, coop: bool) returns (r: Option<Entrees>, n: nat)
      ensures r.None? <==> cleMatch !in m || m[cleMatch] == map[]
      ensures n == if r.Some? then |r.value| else 0
      ensures r.Some? ==> r.value.Keys == m[cleMatch].Keys
      ensures r.Some? ==> forall j :: j in m[cleMatch] ==>
                r.value[j] == EntreeDuVerdict(m[cleMatch][j], vainqueur, coop, t)
      ensures r.Some? && coop ==> r.value == m[cleMatch]
      ensures r.Some? && !coop && TablesOk(t) ==> forall j :: j in m[cleMatch] ==>
                VerdictJuste(m[cleMatch][j], vainqueur, r.value[j], t)
    {
      if TablesOk(t) {
        EveryVerdict(vainqueur, t);
      }
      if cleMatch !in m || m[cleMatch] == map[] {
        return None, 0;
      }
      var src := m[cleMatch];
      var out: Entrees := map[];
      var restants := src.Keys;
      while restants != {}
        invariant restants <= src.Keys && out.Keys == src.Keys - restants
        invariant forall j :: j in out ==> out[j] == EntreeDuVerdict(src[j], vainqueur, coop, t)
        decreases restants
      {
        var joueur :| joueur in restants;
        var champs := src[joueur];
        if !coop {
          champs := CompleterEntree(champs, vainqueur, t);
        }
        assert champs == EntreeDuVerdict(src[joueur], vainqueur, coop, t);
        out := out[joueur := champs];
        restants := restants - {joueur};
      }
      return Some(out), |out|;
    }
  }

  method FusionnerEntrees(avant: Entrees, src: Champs) returns (e: Entrees)
    ensures e == ApresRapport(avant, src)
  {
    e := avant;
    var restants := src.Keys;
    while restants != {}
      invariant restants <= src.Keys && Fusionnes(avant, e, src, src.Keys - restants)
      decreases restants
    {
      var joueur :| joueur in restants;
      OneMorePlayer(avant, e, src, src.Keys - restants, joueur);
      var champs := ChampsDe(src[joueur]);
      if champs != map[] {
        var fusion: Champs := if joueur in e then e[joueur] else map[];
        fusion := fusion + champs;
        e := e[joueur := fusion];
      }
      assert src.Keys - (restants - {joueur}) == (src.Keys - restants) + {joueur};
      restants := restants - {joueur};
    }
    AllPlayers(avant, e, src);
  }

  /** Entries merged for these players only. */
  ghost predicate Fusionnes(avant: Entrees, e: Entrees, src: Champs, faits: set<string>) {
    && (forall j :: j in e <==> j in avant || (j in faits && j in src && ChampsDe(src[j]) != map[]))
    && (forall j :: j in e ==>
          e[j] == (if j in avant then avant[j] else map[]) + (if j in faits && j in src then ChampsDe(src[j]) else map[]))
  }

  lemma OneMorePlayer(avant: Entrees, e: Entrees, src: Champs, faits: set<string>, j: string)
    requires Fusionnes(avant, e, src, faits) && j in src && j !in faits
    ensures Fusionnes(avant, ApresEntree(e, j, src[j]), src, faits + {j})
  {
    var vide: Champs := map[];
    forall c: Champs
      ensures c + vide == c
    {
    }
  }

  lemma AllPlayers(avant: Entrees, e: Entrees, src: Champs)
    requires Fusionnes(avant, e, src, src.Keys - {})
    ensures e == ApresRapport(avant, src)
  {
  }

  // ---- the last report to carry a field wins ----

  datatype Rapport = Rapport(cle: string, resultats: Valeur)

  /** What the class holds for a match after these reports. */
  function ApresRapports(rs: seq<Rapport>, cle: string): Entrees {
    if rs == [] then map[]
    else
      var avant := ApresRapports(rs[..|rs| - 1], cle);
      var r := rs[|rs| - 1];
      if r.cle == cle != "" then ApresRapport(avant, ChampsDe(r.resultats)) else avant
  }

  /** What a report says of a player's field. */
  function ChampDuRapport(r: Rapport, joueur: string, f: string): Option<Valeur> {
    LuEn(r.resultats, [Cle(joueur), Cle(f)])
  }

  /** The same, as the merge looks for it. */
  lemma FieldOfReport(r: Rapport, joueur: string, f: string)
    ensures var src := ChampsDe(r.resultats);
            ChampDuRapport(r, joueur, f) ==
            if joueur in src && f in ChampsDe(src[joueur]) then Some(ChampsDe(src[joueur])[f]) else None
  {
    var acces := [Cle(joueur), Cle(f)];
    assert acces[1..] == [Cle(f)] && [Cle(f)][1..] == [];
    if r.resultats.Carte? && joueur in r.resultats.champs {
      var entree := r.resultats.champs[joueur];
      assert LuEn(r.resultats, acces) == LuEn(entree, [Cle(f)]);
      assert entree.Carte? && f in entree.champs ==> LuEn(entree, [Cle(f)]) == LuEn(entree.champs[f], []);
    }
  }

  function DernierRapport(rs: seq<Rapport>, cle: string, joueur: string, f: string): Option<Valeur> {
    if rs == [] then None
    else
      var r := rs[|rs| - 1];
      if r.cle == cle != "" && ChampDuRapport(r, joueur, f).Some? then ChampDuRapport(r, joueur, f)
      else DernierRapport(rs[..|rs| - 1], cle, joueur, f)
  }

  function ChampDe(m: Entrees, joueur: string, f: string): Option<Valeur> {
    if joueur in m && f in m[joueur] then Some(m[joueur][f]) else None
  }

  /** Each player's field holds the value of the last report that carried it. */
  lemma {:induction false} LastReportWins(rs: seq<Rapport>, cle: string, joueur: string, f: string)
    ensures ChampDe(ApresRapports(rs, cle), joueur, f) == DernierRapport(rs, cle, joueur, f)
  {
    if rs != [] {
      LastReportWins(rs[..|rs| - 1], cle, joueur, f);
      FieldOfReport(rs[|rs| - 1], joueur, f);
    }
  }

  /** No report makes a player or a field disappear. */
  lemma {:induction false} NothingIsForgotten(rs: seq<Rapport>, n: nat, cle: string, joueur: string, f: string)
    requires n <= |rs|
    ensures joueur in ApresRapports(rs[..n], cle) ==> joueur in ApresRapports(rs, cle)
    ensures ChampDe(ApresRapports(rs[..n], cle), joueur, f).Some? ==> ChampDe(ApresRapports(rs, cle), joueur, f).Some?
    decreases |rs|
  {
    if n < |rs| {
      assert rs[..|rs| - 1][..n] == rs[..n];
      NothingIsForgotten(rs[..|rs| - 1], n, cle, joueur, f);
    } else {
      assert rs[..n] == rs;
    }
  }

  /** The report of this match says something of the player. */
  predicate Dit(r: Rapport, cle: string, joueur: string) {
    && r.cle == cle != "" && r.resultats.Carte? && joueur in r.resultats.champs
    && r.resultats.champs[joueur].Carte? && r.resultats.champs[joueur].champs != map[]
  }

  /** A player is in the verdict of a match exactly when some report of that match says something of the player. */
  lemma {:induction false} ReportedPlayersIff(rs: seq<Rapport>, cle: string, joueur: string)
    ensures joueur in ApresRapports(rs, cle) <==> exists i :: 0 <= i < |rs| && Dit(rs[i], cle, joueur)
  {
    if rs != [] {
      var avant := rs[..|rs| - 1];
      ReportedPlayersIff(avant, cle, joueur);
      if i :| 0 <= i < |avant| && Dit(avant[i], cle, joueur) {
        assert Dit(rs[i], cle, joueur);
      }
      if i :| 0 <= i < |rs| && Dit(rs[i], cle, joueur) {
        assert i < |avant| ==> Dit(avant[i], cle, joueur);
      }
    }
  }

  // ---- the versus verdict ----

  /** The integer counters of a report score, as doubles. */
  function EnDouble(v: Valeur): Valeur {
    match v
    case Carte(m) => Carte(map k | k in v.champs :: EnDouble(v.champs[k]))
    case Entier(i) => Flottant(i as real)
    case _ => v
  }

  /** No integer is left at any depth reached through maps. */
  ghost predicate SansEntier(v: Valeur) {
    match v
    case Entier(_) => false
    case Carte(m) => forall k :: k in v.champs ==> SansEntier(v.champs[k])
    case _ => true
  }

  lemma {:induction false} ScoresAreDoubles(v: Valeur)
    ensures SansEntier(EnDouble(v))
    ensures EnDouble(v) == v <==> SansEntier(v)
    decreases v
  {
    if v.Carte? {
      forall k | k in v.champs
        ensures SansEntier(EnDouble(v.champs[k])) && (EnDouble(v.champs[k]) == v.champs[k] <==> SansEntier(v.champs[k]))
      {
        ScoresAreDoubles(v.champs[k]);
      }
      if SansEntier(v) {
        assert EnDouble(v).champs == v.champs;
      } else {
        var k :| k in v.champs && !SansEntier(v.champs[k]);
        assert EnDouble(v).champs[k] != v.champs[k];
      }
    }
  }

  /** What is reached through these keys. */
  function Sous(v: Valeur, chemin: seq<string>): Option<Valeur>
    decreases |chemin|
  {
    if chemin == [] then Some(v)
    else if v.Carte? && chemin[0] in v.champs then Sous(v.champs[chemin[0]], chemin[1..])
    else None
  }

  /** An integer became the same number as a double; a map kept its keys, and anything else is untouched. */
  predicate Doublee(v: Valeur, w: Valeur) {
    match v
    case Entier(i) => w == Flottant(i as real)
    case Carte(m) => w.Carte? && w.champs.Keys == m.Keys
    case _ => w == v
  }

  /** At any depth of a score the same keys are there, and each counter is the same number. */
  lemma {:induction false} SameNumbersAsDoubles(v: Valeur, chemin: seq<string>)
    ensures Sous(EnDouble(v), chemin).Some? <==> Sous(v, chemin).Some?
    ensures Sous(v, chemin).Some? ==> Doublee(Sous(v, chemin).value, Sous(EnDouble(v), chemin).value)
    decreases |chemin|
  {
    if chemin != [] && v.Carte? && chemin[0] in v.champs {
      SameNumbersAsDoubles(v.champs[chemin[0]], chemin[1..]);
    }
  }

  function NomVide(): Valeur {
    Carte(map["template" := Entier(0), "unity0_tag" := Chaine(""), "unity1_tag" := Chaine(""),
              "unity2_tag" := Chaine(""), "property_tag" := Chaine(""), "group_tag" := Chaine("")])
  }

  /** The fields no console ever sends, with the values the server gives them. */
  function ChampsServeur(): seq<(string, Valeur)> {
    [("contribution", Entier(0)), ("did_get_noroshi1", Booleen(false)), ("did_get_noroshi2", Booleen(false)),
     ("noroshi_try_num", Entier(0)), ("outfit_bonus", Flottant(0.0)), ("party_ticket", Entier(0)), ("team_byname", NomVide())]
  }

  /** A value that says nothing: zero, false, an empty text, or a map of such values. */
  ghost predicate Neutre(v: Valeur) {
    match v
    case Entier(i) => i == 0
    case Flottant(r) => r == 0.0
    case Booleen(b) => !b
    case Chaine(s) => s == ""
    case Carte(m) => forall k :: k in m ==> Neutre(m[k])
    case _ => false
  }

  /** What the server says of a player on its own account is neutral: one double, two flags, one name, and integers. */
  lemma ServerFieldsAreNeutral(ds: seq<(string, Valeur)>, i: nat)
    requires ds == ChampsServeur() && i < |ds|
    ensures |ds| == 7 && Neutre(ds[i].1)
    ensures if i == 4 then ds[i].1.Flottant? else if i == 1 || i == 2 then ds[i].1.Booleen?
            else if i == 6 then ds[i].1.Carte? else ds[i].1.Entier?
  {
    if i == 6 {
      EmptyNameIsNeutral();
    } else {
      assert i == 0 || i == 1 || i == 2 || i == 3 || i == 4 || i == 5;
    }
  }

  lemma EmptyNameIsNeutral()
    ensures Neutre(NomVide())
  {
    var m := NomVide().champs;
    forall k | k in m
      ensures m[k] == Entier(0) || m[k] == Chaine("")
    {
    }
  }

  /** The fields that are there even when no console sent them, then null. */
  function ChampsFacultatifs(): seq<string> {
    ["awards", "catalog_point", "death_num", "disconnected", "display_order", "group_leader", "individual_stats",
     "kill_assist_num", "kill_num", "npln_user_id", "paint_point", "report_score", "single_ticket", "special_num", "team"]
  }

  /** The field names and default values a versus verdict is completed with. */
  datatype Tables = Tables(
    score: string, disconnected: string, verdict: string, team: string,
    defauts: seq<(string, Valeur)>, facultatifs: seq<string>)

  function TablesDuServeur(): Tables {
    Tables("report_score", "disconnected", "deemed_result", "team", ChampsServeur(), ChampsFacultatifs())
  }

  function RapportIndiqueDeconnexion(v: Valeur): bool {
    match v
    case Booleen(b) => b
    case Entier(i) => i != 0
    case Flottant(r) => r != 0.0
    case _ => false
  }

  function ResultatIndiqueDeconnexion(v: Valeur): bool {
    match v
    case Entier(i) => i == 2
    case Flottant(r) => r == 2.0
    case _ => false
  }

  /** Missing fields take these values; fields already there are kept. */
  function Defauts(champs: Champs, ds: seq<(string, Valeur)>): Champs {
    if ds == [] then champs
    else
      var r := Defauts(champs, ds[..|ds| - 1]);
      if ds[|ds| - 1].0 in r then r else r[ds[|ds| - 1].0 := ds[|ds| - 1].1]
  }

  lemma {:induction false} DefaultsOnlyFill(champs: Champs, ds: seq<(string, Valeur)>)
    ensures var r := Defauts(champs, ds);
            && (forall k :: k in champs ==> k in r && r[k] == champs[k])
            && (forall i :: 0 <= i < |ds| ==> ds[i].0 in r)
  {
    if ds != [] {
      DefaultsOnlyFill(champs, ds[..|ds| - 1]);
    }
  }

  /** A field nobody reported takes the value of the list, or stays out. */
  lemma {:induction false} MissingTakeTheirDefault(champs: Champs, ds: seq<(string, Valeur)>, k: string)
    requires k !in champs
    ensures var r := Defauts(champs, ds);
            if k in r then exists i :: 0 <= i < |ds| && ds[i] == (k, r[k]) else forall i :: 0 <= i < |ds| ==> ds[i].0 != k
  {
    if ds != [] {
      var avant := ds[..|ds| - 1];
      MissingTakeTheirDefault(champs, avant, k);
      var r := Defauts(champs, avant);
      if k in r {
        var i :| 0 <= i < |avant| && avant[i] == (k, r[k]);
        assert ds[i] == (k, r[k]);
      } else if ds[|ds| - 1].0 == k {
        assert ds[|ds| - 1] == (k, Defauts(champs, ds)[k]);
      }
    }
  }

  function Nuls(ks: seq<string>): (r: seq<(string, Valeur)>)
    ensures |r| == |ks| && forall i :: 0 <= i < |ks| ==> r[i] == (ks[i], Nul)
  {
    seq(|ks|, i requires 0 <= i < |ks| => (ks[i], Nul))
  }

  function AvecScores(champs: Champs, score: string): Champs {
    if score in champs then champs[score := EnDouble(champs[score])] else champs
  }

  /** The verdict on one player. */
  function Verdict(champs: Champs, vainqueur: int, t: Tables): Champs {
    if (t.disconnected in champs && RapportIndiqueDeconnexion(champs[t.disconnected]))
       || (t.verdict in champs && ResultatIndiqueDeconnexion(champs[t.verdict])) then champs[t.verdict := Entier(1)]
    else if t.verdict in champs then champs
    else
      var equipe := if t.team in champs && champs[t.team].Entier? then champs[t.team].i else 0;
      champs[t.verdict := Entier(if vainqueur != 0 && equipe == vainqueur then 0 else 1)]
  }

  function EntreeVersus(entree: Champs, vainqueur: int, t: Tables): Champs {
    Verdict(Defauts(Defauts(AvecScores(entree, t.score), t.defauts), Nuls(t.facultatifs)), vainqueur, t)
  }

  /** A Salmon Run entry is what the reports made it; any other is completed. */
  function EntreeDuVerdict(entree: Champs, vainqueur: int, coop: bool, t: Tables): Champs {
    if coop then entree else EntreeVersus(entree, vainqueur, t)
  }

  method Completer(champs: Champs, ds: seq<(string, Valeur)>) returns (r: Champs)
    ensures r == Defauts(champs, ds)
  {
    r := champs;
    for i := 0 to |ds|
      invariant r == Defauts(champs, ds[..i])
    {
      assert ds[..i + 1][..i] == ds[..i];
      if ds[i].0 !in r {
        r := r[ds[i].0 := ds[i].1];
      }
    }
    assert ds[..|ds|] == ds;
  }

  method CompleterEntree(entree: Champs, vainqueur: int, t: Tables) returns (champs: Champs)
    ensures champs == EntreeVersus(entree, vainqueur, t)
  {
    champs := AvecScores(entree, t.score);
    champs := Completer(champs, t.defauts);
    champs := Completer(champs, Nuls(t.facultatifs));
    champs := Verdict(champs, vainqueur, t);
  }

  lemma VerdictIsNeverADisconnect(champs: Champs, vainqueur: int, t: Tables)
    ensures var r := Verdict(champs, vainqueur, t);
            && t.verdict in r && !ResultatIndiqueDeconnexion(r[t.verdict])
            && (t.disconnected in champs && RapportIndiqueDeconnexion(champs[t.disconnected]) ==> r[t.verdict] == Entier(1))
            && forall k :: k != t.verdict ==> (k in r <==> k in champs) && (k in champs ==> r[k] == champs[k])
  {
  }

  /**
   Whatever the reports said, a versus entry has every field of the tables and a verdict that is never the
   result the game punishes as a disconnect; what they said of other fields is kept, scores as doubles.
   */
  lemma VersusEntryIsComplete(entree: Champs, vainqueur: int, t: Tables)
    ensures var r := EntreeVersus(entree, vainqueur, t);
            && (forall i :: 0 <= i < |t.defauts| ==> t.defauts[i].0 in r)
            && (forall i :: 0 <= i < |t.facultatifs| ==> t.facultatifs[i] in r)
            && t.verdict in r && !ResultatIndiqueDeconnexion(r[t.verdict])
            && (forall k :: k in entree && k != t.verdict ==> k in r && r[k] == if k == t.score then EnDouble(entree[k]) else entree[k])
  {
    var c := Defauts(Defauts(AvecScores(entree, t.score), t.defauts), Nuls(t.facultatifs));
    var b := Defauts(AvecScores(entree, t.score), t.defauts);
    DefaultsOnlyFill(AvecScores(entree, t.score), t.defauts);
    DefaultsOnlyFill(b, Nuls(t.facultatifs));
    VerdictIsNeverADisconnect(c, vainqueur, t);
    forall i | 0 <= i < |t.facultatifs|
      ensures t.facultatifs[i] in c
    {
      assert Nuls(t.facultatifs)[i].0 == t.facultatifs[i];
    }
  }

  /** The report says the player was disconnected: by a flag that is set, or by a result of 2. */
  predicate Deconnecte(entree: Champs, t: Tables) {
    || (t.disconnected in entree
        && (entree[t.disconnected] == Booleen(true)
            || (entree[t.disconnected].Entier? && entree[t.disconnected].i != 0)
            || (entree[t.disconnected].Flottant? && entree[t.disconnected].r != 0.0)))
    || (t.verdict in entree && entree[t.verdict] in {Entier(2), Flottant(2.0)})
  }

  /** The reported team is the winner's; without a winner nobody's is. */
  predicate Gagnant(entree: Champs, vainqueur: int, t: Tables) {
    vainqueur != 0 && t.team in entree && entree[t.team] == Entier(vainqueur)
  }

  /** The verdict of an entry, in terms of what was reported: 0 for the winning team, 1 for anybody else. */
  ghost predicate VerdictJuste(entree: Champs, vainqueur: int, r: Champs, t: Tables) {
    t.verdict in r &&
    r[t.verdict] ==
      if Deconnecte(entree, t) then Entier(1)
      else if t.verdict in entree then entree[t.verdict]
      else Entier(if Gagnant(entree, vainqueur, t) then 0 else 1)
  }

  /** Tables whose names are pairwise different, as the server's are. */
  ghost predicate TablesOk(t: Tables) {
    SansDoublon(Inventaire(t)) && t.team in t.facultatifs && t.disconnected in t.facultatifs && t.score in t.facultatifs
    && t.score != t.team && t.score != t.disconnected
  }

  lemma OptionalOrAbsent(champs: Champs, t: Tables, k: string)
    requires TablesOk(t) && k !in champs && (k in t.facultatifs || k == t.verdict)
    ensures var r := Defauts(Defauts(champs, t.defauts), Nuls(t.facultatifs));
            if k == t.verdict then k !in r else k in r && r[k] == Nul
  {
    var b := Defauts(champs, t.defauts);
    NotADefault(t, k);
    MissingTakeTheirDefault(champs, t.defauts, k);
    assert k !in b;
    VerdictIsNotOptional(t);
    MissingAreNull(b, t.facultatifs, k);
  }

  lemma MissingAreNull(b: Champs, ks: seq<string>, k: string)
    requires k !in b
    ensures var r := Defauts(b, Nuls(ks)); (k in r <==> k in ks) && (k in r ==> r[k] == Nul)
  {
    MissingTakeTheirDefault(b, Nuls(ks), k);
    if k in ks {
      var i :| 0 <= i < |ks| && ks[i] == k;
      assert Nuls(ks)[i].0 == k;
    }
  }

  lemma NotADefault(t: Tables, k: string)
    requires TablesOk(t) && (k in t.facultatifs || k == t.verdict)
    ensures forall i :: 0 <= i < |t.defauts| ==> t.defauts[i].0 != k
  {
    var inv := Inventaire(t);
    var d, f := |t.defauts|, |t.facultatifs|;
    var j := f;
    if k in t.facultatifs {
      j :| 0 <= j < f && t.facultatifs[j] == k;
    }
    assert inv[d + j] == k;
    forall i | 0 <= i < d
      ensures t.defauts[i].0 != k
    {
      assert inv[i] == t.defauts[i].0;
    }
  }

  lemma ReportedStays(champs: Champs, t: Tables, k: string)
    requires k in champs
    ensures var r := Defauts(Defauts(champs, t.defauts), Nuls(t.facultatifs)); k in r && r[k] == champs[k]
  {
    DefaultsOnlyFill(champs, t.defauts);
    DefaultsOnlyFill(Defauts(champs, t.defauts), Nuls(t.facultatifs));
  }

  /** What no report said: a field of the server's takes its value, an optional one is null, and no other field appears. */
  lemma MissingFieldsAreFilled(entree: Champs, vainqueur: int, t: Tables, k: string)
    requires TablesOk(t) && k !in entree && k != t.verdict
    ensures var r := EntreeVersus(entree, vainqueur, t);
            && (k in r <==> k in t.facultatifs || exists i :: 0 <= i < |t.defauts| && t.defauts[i].0 == k)
            && (k in t.facultatifs ==> k in r && r[k] == Nul)
            && forall i :: 0 <= i < |t.defauts| && t.defauts[i].0 == k ==> k in r && r[k] == t.defauts[i].1
  {
    var s := AvecScores(entree, t.score);
    var b := Defauts(s, t.defauts);
    var c := Defauts(b, Nuls(t.facultatifs));
    VerdictIsNeverADisconnect(c, vainqueur, t);
    MissingTakeTheirDefault(s, t.defauts, k);
    DefaultsOnlyFill(b, Nuls(t.facultatifs));
    DefaultNamesAreDistinct(t);
    if k in t.facultatifs {
      OptionalOrAbsent(s, t, k);
    } else if k !in b {
      MissingAreNull(b, t.facultatifs, k);
    }
  }

  lemma DefaultNamesAreDistinct(t: Tables)
    requires TablesOk(t)
    ensures forall i, j :: 0 <= i < j < |t.defauts| ==> t.defauts[i].0 != t.defauts[j].0
  {
    var inv := Inventaire(t);
    forall i, j | 0 <= i < j < |t.defauts|
      ensures t.defauts[i].0 != t.defauts[j].0
    {
      assert inv[i] == t.defauts[i].0 && inv[j] == t.defauts[j].0;
    }
  }

  /** The three fields a verdict is read from are what was reported, or null, or missing. */
  lemma ReadFromTheReport(entree: Champs, t: Tables, k: string)
    requires TablesOk(t) && (k == t.verdict || k == t.team || k == t.disconnected)
    ensures var c := Defauts(Defauts(AvecScores(entree, t.score), t.defauts), Nuls(t.facultatifs));
            if k in entree then k in c && c[k] == entree[k]
            else if k == t.verdict then k !in c
            else k in c && c[k] == Nul
  {
    var s := AvecScores(entree, t.score);
    ScoreIsNotTheVerdict(t);
    if k in entree {
      ReportedStays(s, t, k);
    } else {
      OptionalOrAbsent(s, t, k);
      VerdictIsNotOptional(t);
    }
  }

  lemma VerdictIsNotOptional(t: Tables)
    requires TablesOk(t)
    ensures t.verdict !in t.facultatifs
  {
    var inv := Inventaire(t);
    assert inv[|t.defauts| + |t.facultatifs|] == t.verdict;
    assert forall i :: 0 <= i < |t.facultatifs| ==> inv[|t.defauts| + i] == t.facultatifs[i];
  }

  lemma ScoreIsNotTheVerdict(t: Tables)
    requires TablesOk(t)
    ensures t.score != t.verdict
  {
    VerdictIsNotOptional(t);
  }

  /**
   A player who is not reported disconnected leaves with the reported result, or else with 0 exactly when there is a
   winner and it is the player's team, and with 1 otherwise; a disconnect is a defeat.
   */
  lemma VerdictOfTheReport(entree: Champs, vainqueur: int, t: Tables)
    requires TablesOk(t)
    ensures VerdictJuste(entree, vainqueur, EntreeVersus(entree, vainqueur, t), t)
  {
    ReadFromTheReport(entree, t, t.verdict);
    ReadFromTheReport(entree, t, t.team);
    ReadFromTheReport(entree, t, t.disconnected);
  }

  lemma EveryVerdict(vainqueur: int, t: Tables)
    requires TablesOk(t)
    ensures forall entree: Champs :: VerdictJuste(entree, vainqueur, EntreeVersus(entree, vainqueur, t), t)
  {
    forall entree: Champs
      ensures VerdictJuste(entree, vainqueur, EntreeVersus(entree, vainqueur, t), t)
    {
      VerdictOfTheReport(entree, vainqueur, t);
    }
  }

  lemma ServerTablesAreOk(t: Tables)
    requires t == TablesDuServeur()
    ensures TablesOk(t)
  {
    FieldNamesAreDistinct(t);
    var f := t.facultatifs;
    assert f[3] == t.disconnected && f[11] == t.score && f[14] == t.team;
    var inv, d := Inventaire(t), |t.defauts|;
    assert inv[d + 3] == t.disconnected && inv[d + 11] == t.score && inv[d + 14] == t.team;
  }

  /** The names the server completes an entry with, its verdict included. */
  function Inventaire(t: Tables): (r: seq<string>)
    ensures |r| == |t.defauts| + |t.facultatifs| + 1
  {
    seq(|t.defauts|, i requires 0 <= i < |t.defauts| => t.defauts[i].0) + t.facultatifs + [t.verdict]
  }

  /** Twenty-three fields, all of them there for every player of a versus verdict. */
  lemma AllTwentyThreeFields(entree: Champs, vainqueur: int, t: Tables, k: nat)
    requires t == TablesDuServeur() && k < |Inventaire(t)|
    ensures |Inventaire(t)| == 23 && Inventaire(t)[k] in EntreeVersus(entree, vainqueur, t)
  {
    VersusEntryIsComplete(entree, vainqueur, t);
    var d, f := |t.defauts|, |t.facultatifs|;
    assert k < d ==> Inventaire(t)[k] == t.defauts[k].0;
    assert d <= k < d + f ==> Inventaire(t)[k] == t.facultatifs[k - d];
  }

  /** The length and the two ends of a name. */
  function Empreinte(s: string): int {
    if s == "" then 0 else |s| * 100000 + (s[0] as int) * 200 + (s[|s| - 1] as int)
  }

  /**
   The same numbers written out for the twenty-three names, in the order of the inventory: 1219910 is a name of twelve
   letters from 'c' (99) to 'n' (110). They are pairwise different, where some lengths and some ends are not.
   */
  function EmpreintesDuServeur(): seq<int> {
    [1219910, 1620049, 1620050, 1522109, 1222315, 1222516, 1123301, 619515, 1319916, 920109, 1220100, 1320114, 1220714, 1621115, 1521509, 821509, 1222100, 1122516, 1222901, 1323116, 1123109, 423309, 1320116]
  }

  lemma PrintsOfDefaults(d: seq<(string, Valeur)>)
    requires d == ChampsServeur()
    ensures |d| == 7 && forall i :: 0 <= i < 7 ==> Empreinte(d[i].0) == EmpreintesDuServeur()[i]
  {
    var e := EmpreintesDuServeur();
    assert Empreinte(d[0].0) == e[0] && Empreinte(d[1].0) == e[1] && Empreinte(d[2].0) == e[2] && Empreinte(d[3].0) == e[3];
    assert Empreinte(d[4].0) == e[4] && Empreinte(d[5].0) == e[5] && Empreinte(d[6].0) == e[6];
  }

  lemma PrintsOfOptional(f: seq<string>)
    requires f == ChampsFacultatifs()
    ensures |f| == 15 && forall i :: 0 <= i < 15 ==> Empreinte(f[i]) == EmpreintesDuServeur()[7 + i]
  {
    var e := EmpreintesDuServeur();
    assert Empreinte(f[0]) == e[7] && Empreinte(f[1]) == e[8] && Empreinte(f[2]) == e[9] && Empreinte(f[3]) == e[10];
    assert Empreinte(f[4]) == e[11] && Empreinte(f[5]) == e[12] && Empreinte(f[6]) == e[13] && Empreinte(f[7]) == e[14];
    assert Empreinte(f[8]) == e[15] && Empreinte(f[9]) == e[16] && Empreinte(f[10]) == e[17] && Empreinte(f[11]) == e[18];
    assert Empreinte(f[12]) == e[19] && Empreinte(f[13]) == e[20] && Empreinte(f[14]) == e[21];
  }

  lemma PrintOfVerdict(v: string)
    requires v == "deemed_result"
    ensures Empreinte(v) == EmpreintesDuServeur()[22]
  {
  }

  lemma EachPrint(t: Tables, k: nat)
    requires t == TablesDuServeur() && k < 23
    ensures |Inventaire(t)| == 23 && Empreinte(Inventaire(t)[k]) == EmpreintesDuServeur()[k]
  {
    PrintsOfDefaults(t.defauts);
    PrintsOfOptional(t.facultatifs);
    PrintOfVerdict(t.verdict);
    assert k < 7 ==> Inventaire(t)[k] == t.defauts[k].0;
    assert 7 <= k < 22 ==> Inventaire(t)[k] == t.facultatifs[k - 7];
  }

  lemma PrintsAreDistinct(i: nat, j: nat)
    requires i < j < 23
    ensures EmpreintesDuServeur()[i] != EmpreintesDuServeur()[j]
  {
  }

  /** The twenty-three names are twenty-three fields. */
  lemma FieldNamesAreDistinct(t: Tables)
    requires t == TablesDuServeur()
    ensures |Inventaire(t)| == 23 && SansDoublon(Inventaire(t))
  {
    forall i, j | 0 <= i < j < 23
      ensures Inventaire(t)[i] != Inventaire(t)[j]
    {
      EachPrint(t, i);
      EachPrint(t, j);
      PrintsAreDistinct(i, j);
    }
  }
}
