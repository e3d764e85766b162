/**
 One process of the document protocol as the code has it: a memory under a lock, document files named
 by a 40-character key, and a byte journal read from a byte offset (ugcstore.go, ugcstore_runquery.go).
 Each method run alone is one of the runs of `DocumentJournal`.
 */
module DocumentStore {
  import opened Wrappers
  import opened Texte
  import J = DocumentJournal

  const SAUT: Octet := 10
  const LONGUEUR_CLE := 40

  // ---- journal bytes ----

  function PremierSaut(b: Octets): (i: nat)
    ensures i <= |b| && SAUT !in b[..i] && (i < |b| ==> b[i] == SAUT)
  {
    if b == [] || b[0] == SAUT then 0 else 1 + PremierSaut(b[1..])
  }

  /** bytes.LastIndexByte(b, '\n') + 1: the length of the whole lines at the front of b. */
  function LignesEntieres(b: Octets): (n: nat)
    ensures n <= |b| && SAUT !in b[n..] && (n > 0 ==> b[n - 1] == SAUT)
  {
    if b == [] then 0
    else if b[|b| - 1] == SAUT then |b|
    else LignesEntieres(b[..|b| - 1])
  }

  /** strings.Split(b, "\n") */
  function Coupe(b: Octets): seq<Octets>
    decreases |b|
  {
    var i := PremierSaut(b);
    if i == |b| then [b] else [b[..i]] + Coupe(b[i + 1..])
  }

  /** The journal bytes a reader at this offset has not consumed. */
  function Neuf(journal: Octets, offset: nat): Octets {
    if offset < |journal| then journal[offset..] else []
  }

  /** The lines a reader takes from those bytes: an unfinished last line is left for the next call. */
  function ClesLues(neuf: Octets): seq<Octets> {
    if LignesEntieres(neuf) == 0 then [] else Coupe(neuf[..LignesEntieres(neuf)])
  }

  type Cles = J.Nom -> Octets

  /** documentFileKey: 40 hexadecimal characters. */
  ghost predicate ClesOk(cle: Cles) {
    forall n :: |cle(n)| == LONGUEUR_CLE && SAUT !in cle(n)
  }

  /** The names in use, no two of which share a key. */
  ghost predicate SansCollisions(cle: Cles, usage: set<J.Nom>) {
    forall n, m :: n in usage && m in usage ==> SansCollision(cle, n, m)
  }

  ghost predicate SansCollision(cle: Cles, n: J.Nom, m: J.Nom) {
    cle(n) == cle(m) ==> n == m
  }

  /** What annoncerChangementDocument has appended for these names. */
  ghost function OctetsDuJournal(cle: Cles, noms: seq<J.Nom>): Octets {
    if noms == [] then [] else cle(noms[0]) + [SAUT] + OctetsDuJournal(cle, noms[1..])
  }

  ghost function ClesDe(cle: Cles, noms: seq<J.Nom>): seq<Octets> {
    if noms == [] then [] else [cle(noms[0])] + ClesDe(cle, noms[1..])
  }

  lemma {:induction false} LongueurDuJournal(cle: Cles, noms: seq<J.Nom>)
    requires ClesOk(cle)
    ensures |OctetsDuJournal(cle, noms)| == (LONGUEUR_CLE + 1) * |noms|
  {
    if noms != [] {
      LongueurDuJournal(cle, noms[1..]);
    }
  }

  /** Cutting the journal at a line boundary leaves the journal of the remaining names. */
  lemma {:induction false} JournalDepuis(cle: Cles, noms: seq<J.Nom>, i: nat)
    requires ClesOk(cle) && i <= |noms|
    ensures (LONGUEUR_CLE + 1) * i <= |OctetsDuJournal(cle, noms)|
    ensures OctetsDuJournal(cle, noms)[(LONGUEUR_CLE + 1) * i..] == OctetsDuJournal(cle, noms[i..])
    decreases i
  {
    LongueurDuJournal(cle, noms);
    if i > 0 {
      JournalDepuis(cle, noms[1..], i - 1);
      assert noms[1..][i - 1..] == noms[i..];
      var tete := cle(noms[0]) + [SAUT];
      var reste := OctetsDuJournal(cle, noms[1..]);
      assert OctetsDuJournal(cle, noms) == tete + reste;
      assert (tete + reste)[(LONGUEUR_CLE + 1) * i..] == reste[(LONGUEUR_CLE + 1) * (i - 1)..];
    }
  }

  lemma {:induction false} JournalAppend(cle: Cles, noms: seq<J.Nom>, n: J.Nom)
    ensures OctetsDuJournal(cle, noms + [n]) == OctetsDuJournal(cle, noms) + cle(n) + [SAUT]
  {
    if noms == [] {
      assert noms + [n] == [n];
      assert OctetsDuJournal(cle, [n]) == cle(n) + [SAUT] + OctetsDuJournal(cle, []);
    } else {
      JournalAppend(cle, noms[1..], n);
      assert (noms + [n])[1..] == noms[1..] + [n];
    }
  }

  lemma {:induction false} PremierSautUnique(b: Octets, i: nat)
    requires i < |b| && b[i] == SAUT && SAUT !in b[..i]
    ensures PremierSaut(b) == i
  {
    if i > 0 {
      assert b[0] in b[..i];
      assert forall x :: x in b[1..][..i - 1] ==> x in b[..i];
      PremierSautUnique(b[1..], i - 1);
    }
  }

  lemma {:induction false} LignesEntieresUnique(lignes: Octets, inachevee: Octets)
    requires SAUT !in inachevee && (lignes == [] || lignes[|lignes| - 1] == SAUT)
    ensures LignesEntieres(lignes + inachevee) == |lignes|
    decreases |inachevee|
  {
    var b := lignes + inachevee;
    if inachevee == [] {
      assert b == lignes;
    } else {
      assert b[|b| - 1] in inachevee;
      assert b[..|b| - 1] == lignes + inachevee[..|inachevee| - 1];
      LignesEntieresUnique(lignes, inachevee[..|inachevee| - 1]);
    }
  }

  /**
   A reader that sees whole lines followed by an unfinished one consumes exactly the whole lines, and
   splitting what it consumed gives back the keys, in order.
   */
  lemma {:induction false} WholeLinesAreTheKeys(cle: Cles, noms: seq<J.Nom>, inachevee: Octets)
    requires ClesOk(cle) && SAUT !in inachevee
    ensures var b := OctetsDuJournal(cle, noms);
            LignesEntieres(b + inachevee) == |b| && Coupe(b) == ClesDe(cle, noms) + [[]]
  {
    var b := OctetsDuJournal(cle, noms);
    if noms != [] {
      JournalFinitParSaut(cle, noms);
      WholeLinesAreTheKeys(cle, noms[1..], inachevee);
      CoupeTete(cle(noms[0]), OctetsDuJournal(cle, noms[1..]));
    }
    LignesEntieresUnique(b, inachevee);
  }

  lemma CoupeTete(k: Octets, reste: Octets)
    requires SAUT !in k
    ensures Coupe(k + [SAUT] + reste) == [k] + Coupe(reste)
  {
    var b := k + [SAUT] + reste;
    assert b[..|k|] == k && b[|k|] == SAUT && b[|k| + 1..] == reste;
    PremierSautUnique(b, |k|);
  }

  lemma {:induction false} JournalFinitParSaut(cle: Cles, noms: seq<J.Nom>)
    requires noms != []
    ensures var b := OctetsDuJournal(cle, noms); b != [] && b[|b| - 1] == SAUT
  {
    if |noms| > 1 {
      JournalFinitParSaut(cle, noms[1..]);
    }
  }

  // ---- memory and files ----

  /** Replacing memory entries by the files the keys name; other lines and unusable files are skipped. */
  function RelusCles(docs: map<J.Nom, J.Document>, fichiers: map<Octets, J.Document>, cles: seq<Octets>)
    : map<J.Nom, J.Document>
    decreases |cles|
  {
    if cles == [] then docs
    else
      var k := cles[0];
      if |k| == LONGUEUR_CLE && k in fichiers && fichiers[k].nom != "" then
        RelusCles(docs[fichiers[k].nom := fichiers[k]], fichiers, cles[1..])
      else RelusCles(docs, fichiers, cles[1..])
  }

  /** The files on disk stand for the protocol's documents, under their keys. */
  ghost predicate FichiersRepresentent(cle: Cles, fichiers: map<Octets, J.Document>, disque: map<J.Nom, J.Document>) {
    && (forall n :: n in disque ==> n != "" && disque[n].nom == n && EstFichier(cle, fichiers, disque[n]))
    && (forall k :: k in fichiers ==> EstDocument(cle, disque, k, fichiers[k]))
  }

  ghost predicate EstFichier(cle: Cles, fichiers: map<Octets, J.Document>, doc: J.Document) {
    cle(doc.nom) in fichiers && fichiers[cle(doc.nom)] == doc
  }

  ghost predicate EstDocument(cle: Cles, disque: map<J.Nom, J.Document>, k: Octets, doc: J.Document) {
    doc.nom in disque && disque[doc.nom] == doc && cle(doc.nom) == k
  }

  lemma FichierDeCle(cle: Cles, fichiers: map<Octets, J.Document>, disque: map<J.Nom, J.Document>, k: Octets)
    requires FichiersRepresentent(cle, fichiers, disque) && k in fichiers
    ensures var n := fichiers[k].nom; n != "" && n in disque && cle(n) == k && disque[n] == fichiers[k]
  {
    assert EstDocument(cle, disque, k, fichiers[k]);
  }

  lemma FichierDuNom(cle: Cles, usage: set<J.Nom>, fichiers: map<Octets, J.Document>, disque: map<J.Nom, J.Document>, n: J.Nom)
    requires SansCollisions(cle, usage) && FichiersRepresentent(cle, fichiers, disque)
    requires disque.Keys <= usage && n in usage
    ensures n in disque <==> cle(n) in fichiers
    ensures n in disque ==> n != "" && fichiers[cle(n)] == disque[n] && disque[n].nom == n
  {
    assert n in disque ==> EstFichier(cle, fichiers, disque[n]);
    assert cle(n) in fichiers ==> EstDocument(cle, disque, cle(n), fichiers[cle(n)]);
    assert cle(n) in fichiers ==> SansCollision(cle, fichiers[cle(n)].nom, n);
  }

  lemma {:induction false} RelusAgree(cle: Cles, usage: set<J.Nom>, docs: map<J.Nom, J.Document>,
                                      fichiers: map<Octets, J.Document>, disque: map<J.Nom, J.Document>, noms: seq<J.Nom>)
    requires ClesOk(cle) && SansCollisions(cle, usage) && FichiersRepresentent(cle, fichiers, disque)
    requires disque.Keys <= usage && forall n :: n in noms ==> n in usage
    ensures RelusCles(docs, fichiers, ClesDe(cle, noms) + [[]]) == J.Relus(docs, disque, noms)
    decreases |noms|
  {
    var cles := ClesDe(cle, noms) + [[]];
    if noms == [] {
      assert cles == [[]] && cles[1..] == [];
    } else {
      assert cles[0] == cle(noms[0]) && cles[1..] == ClesDe(cle, noms[1..]) + [[]];
      FichierDuNom(cle, usage, fichiers, disque, noms[0]);
      if noms[0] in disque {
        RelusAgree(cle, usage, docs[noms[0] := disque[noms[0]]], fichiers, disque, noms[1..]);
      } else {
        RelusAgree(cle, usage, docs, fichiers, disque, noms[1..]);
      }
    }
  }

  lemma FichiersApresEcriture(cle: Cles, usage: set<J.Nom>, fichiers: map<Octets, J.Document>,
                              disque: map<J.Nom, J.Document>, doc: J.Document)
    requires SansCollisions(cle, usage) && FichiersRepresentent(cle, fichiers, disque)
    requires disque.Keys <= usage && doc.nom in usage && doc.nom != ""
    ensures FichiersRepresentent(cle, fichiers[cle(doc.nom) := doc], disque[doc.nom := doc])
  {
    var fichiers', disque' := fichiers[cle(doc.nom) := doc], disque[doc.nom := doc];
    forall n | n in disque'
      ensures n != "" && disque'[n].nom == n && EstFichier(cle, fichiers', disque'[n])
    {
      assert SansCollision(cle, n, doc.nom);
    }
    forall k | k in fichiers'
      ensures EstDocument(cle, disque', k, fichiers'[k])
    {
      assert k in fichiers ==> EstDocument(cle, disque, k, fichiers[k]);
    }
  }

  /** storePutDocument refuses any other name. */
  predicate NomValide(nom: J.Nom) {
    nom != "" && Contient(nom, "/documents/")
  }

  /** The part of a document name after "/documents/", or all of it. */
  function CheminDeDocument(nom: J.Nom): string {
    var i := IndexDepuis(nom, "/documents/", 0);
    if i <= |nom| then nom[i + 11..] else nom
  }

  function SansBarre(parent: string): string {
    if parent != "" && parent[|parent| - 1] == '/' then parent[..|parent| - 1] else parent
  }

  predicate SousParent(nom: J.Nom, parent: string) {
    CheminDeDocument(SansBarre(parent)) + "/" <= CheminDeDocument(nom)
  }

  const DOCUMENTS := "/documents/"

  /** The name is some tenant's, and this is what follows its first "/documents/". */
  ghost predicate ChezLocataire(nom: string, locataire: string, chemin: string) {
    nom == locataire + DOCUMENTS + chemin && PremierA(nom, DOCUMENTS, |locataire|)
  }

  lemma PathOfTenant(nom: string, locataire: string, chemin: string)
    requires ChezLocataire(nom, locataire, chemin)
    ensures CheminDeDocument(nom) == chemin
  {
    FirstAt(nom, DOCUMENTS, |locataire|);
    assert nom[|locataire| + 11..] == chemin;
  }

  /** A name is under a path when, in whatever tenant, it continues it after a bar. */
  ghost predicate RangeSous(nom: string, chemin: string) {
    if Contient(nom, DOCUMENTS) then exists locataire, y :: Suite(nom, locataire, chemin, y)
    else exists y :: nom == chemin + "/" + y
  }

  ghost predicate Suite(nom: string, locataire: string, chemin: string, y: string) {
    ChezLocataire(nom, locataire, chemin + "/" + y)
  }

  lemma EveryNameHasAPath(nom: string)
    requires Contient(nom, DOCUMENTS)
    ensures var i := IndexDepuis(nom, DOCUMENTS, 0); ChezLocataire(nom, nom[..i], CheminDeDocument(nom))
  {
    IndexDepuisPremier(nom, DOCUMENTS, 0);
    var i := IndexDepuis(nom, DOCUMENTS, 0);
    assert nom == nom[..i] + nom[i..] && nom[i..] == DOCUMENTS + nom[i + 11..];
  }

  /** What a name or a parent is compared by: what follows "/documents/" in its tenant, or all of it. */
  ghost predicate Chemine(nom: string, chemin: string) {
    if Contient(nom, DOCUMENTS) then exists locataire :: ChezLocataire(nom, locataire, chemin) else nom == chemin
  }

  lemma PathIs(nom: string, chemin: string)
    requires Chemine(nom, chemin)
    ensures CheminDeDocument(nom) == chemin
  {
    if Contient(nom, DOCUMENTS) {
      var locataire :| ChezLocataire(nom, locataire, chemin);
      PathOfTenant(nom, locataire, chemin);
    }
  }

  /** A parent, with or without a bar at the end. */
  ghost predicate EstParent(parent: string, p: string) {
    parent == p + "/" || (parent == p && (p == "" || p[|p| - 1] != '/'))
  }

  /**
   A parent and a name are compared by what follows "/documents/", so a query under one tenant finds what is stored
   under another; a trailing bar of the parent is ignored, and a name that only begins like the parent is not under it.
   */
  lemma UnderParentIff(nom: string, parent: string, p: string, chemin: string)
    requires EstParent(parent, p) && Chemine(p, chemin)
    ensures SousParent(nom, parent) <==> RangeSous(nom, chemin)
  {
    assert SansBarre(parent) == p;
    PathIs(p, chemin);
    NameUnderIff(nom, chemin);
  }

  lemma NameUnderIff(nom: string, chemin: string)
    ensures chemin + "/" <= CheminDeDocument(nom) <==> RangeSous(nom, chemin)
  {
    var d := CheminDeDocument(nom);
    if chemin + "/" <= d {
      assert d == chemin + "/" + d[|chemin| + 1..];
    }
    if Contient(nom, DOCUMENTS) {
      EveryNameHasAPath(nom);
      if chemin + "/" <= d {
        assert Suite(nom, nom[..IndexDepuis(nom, DOCUMENTS, 0)], chemin, d[|chemin| + 1..]);
      }
      if l, y :| Suite(nom, l, chemin, y) {
        PathOfTenant(nom, l, chemin + "/" + y);
      }
    }
  }

  const Decroissant: Ordre := (a: string, b: string) => Inf(b, a)

  lemma DecroissantOrdreTotal()
    ensures OrdreTotal(Decroissant)
  {
    InfOrdreTotal();
  }

  lemma ListedByName(docs: map<J.Nom, J.Document>, noms: seq<J.Nom>, trouves: seq<J.Document>, parent: string)
    requires forall n :: n in docs ==> docs[n].nom == n
    requires forall n :: n in noms <==> n in docs && SousParent(n, parent)
    requires |trouves| == |noms| && forall k :: 0 <= k < |noms| ==> trouves[k] == docs[noms[k]]
    ensures forall d :: d in trouves <==> d.nom in docs && docs[d.nom] == d && SousParent(d.nom, parent)
  {
    forall d: J.Document | d.nom in docs && docs[d.nom] == d && SousParent(d.nom, parent)
      ensures d in trouves
    {
      assert d.nom in noms;
      var k :| 0 <= k < |noms| && noms[k] == d.nom;
      assert trouves[k] == d;
    }
    forall d: J.Document | d in trouves
      ensures d.nom in docs && docs[d.nom] == d && SousParent(d.nom, parent)
    {
      var k :| 0 <= k < |trouves| && trouves[k] == d;
      assert noms[k] in noms;
    }
  }

  /** The directory shared by the processes. */
  class Dossier {
    var fichiers: map<Octets, J.Document>
    var journal: Octets

    constructor ()
      ensures fichiers == map[] && journal == []
    {
      fichiers, journal := map[], [];
    }
  }

  /** One process: `documentStore`, `derniereRelecture` and `chargementDocuments`. */
  class Magasin {
    const cle: Cles
    const dossier: Dossier
    ghost const usage: set<J.Nom>     // the names the processes may use
    var docs: map<J.Nom, J.Document>
    var offset: nat
    var initialisee: bool
    var termine: bool

    constructor (cle: Cles, dossier: Dossier, ghost usage: set<J.Nom>)
      ensures this.cle == cle && this.dossier == dossier && this.usage == usage
      ensures docs == map[] && offset == 0 && !initialisee && !termine
    {
      this.cle, this.dossier, this.usage := cle, dossier, usage;
      docs, offset, initialisee, termine := map[], 0, false, false;
    }

    /** The process p of protocol state s, at rest, is this object; the shared state is the directory. */
    ghost predicate Represente(s: J.Etat, p: J.Pid)
      reads this, dossier
    {
      && ClesOk(cle) && SansCollisions(cle, usage)
      && s.disque.Keys <= usage && (forall n :: n in s.journal ==> n in usage)
      && p in s.procs && s.procs[p].phase.Repos?
      && docs == s.procs[p].docs && initialisee == s.procs[p].initialisee && termine == s.procs[p].charge
      && s.procs[p].offset <= |s.journal| && offset == (LONGUEUR_CLE + 1) * s.procs[p].offset
      && dossier.journal == OctetsDuJournal(cle, s.journal)
      && FichiersRepresentent(cle, dossier.fichiers, s.disque)
    }

    /** Memory first, then the disk; what the disk gives is kept. */
    method StoreGetDocument(name: J.Nom, ghost s: J.Etat, ghost p: J.Pid) returns (r: Option<J.Document>)
      requires Represente(s, p) && name in usage
      modifies this`docs
      ensures r == if name in s.procs[p].docs then Some(s.procs[p].docs[name])
                   else if name in s.disque then Some(s.disque[name]) else None
      ensures Represente(
                if name !in s.procs[p].docs && name in s.disque then J.Apres(s, J.RepliDisque(p, name)) else s, p)
    {
      FichierDuNom(cle, usage, dossier.fichiers, s.disque, name);
      if name in docs {
        return Some(docs[name]);
      }
      if cle(name) !in dossier.fichiers || dossier.fichiers[cle(name)].nom == "" {
        return None;
      }
      var relu := dossier.fichiers[cle(name)];
      docs := docs[name := relu];
      return Some(relu);
    }

    method StorePutDocument(doc: J.Document, ghost s: J.Etat, ghost p: J.Pid)
      requires Represente(s, p) && doc.nom in usage
      modifies this`docs, dossier
      ensures Represente(if NomValide(doc.nom) then J.Range(s, p, doc) else s, p)
    {
      if doc.nom == "" {
        return;
      }
      if !Contient(doc.nom, "/documents/") {
        return;
      }
      FichiersApresEcriture(cle, usage, dossier.fichiers, s.disque, doc);
      JournalAppend(cle, s.journal, doc.nom);
      docs := docs[doc.nom := doc];
      PersisterDocument(doc);
    }

    method PersisterDocument(doc: J.Document)
      modifies dossier
      ensures dossier.fichiers == old(dossier.fichiers)[cle(doc.nom) := doc]
      ensures dossier.journal == old(dossier.journal) + cle(doc.nom) + [SAUT]
    {
      dossier.fichiers := dossier.fichiers[cle(doc.nom) := doc];
      AnnoncerChangementDocument(doc.nom);
    }

    method AnnoncerChangementDocument(name: J.Nom)
      modifies dossier`journal
      ensures dossier.journal == old(dossier.journal) + cle(name) + [SAUT]
    {
      dossier.journal := dossier.journal + (cle(name) + [SAUT]);
    }

    /** The offset is captured before the directory is listed; the files come in any order. */
    method ChargerDocuments(ghost s: J.Etat, ghost p: J.Pid)
      requires Represente(s, p)
      modifies this
      ensures Represente(if s.procs[p].charge then s else J.Charge(s, p), p)
    {
      if termine {
        return;
      }
      LongueurDuJournal(cle, s.journal);
      if !initialisee {
        offset := |dossier.journal|;
        initialisee := true;
      }
      LireLesFichiers(s.disque);
      termine := true;
    }

    /** The scan loop of chargerDocuments. */
    method LireLesFichiers(ghost disque: map<J.Nom, J.Document>)
      requires SansCollisions(cle, usage) && disque.Keys <= usage && FichiersRepresentent(cle, dossier.fichiers, disque)
      modifies this`docs
      ensures docs == old(docs) + disque
    {
      ghost var lus := map[];
      var fichiers := dossier.fichiers;
      var entrees := fichiers.Keys;
      while entrees != {}
        invariant entrees <= fichiers.Keys
        invariant lus.Keys <= disque.Keys && (forall n :: n in lus ==> lus[n] == disque[n])
        invariant forall k :: k in fichiers ==> k in entrees || fichiers[k].nom in lus
        invariant docs == old(docs) + lus
        decreases entrees
      {
        var k :| k in entrees;
        entrees := entrees - {k};
        var doc := fichiers[k];
        FichierDeCle(cle, fichiers, disque, k);
        if doc.nom != "" {
          docs := docs[doc.nom := doc];
          lus := lus[doc.nom := doc];
        }
      }
      forall n | n in disque
        ensures n in lus
      {
        FichierDuNom(cle, usage, fichiers, disque, n);
      }
      assert lus == disque;
    }

    /** The refresh: only whole lines are consumed, from this process's own offset. */
    method RelireLesNouveauxDocuments()
      modifies this
      ensures termine == old(termine) && initialisee
      ensures offset == old(offset) + LignesEntieres(Neuf(dossier.journal, old(offset)))
      ensures docs == RelusCles(old(docs), dossier.fichiers, ClesLues(Neuf(dossier.journal, old(offset))))
    {
      initialisee := true;
      if |dossier.journal| <= offset {
        return;
      }
      var data := dossier.journal[offset..];
      var consomme := LignesEntieres(data);
      if consomme == 0 {
        return;
      }
      var cles := Coupe(data[..consomme]);
      var i := 0;
      while i < |cles|
        invariant i <= |cles|
        invariant offset == old(offset) && initialisee && termine == old(termine)
        invariant RelusCles(docs, dossier.fichiers, cles[i..]) == RelusCles(old(docs), dossier.fichiers, cles)
      {
        var key := cles[i];
        if |key| == LONGUEUR_CLE && key in dossier.fichiers && dossier.fichiers[key].nom != "" {
          docs := docs[dossier.fichiers[key].nom := dossier.fichiers[key]];
        }
        assert cles[i..][1..] == cles[i + 1..];
        i := i + 1;
      }
      offset := offset + consomme;
    }

    /** Newest first: the names start with a compact timestamp. */
    method DocumentsSousParentEnMemoire(parent: string) returns (trouves: seq<J.Document>)
      requires forall n :: n in docs ==> docs[n].nom == n
      ensures forall d :: d in trouves <==> d.nom in docs && docs[d.nom] == d && SousParent(d.nom, parent)
      ensures DecroissantParNom(trouves)
    {
      DecroissantOrdreTotal();
      var noms := TrierPar((set n | n in docs && SousParent(n, parent)), Decroissant);
      trouves := [];
      for i := 0 to |noms|
        invariant |trouves| == i
        invariant forall k :: 0 <= k < i ==> noms[k] in docs && trouves[k] == docs[noms[k]]
      {
        assert noms[i] in noms;
        trouves := trouves + [docs[noms[i]]];
      }
      ListedByName(docs, noms, trouves, parent);
    }

    /** What RunQuery searches: the journal is consumed first. */
    method DocumentsSousParent(parent: string, ghost s: J.Etat, ghost p: J.Pid) returns (trouves: seq<J.Document>)
      requires Represente(s, p) && (forall n :: n in docs ==> docs[n].nom == n)
      modifies this
      ensures s.procs[p].initialisee || s.procs[p].offset < |s.journal| ==> Represente(J.Rafraichi(s, p), p)
      ensures var vus := J.Rafraichi(s, p).procs[p].docs;
              forall d :: d in trouves <==> d.nom in vus && vus[d.nom] == d && SousParent(d.nom, parent)
      ensures DecroissantParNom(trouves)
    {
      RefreshRefinesProtocol(cle, usage, docs, dossier.fichiers, s, p);
      RelireLesNouveauxDocuments();
      RelusNommes(s.procs[p].docs, s.disque, s.journal[s.procs[p].offset..]);
      trouves := DocumentsSousParentEnMemoire(parent);
    }

    /** The documents a query sends: those of the collections it names, when it names any, still newest first. */
    method RunQuery(parent: string, collections: seq<string>, ghost s: J.Etat, ghost p: J.Pid) returns (envoyes: seq<J.Document>)
      requires Represente(s, p) && (forall n :: n in docs ==> docs[n].nom == n)
      modifies this
      ensures var vus := J.Rafraichi(s, p).procs[p].docs;
              forall d :: d in envoyes <==>
                d.nom in vus && vus[d.nom] == d && SousParent(d.nom, parent) && Demande(d.nom, collections)
      ensures DecroissantParNom(envoyes)
    {
      var trouves := DocumentsSousParent(parent, s, p);
      envoyes := DansLesCollections(trouves, collections);
    }
  }

  ghost predicate DecroissantParNom(ds: seq<J.Document>) {
    forall i, j :: 0 <= i < j < |ds| ==> Inf(ds[j].nom, ds[i].nom) && ds[i].nom != ds[j].nom
  }

  /** A query that names no collection asks for all; an empty collection id asks for nothing. */
  ghost predicate Demande(nom: string, collections: seq<string>) {
    collections == [] || exists u, c, y :: c in collections && c != "" && DansCollection(nom, u, c, y)
  }

  ghost predicate DansCollection(nom: string, u: string, c: string, y: string) {
    nom == u + "/" + c + "/" + y
  }

  lemma InCollectionIff(nom: string, c: string)
    ensures Contient(nom, "/" + c + "/") <==> exists u, y :: DansCollection(nom, u, c, y)
  {
    var sub := "/" + c + "/";
    ContientIff(nom, sub);
    if i :| 0 <= i <= |nom| && sub <= nom[i..] {
      assert nom[i..] == sub + nom[i + |sub|..];
      assert DansCollection(nom, nom[..i], c, nom[i + |sub|..]);
    }
    if u, y :| DansCollection(nom, u, c, y) {
      assert nom[|u|..] == sub + y;
    }
  }

  method DansLesCollections(docs: seq<J.Document>, collections: seq<string>) returns (garde: seq<J.Document>)
    requires DecroissantParNom(docs)
    ensures forall d :: d in garde <==> d in docs && Demande(d.nom, collections)
    ensures DecroissantParNom(garde)
  {
    if |collections| == 0 {
      return docs;
    }
    garde := [];
    for i := 0 to |docs|
      invariant forall d :: d in garde <==> d in docs[..i] && Demande(d.nom, collections)
      invariant DecroissantParNom(garde)
    {
      var demande := EstDemande(docs[i].nom, collections);
      assert forall d :: d in docs[..i + 1] <==> d in docs[..i] || d == docs[i];
      if demande {
        forall g | g in garde
          ensures Inf(docs[i].nom, g.nom) && g.nom != docs[i].nom
        {
          var k :| 0 <= k < i && docs[..i][k] == g;
        }
        garde := garde + [docs[i]];
      }
    }
    assert docs[..|docs|] == docs;
  }

  method EstDemande(nom: string, collections: seq<string>) returns (oui: bool)
    requires collections != []
    ensures oui <==> Demande(nom, collections)
  {
    for k := 0 to |collections|
      invariant forall j, u, y :: 0 <= j < k && collections[j] != "" ==> !DansCollection(nom, u, collections[j], y)
    {
      var id := collections[k];
      InCollectionIff(nom, id);
      if id != "" && Contient(nom, "/" + id + "/") {
        return true;
      }
    }
    return false;
  }

  /** The names a put accepts are those that have a path. */
  lemma ValidNamesHaveAPath(nom: J.Nom)
    ensures NomValide(nom) <==> exists locataire, chemin :: ChezLocataire(nom, locataire, chemin)
  {
    if NomValide(nom) {
      EveryNameHasAPath(nom);
    }
    if locataire, chemin :| ChezLocataire(nom, locataire, chemin) {
      FirstAt(nom, DOCUMENTS, |locataire|);
    }
  }

  /** Reading whole lines from the process's byte offset is the protocol's refresh from its line offset. */
  lemma RefreshRefinesProtocol(cle: Cles, usage: set<J.Nom>, docs: map<J.Nom, J.Document>,
                               fichiers: map<Octets, J.Document>, s: J.Etat, p: J.Pid)
    requires ClesOk(cle) && SansCollisions(cle, usage) && FichiersRepresentent(cle, fichiers, s.disque)
    requires s.disque.Keys <= usage && forall n :: n in s.journal ==> n in usage
    requires p in s.procs && s.procs[p].offset <= |s.journal|
    ensures var neuf := Neuf(OctetsDuJournal(cle, s.journal), (LONGUEUR_CLE + 1) * s.procs[p].offset);
            && (LONGUEUR_CLE + 1) * s.procs[p].offset + LignesEntieres(neuf) == (LONGUEUR_CLE + 1) * |s.journal|
            && RelusCles(docs, fichiers, ClesLues(neuf)) == J.Relus(docs, s.disque, s.journal[s.procs[p].offset..])
  {
    var reste := s.journal[s.procs[p].offset..];
    LongueurDuJournal(cle, s.journal);
    LongueurDuJournal(cle, reste);
    JournalDepuis(cle, s.journal, s.procs[p].offset);
    var neuf := OctetsDuJournal(cle, reste);
    assert Neuf(OctetsDuJournal(cle, s.journal), (LONGUEUR_CLE + 1) * s.procs[p].offset) == neuf;
    WholeLinesAreTheKeys(cle, reste, []);
    assert neuf + [] == neuf && neuf[..|neuf|] == neuf;
    RelusAgree(cle, usage, docs, fichiers, s.disque, reste);
  }

  lemma {:induction false} RelusNommes(docs: map<J.Nom, J.Document>, disque: map<J.Nom, J.Document>, lignes: seq<J.Nom>)
    requires forall n :: n in docs ==> docs[n].nom == n
    ensures forall n :: n in J.Relus(docs, disque, lignes) ==> J.Relus(docs, disque, lignes)[n].nom == n
    decreases |lignes|
  {
    if lignes != [] {
      if lignes[0] in disque {
        RelusNommes(docs[disque[lignes[0]].nom := disque[lignes[0]]], disque, lignes[1..]);
      } else {
        RelusNommes(docs, disque, lignes[1..]);
      }
    }
  }

  /**
   End to end: with no write in flight, a query of a loaded process lists exactly the documents that are
   on disk under the parent, whatever the processes did before.
   */
  lemma QueryAnswersFromDisk(s0: J.Etat, run: seq<J.Pas>, p: J.Pid, trouves: seq<J.Document>, parent: string)
    requires J.Initial(s0) && J.Executable(s0, run)
    requires var s := J.Execute(s0, run);
             && p in s.procs && s.procs[p].charge && s.procs[p].phase.Repos? && (forall n :: !J.EnVol(s, n))
             && s.procs[p].offset <= |s.journal|
             && var vus := J.Rafraichi(s, p).procs[p].docs;
             forall d :: d in trouves <==> d.nom in vus && vus[d.nom] == d && SousParent(d.nom, parent)
    ensures var s := J.Execute(s0, run);
            forall d :: d in trouves <==> d.nom in s.disque && s.disque[d.nom] == d && SousParent(d.nom, parent)
  {
    J.RefreshMakesMemoryEqualDisk(s0, run, p);
  }

  /**
   In the terms of the names themselves: what a query sends are the documents on disk under the parent's path, whatever
   their tenant, in the collections asked for.
   */
  lemma QueryFindsEveryTenant(s0: J.Etat, run: seq<J.Pas>, p: J.Pid, envoyes: seq<J.Document>, parent: string,
                              collections: seq<string>, sansBarre: string, chemin: string)
    requires J.Initial(s0) && J.Executable(s0, run)
    requires var s := J.Execute(s0, run);
             && p in s.procs && s.procs[p].charge && s.procs[p].phase.Repos? && (forall n :: !J.EnVol(s, n))
             && s.procs[p].offset <= |s.journal|
             && var vus := J.Rafraichi(s, p).procs[p].docs;
             forall d :: d in envoyes <==>
               d.nom in vus && vus[d.nom] == d && SousParent(d.nom, parent) && Demande(d.nom, collections)
    requires EstParent(parent, sansBarre) && Chemine(sansBarre, chemin)
    ensures var s := J.Execute(s0, run);
            forall d :: d in envoyes <==>
              d.nom in s.disque && s.disque[d.nom] == d && RangeSous(d.nom, chemin) && Demande(d.nom, collections)
  {
    J.RefreshMakesMemoryEqualDisk(s0, run, p);
    forall d: J.Document
      ensures SousParent(d.nom, parent) <==> RangeSous(d.nom, chemin)
    {
      UnderParentIff(d.nom, parent, sansBarre, chemin);
    }
  }
}
