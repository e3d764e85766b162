/**
 The document store as a concurrent protocol (ugcstore.go, ugcstore_runquery.go).

 Several processes share a directory of document files and one append-only journal
 (`changes.index`). Each process keeps its own memory. A write is three separate steps (memory, file,
 journal line); a start-up scan and a refresh read the files one at a time. Every step below is one
 atomic action, and a run interleaves the steps of all processes freely.
 */
module DocumentJournal {
  import opened Wrappers

  type Nom = string
  type Pid = nat

  datatype Document = Document(nom: Nom, contenu: string)

  /** Where one storePutDocument call stands between its memory put and its journal line. */
  datatype Ecriture =
    | AEcrire(doc: Document)    // in memory, file not written yet
    | AAnnoncer(doc: Document)  // file written, journal line not appended yet

  /** What the process is doing with its journal offset; the scan and the refresh exclude each other. */
  datatype Phase =
    | Repos
    | Capture                                           // offset captured, directory not listed yet
    | Balayage(restants: set<Nom>)                      // start-up scan, files still to read
    | BalayageLu(restants: set<Nom>, lu: Document)      // one file read, not yet put into memory
    | Relecture(fin: nat, i: nat)                       // refresh of the lines below fin, line i next
    | RelectureLue(fin: nat, i: nat, lu: Document)      // file of line i read, not yet put into memory

  datatype Processus = Processus(
    docs: map<Nom, Document>,
    offset: nat,              // counted in journal lines
    initialisee: bool,
    charge: bool,             // the start-up scan is over
    phase: Phase,
    ecritures: multiset<Ecriture>)

  datatype Etat = Etat(disque: map<Nom, Document>, journal: seq<Nom>, procs: map<Pid, Processus>)

  datatype Pas =
    | PoserEnMemoire(p: Pid, doc: Document)
    | EcrireFichier(p: Pid, doc: Document)
    | Annoncer(p: Pid, doc: Document)
    | RepliDisque(p: Pid, nom: Nom)
    | CapturerOffset(p: Pid)
    | ListerDossier(p: Pid)
    | LireFichier(p: Pid, nom: Nom)
    | PoserFichier(p: Pid)
    | FinirBalayage(p: Pid)
    | DebuterRelecture(p: Pid, taille: nat)   // the journal was that long when its size was read, before the lock
    | LireLigne(p: Pid)
    | PoserLigne(p: Pid)
    | FinirRelecture(p: Pid)

  /** When the code of process `pas.p` can take this step next. */
  ghost predicate Possible(s: Etat, pas: Pas) {
    pas.p in s.procs &&
    var q := s.procs[pas.p];
    match pas
    case PoserEnMemoire(_, doc) => true
    case EcrireFichier(_, doc) => AEcrire(doc) in q.ecritures
    case Annoncer(_, doc) => AAnnoncer(doc) in q.ecritures
    case RepliDisque(_, nom) => nom !in q.docs && nom in s.disque
    case CapturerOffset(_) => q.phase.Repos? && !q.charge
    case ListerDossier(_) => q.phase.Capture?
    case LireFichier(_, nom) => q.phase.Balayage? && nom in q.phase.restants && nom in s.disque
    case PoserFichier(_) => q.phase.BalayageLu?
    case FinirBalayage(_) => q.phase.Balayage? && q.phase.restants == {}
    case DebuterRelecture(_, taille) => q.phase.Repos? && q.offset <= taille <= |s.journal|
    case LireLigne(_) => q.phase.Relecture? && q.phase.i < q.phase.fin <= |s.journal|
    case PoserLigne(_) => q.phase.RelectureLue?
    case FinirRelecture(_) => q.phase.Relecture? && q.phase.i == q.phase.fin
  }

  /** The process after its own step (its file and journal effects are in `Apres`). */
  ghost function Local(s: Etat, pas: Pas): Processus
    requires Possible(s, pas)
  {
    var q := s.procs[pas.p];
    match pas
    case PoserEnMemoire(_, doc) =>
      q.(docs := q.docs[doc.nom := doc], ecritures := q.ecritures + multiset{AEcrire(doc)})
    case EcrireFichier(_, doc) =>
      q.(ecritures := q.ecritures - multiset{AEcrire(doc)} + multiset{AAnnoncer(doc)})
    case Annoncer(_, doc) => q.(ecritures := q.ecritures - multiset{AAnnoncer(doc)})
    case RepliDisque(_, nom) => q.(docs := q.docs[nom := s.disque[nom]])
    case CapturerOffset(_) =>
      q.(offset := if q.initialisee then q.offset else |s.journal|, initialisee := true, phase := Capture)
    case ListerDossier(_) => q.(phase := Balayage(s.disque.Keys))
    case LireFichier(_, nom) => q.(phase := BalayageLu(q.phase.restants, s.disque[nom]))
    case PoserFichier(_) =>
      q.(docs := q.docs[q.phase.lu.nom := q.phase.lu], phase := Balayage(q.phase.restants - {q.phase.lu.nom}))
    case FinirBalayage(_) => q.(charge := true, phase := Repos)
    case DebuterRelecture(_, taille) => q.(initialisee := true, phase := Relecture(taille, q.offset))
    case LireLigne(_) =>
      var n := s.journal[q.phase.i];
      if n in s.disque then q.(phase := RelectureLue(q.phase.fin, q.phase.i, s.disque[n]))
      else q.(phase := Relecture(q.phase.fin, q.phase.i + 1))
    case PoserLigne(_) =>
      q.(docs := q.docs[q.phase.lu.nom := q.phase.lu], phase := Relecture(q.phase.fin, q.phase.i + 1))
    case FinirRelecture(_) => q.(offset := q.phase.fin, phase := Repos)
  }

  ghost function Apres(s: Etat, pas: Pas): Etat
    requires Possible(s, pas)
  {
    Etat(
      if pas.EcrireFichier? then s.disque[pas.doc.nom := pas.doc] else s.disque,
      if pas.Annoncer? then s.journal + [pas.doc.nom] else s.journal,
      s.procs[pas.p := Local(s, pas)])
  }

  ghost predicate Executable(s: Etat, run: seq<Pas>)
    decreases |run|
  {
    run == [] || (Possible(s, run[0]) && Executable(Apres(s, run[0]), run[1..]))
  }

  ghost function Execute(s: Etat, run: seq<Pas>): Etat
    requires Executable(s, run)
    decreases |run|
  {
    if run == [] then s else Execute(Apres(s, run[0]), run[1..])
  }

  /** Any directory, and any journal of its files, left by earlier lives; every process starts with nothing. */
  ghost predicate Initial(s: Etat) {
    && (forall n :: n in s.disque ==> s.disque[n].nom == n)
    && (forall n :: n in s.journal ==> n in s.disque)
    && forall p :: p in s.procs ==> s.procs[p] == Processus(map[], 0, false, false, Repos, multiset{})
  }

  // ---- the coherence invariant ----

  /** Some process is between its memory put and its journal line for this name. */
  ghost predicate EnVol(s: Etat, n: Nom) {
    exists p, e :: p in s.procs && e in s.procs[p].ecritures && e.doc.nom == n
  }

  ghost predicate AnnonceDepuis(s: Etat, n: Nom, depuis: nat) {
    exists i :: depuis <= i < |s.journal| && s.journal[i] == n
  }

  ghost predicate Accord(s: Etat, docs: map<Nom, Document>, n: Nom) {
    (n in docs <==> n in s.disque) && (n in docs ==> docs[n] == s.disque[n])
  }

  /** Memory equals the disk, or the journal will still tell, or a write of the name is in flight. */
  ghost predicate Coherent(s: Etat, docs: map<Nom, Document>, n: Nom, depuis: nat) {
    Accord(s, docs, n) || AnnonceDepuis(s, n, depuis) || EnVol(s, n)
  }

  /** The same for a file content that has been read and not yet been put into memory. */
  ghost predicate Frais(s: Etat, lu: Document, depuis: nat) {
    (lu.nom in s.disque && s.disque[lu.nom] == lu) || AnnonceDepuis(s, lu.nom, depuis) || EnVol(s, lu.nom)
  }

  ghost predicate PhaseOk(s: Etat, q: Processus) {
    match q.phase
    case Repos => true
    case Capture => q.initialisee && !q.charge
    case Balayage(restants) =>
      && q.initialisee && !q.charge
      && restants <= s.disque.Keys
      && (forall n :: n !in restants ==> Coherent(s, q.docs, n, q.offset))
    case BalayageLu(restants, lu) =>
      && q.initialisee && !q.charge
      && restants <= s.disque.Keys && lu.nom in restants && Frais(s, lu, q.offset)
      && (forall n :: n !in restants ==> Coherent(s, q.docs, n, q.offset))
    case Relecture(fin, i) =>
      && q.offset <= i <= fin <= |s.journal|
      && (q.charge ==> forall j :: q.offset <= j < i ==> Coherent(s, q.docs, s.journal[j], fin))
    case RelectureLue(fin, i, lu) =>
      && q.offset <= i < fin <= |s.journal| && lu.nom == s.journal[i] && Frais(s, lu, fin)
      && (q.charge ==> forall j :: q.offset <= j < i ==> Coherent(s, q.docs, s.journal[j], fin))
  }

  ghost predicate ProcOk(s: Etat, q: Processus) {
    && q.offset <= |s.journal|
    && (forall n :: n in q.docs ==> q.docs[n].nom == n && (n in s.disque || EnVol(s, n)))
    && (q.charge ==> forall n :: Coherent(s, q.docs, n, q.offset))
    && PhaseOk(s, q)
  }

  ghost predicate Inv(s: Etat) {
    && (forall n :: n in s.disque ==> s.disque[n].nom == n)
    && (forall n :: n in s.journal ==> n in s.disque)
    && (forall p, e :: p in s.procs && e in s.procs[p].ecritures && e.AAnnoncer? ==> e.doc.nom in s.disque)
    && forall p :: p in s.procs ==> ProcOk(s, s.procs[p])
  }

  // ---- every step keeps the invariant ----

  /** What one step does to the shared state, as the other processes see it. */
  ghost predicate Evolue(s: Etat, s': Etat) {
    && s.journal <= s'.journal
    && s.disque.Keys <= s'.disque.Keys
    && (forall n :: EnVol(s, n) ==> EnVol(s', n) || AnnonceDepuis(s', n, |s.journal|))
    && (forall n :: EnVol(s', n) || (n in s.disque <==> n in s'.disque))
    && (forall n :: n in s.disque ==> EnVol(s', n) || s'.disque[n] == s.disque[n])
  }

  lemma EnVolSuit(s: Etat, pas: Pas, n: Nom)
    requires Possible(s, pas) && EnVol(s, n)
    ensures EnVol(Apres(s, pas), n) || AnnonceDepuis(Apres(s, pas), n, |s.journal|)
  {
    var s' := Apres(s, pas);
    var p, e :| p in s.procs && e in s.procs[p].ecritures && e.doc.nom == n;
    if p == pas.p && pas.EcrireFichier? && e == AEcrire(pas.doc) {
      assert AAnnoncer(pas.doc) in s'.procs[p].ecritures;
    } else if p == pas.p && pas.Annoncer? && e == AAnnoncer(pas.doc) {
      assert s'.journal[|s.journal|] == n;
    } else {
      assert e in s'.procs[p].ecritures;
    }
  }

  lemma StepEvolves(s: Etat, pas: Pas)
    requires Inv(s) && Possible(s, pas)
    ensures Evolue(s, Apres(s, pas))
  {
    var s' := Apres(s, pas);
    forall n | EnVol(s, n)
      ensures EnVol(s', n) || AnnonceDepuis(s', n, |s.journal|)
    {
      EnVolSuit(s, pas, n);
    }
    if pas.EcrireFichier? {
      assert AAnnoncer(pas.doc) in s'.procs[pas.p].ecritures;
      assert EnVol(s', pas.doc.nom);
    }
  }

  lemma AnnonceReste(s: Etat, s': Etat, n: Nom, depuis: nat)
    requires s.journal <= s'.journal && AnnonceDepuis(s, n, depuis)
    ensures AnnonceDepuis(s', n, depuis)
  {
    var i :| depuis <= i < |s.journal| && s.journal[i] == n;
    assert s'.journal[i] == n;
  }

  lemma CoherentReste(s: Etat, s': Etat, docs: map<Nom, Document>, n: Nom, depuis: nat)
    requires Evolue(s, s') && depuis <= |s.journal| && Coherent(s, docs, n, depuis)
    ensures Coherent(s', docs, n, depuis)
  {
    if AnnonceDepuis(s, n, depuis) {
      AnnonceReste(s, s', n, depuis);
    } else if EnVol(s, n) && !EnVol(s', n) {
      var i :| |s.journal| <= i < |s'.journal| && s'.journal[i] == n;
      assert AnnonceDepuis(s', n, depuis);
    }
  }

  lemma FraisReste(s: Etat, s': Etat, lu: Document, depuis: nat)
    requires Evolue(s, s') && depuis <= |s.journal| && Frais(s, lu, depuis)
    ensures Frais(s', lu, depuis)
  {
    if lu.nom in s.disque && s.disque[lu.nom] == lu {
    } else if AnnonceDepuis(s, lu.nom, depuis) {
      AnnonceReste(s, s', lu.nom, depuis);
    } else if !EnVol(s', lu.nom) {
      var i :| |s.journal| <= i < |s'.journal| && s'.journal[i] == lu.nom;
      assert AnnonceDepuis(s', lu.nom, depuis);
    }
  }

  /** A process that does not move stays right whatever the others do. */
  lemma BystanderStaysOk(s: Etat, s': Etat, q: Processus)
    requires Evolue(s, s') && ProcOk(s, q)
    requires forall n :: n in q.docs && n !in s.disque && EnVol(s, n) ==> n in s'.disque || EnVol(s', n)
    ensures ProcOk(s', q)
  {
    forall n, depuis: nat | depuis <= |s.journal| && Coherent(s, q.docs, n, depuis)
      ensures Coherent(s', q.docs, n, depuis)
    {
      CoherentReste(s, s', q.docs, n, depuis);
    }
    match q.phase
    case BalayageLu(_, lu) => FraisReste(s, s', lu, q.offset);
    case RelectureLue(fin, _, lu) => FraisReste(s, s', lu, fin);
    case _ =>
  }

  /** A name in flight either stays in flight or has reached the disk. */
  lemma EnVolOuEcrit(s: Etat, pas: Pas, n: Nom)
    requires Inv(s) && Possible(s, pas) && EnVol(s, n)
    ensures n in Apres(s, pas).disque || EnVol(Apres(s, pas), n)
  {
    EnVolSuit(s, pas, n);
    if pas.Annoncer? {
      assert AAnnoncer(pas.doc) in s.procs[pas.p].ecritures;
    }
  }

  /** Coherence survives replacing the memory entry of one name by a content that is itself fresh. */
  lemma CoherentApresPose(s: Etat, docs: map<Nom, Document>, lu: Document, n: Nom, depuis: nat)
    requires if n == lu.nom then Frais(s, lu, depuis) else Coherent(s, docs, n, depuis)
    ensures Coherent(s, docs[lu.nom := lu], n, depuis)
  {
  }

  lemma PoseReste(s: Etat, q: Processus, lu: Document, debut: nat)
    requires ProcOk(s, q) && Frais(s, lu, debut) && q.offset <= debut
    requires q.phase.Relecture? || q.phase.RelectureLue? ==> Frais(s, lu, q.phase.fin)
    requires lu.nom in s.disque || EnVol(s, lu.nom)
    ensures ProcOk(s, q.(docs := q.docs[lu.nom := lu]))
  {
    var docs := q.docs[lu.nom := lu];
    if AnnonceDepuis(s, lu.nom, debut) {
      assert AnnonceDepuis(s, lu.nom, q.offset);
    }
    assert Frais(s, lu, q.offset);
    forall n | Coherent(s, q.docs, n, q.offset)
      ensures Coherent(s, docs, n, q.offset)
    {
      CoherentApresPose(s, q.docs, lu, n, q.offset);
    }
    if q.charge && (q.phase.Relecture? || q.phase.RelectureLue?) {
      forall j | q.offset <= j < q.phase.i
        ensures Coherent(s, docs, s.journal[j], q.phase.fin)
      {
        CoherentApresPose(s, q.docs, lu, s.journal[j], q.phase.fin);
      }
    }
  }

  lemma FinirRelectureOk(s: Etat, q: Processus)
    requires ProcOk(s, q) && q.phase.Relecture? && q.phase.i == q.phase.fin
    ensures ProcOk(s, q.(offset := q.phase.fin, phase := Repos))
  {
    var fin := q.phase.fin;
    if q.charge {
      forall n
        ensures Coherent(s, q.docs, n, fin)
      {
        assert Coherent(s, q.docs, n, q.offset);
        if AnnonceDepuis(s, n, q.offset) {
          var j :| q.offset <= j < |s.journal| && s.journal[j] == n;
          if fin <= j {
            assert AnnonceDepuis(s, n, fin);
          } else {
            assert Coherent(s, q.docs, s.journal[j], fin);
          }
        }
      }
    }
  }

  /** The scan starts right: a name without a file has no memory entry unless its write is in flight. */
  lemma ListerOk(s: Etat, q: Processus)
    requires ProcOk(s, q) && q.phase.Capture?
    ensures ProcOk(s, q.(phase := Balayage(s.disque.Keys)))
  {
    forall n | n !in s.disque.Keys
      ensures Coherent(s, q.docs, n, q.offset)
    {
      if n in q.docs {
        assert EnVol(s, n);
      } else {
        assert Accord(s, q.docs, n);
      }
    }
  }

  /** The state of a process as it was before the step is still right after it. */
  lemma OthersStayOk(s: Etat, pas: Pas, p: Pid)
    requires Inv(s) && Possible(s, pas) && p in s.procs
    ensures ProcOk(Apres(s, pas), s.procs[p])
  {
    StepEvolves(s, pas);
    forall n | EnVol(s, n)
      ensures n in Apres(s, pas).disque || EnVol(Apres(s, pas), n)
    {
      EnVolOuEcrit(s, pas, n);
    }
    BystanderStaysOk(s, Apres(s, pas), s.procs[p]);
  }

  lemma WriterStaysOk(s: Etat, pas: Pas)
    requires Inv(s) && Possible(s, pas)
    requires pas.PoserEnMemoire? || pas.EcrireFichier? || pas.Annoncer? || pas.RepliDisque?
    ensures ProcOk(Apres(s, pas), Local(s, pas))
  {
    var s' := Apres(s, pas);
    var q := s.procs[pas.p];
    OthersStayOk(s, pas, pas.p);
    if pas.PoserEnMemoire? {
      assert AEcrire(pas.doc) in s'.procs[pas.p].ecritures;
      assert EnVol(s', pas.doc.nom);
      PoseReste(s', q, pas.doc, q.offset);
    } else if pas.RepliDisque? {
      PoseReste(s', q, s.disque[pas.nom], q.offset);
    }
  }

  lemma ScannerStaysOk(s: Etat, pas: Pas)
    requires Inv(s) && Possible(s, pas)
    requires pas.CapturerOffset? || pas.ListerDossier? || pas.LireFichier? || pas.PoserFichier? || pas.FinirBalayage?
    ensures ProcOk(Apres(s, pas), Local(s, pas))
  {
    var s' := Apres(s, pas);
    var q := s.procs[pas.p];
    OthersStayOk(s, pas, pas.p);
    if pas.ListerDossier? {
      ListerOk(s', q);
    } else if pas.PoserFichier? {
      PoseReste(s', q, q.phase.lu, q.offset);
    }
  }

  lemma RefresherStaysOk(s: Etat, pas: Pas)
    requires Inv(s) && Possible(s, pas)
    requires pas.DebuterRelecture? || pas.LireLigne? || pas.PoserLigne? || pas.FinirRelecture?
    ensures ProcOk(Apres(s, pas), Local(s, pas))
  {
    var s' := Apres(s, pas);
    var q := s.procs[pas.p];
    OthersStayOk(s, pas, pas.p);
    if pas.LireLigne? {
      assert s.journal[q.phase.i] in s.journal;
    } else if pas.PoserLigne? {
      var lu := q.phase.lu;
      assert lu.nom in s.journal;
      PoseReste(s', q, lu, q.phase.fin);
      CoherentApresPose(s', q.docs, lu, lu.nom, q.phase.fin);
    } else if pas.FinirRelecture? {
      FinirRelectureOk(s', q);
    }
  }

  lemma SharedStaysOk(s: Etat, pas: Pas)
    requires Inv(s) && Possible(s, pas)
    ensures var s' := Apres(s, pas);
            && (forall n :: n in s'.disque ==> s'.disque[n].nom == n)
            && (forall n :: n in s'.journal ==> n in s'.disque)
            && (forall p, e :: p in s'.procs && e in s'.procs[p].ecritures && e.AAnnoncer? ==> e.doc.nom in s'.disque)
  {
    AnnouncedAreWritten(s, pas);
  }

  lemma AnnouncedAreWritten(s: Etat, pas: Pas)
    requires Inv(s) && Possible(s, pas)
    ensures var s' := Apres(s, pas);
            forall p, e :: p in s'.procs && e in s'.procs[p].ecritures && e.AAnnoncer? ==> e.doc.nom in s'.disque
  {
    var s' := Apres(s, pas);
    forall p, e | p in s'.procs && e in s'.procs[p].ecritures && e.AAnnoncer?
      ensures e.doc.nom in s'.disque
    {
      assert e in s.procs[p].ecritures || (pas.EcrireFichier? && e == AAnnoncer(pas.doc));
    }
  }

  /** One step of any process keeps the invariant of all. */
  lemma StepKeepsInv(s: Etat, pas: Pas)
    requires Inv(s) && Possible(s, pas)
    ensures Inv(Apres(s, pas))
  {
    var s' := Apres(s, pas);
    SharedStaysOk(s, pas);
    forall p | p in s'.procs
      ensures ProcOk(s', s'.procs[p])
    {
      if p != pas.p {
        OthersStayOk(s, pas, p);
      } else if pas.PoserEnMemoire? || pas.EcrireFichier? || pas.Annoncer? || pas.RepliDisque? {
        WriterStaysOk(s, pas);
      } else if pas.DebuterRelecture? || pas.LireLigne? || pas.PoserLigne? || pas.FinirRelecture? {
        RefresherStaysOk(s, pas);
      } else {
        ScannerStaysOk(s, pas);
      }
    }
  }

  // ---- main results: over every run ----

  lemma {:induction false} RunKeepsInv(s: Etat, run: seq<Pas>)
    requires Inv(s) && Executable(s, run)
    ensures Inv(Execute(s, run))
    decreases |run|
  {
    if run != [] {
      StepKeepsInv(s, run[0]);
      RunKeepsInv(Apres(s, run[0]), run[1..]);
    }
  }

  lemma InitialInv(s: Etat)
    requires Initial(s)
    ensures Inv(s)
  {
  }

  /** Journal coherence: after every run, for each loaded process and each name. */
  lemma JournalCoherence(s0: Etat, run: seq<Pas>, p: Pid, n: Nom)
    requires Initial(s0) && Executable(s0, run)
    requires var s := Execute(s0, run); p in s.procs && s.procs[p].charge
    ensures var s := Execute(s0, run);
            Coherent(s, s.procs[p].docs, n, s.procs[p].offset)
  {
    InitialInv(s0);
    RunKeepsInv(s0, run);
  }

  /** What reading the files of these journal lines, in order, does to a memory. */
  ghost function Relus(docs: map<Nom, Document>, disque: map<Nom, Document>, lignes: seq<Nom>): map<Nom, Document>
    decreases |lignes|
  {
    if lignes == [] then docs
    else if lignes[0] in disque then Relus(docs[disque[lignes[0]].nom := disque[lignes[0]]], disque, lignes[1..])
    else Relus(docs, disque, lignes[1..])
  }

  /** The state after process p refreshes alone. */
  ghost function Rafraichi(s: Etat, p: Pid): Etat
    requires p in s.procs && s.procs[p].offset <= |s.journal|
  {
    var q := s.procs[p];
    if q.offset == |s.journal| then s
    else
      s.(procs := s.procs[p := q.(docs := Relus(q.docs, s.disque, s.journal[q.offset..]),
                                  offset := |s.journal|, initialisee := true)])
  }

  lemma Enchaine(s: Etat, pas: Pas, run: seq<Pas>)
    requires Possible(s, pas) && Executable(Apres(s, pas), run)
    ensures Executable(s, [pas] + run) && Execute(s, [pas] + run) == Execute(Apres(s, pas), run)
  {
    assert ([pas] + run)[1..] == run;
  }

  /** State s with the memory and the phase of process p replaced. */
  ghost function Avec(s: Etat, p: Pid, docs: map<Nom, Document>, phase: Phase, charge: bool): Etat
    requires p in s.procs
  {
    s.(procs := s.procs[p := s.procs[p].(docs := docs, phase := phase, charge := charge)])
  }

  /** One journal line of a refresh: read the file, then put it into memory. */
  ghost function LigneLue(s: Etat, p: Pid): Etat
    requires p in s.procs && s.procs[p].phase.Relecture? && s.procs[p].phase.i < |s.journal|
  {
    var q := s.procs[p];
    var n := s.journal[q.phase.i];
    Avec(s, p, if n in s.disque then q.docs[s.disque[n].nom := s.disque[n]] else q.docs,
         Relecture(q.phase.fin, q.phase.i + 1), q.charge)
  }

  lemma RefreshOneLine(s: Etat, p: Pid, reste: seq<Pas>) returns (run: seq<Pas>)
    requires p in s.procs && s.procs[p].phase.Relecture?
    requires s.procs[p].phase.i < s.procs[p].phase.fin <= |s.journal|
    requires Executable(LigneLue(s, p), reste)
    ensures Executable(s, run) && Execute(s, run) == Execute(LigneLue(s, p), reste)
  {
    var s1 := Apres(s, LireLigne(p));
    if s.journal[s.procs[p].phase.i] in s.disque {
      assert Apres(s1, PoserLigne(p)).procs == LigneLue(s, p).procs;
      Enchaine(s1, PoserLigne(p), reste);
      Enchaine(s, LireLigne(p), [PoserLigne(p)] + reste);
      run := [LireLigne(p)] + ([PoserLigne(p)] + reste);
    } else {
      assert s1.procs == LigneLue(s, p).procs;
      Enchaine(s, LireLigne(p), reste);
      run := [LireLigne(p)] + reste;
    }
  }

  /** State s once process p has read its lines from i on and has moved its offset to the end. */
  ghost function Relue(s: Etat, p: Pid, docs: map<Nom, Document>, i: nat): Etat
    requires p in s.procs && i <= |s.journal|
  {
    s.(procs := s.procs[p := s.procs[p].(docs := Relus(docs, s.disque, s.journal[i..]),
                                         offset := |s.journal|, phase := Repos)])
  }

  lemma {:induction false} RefreshLoopIsARun(s: Etat, p: Pid) returns (run: seq<Pas>)
    requires p in s.procs && s.procs[p].phase.Relecture? && s.procs[p].phase.fin == |s.journal|
    requires s.procs[p].phase.i <= |s.journal|
    ensures Executable(s, run) && Execute(s, run) == Relue(s, p, s.procs[p].docs, s.procs[p].phase.i)
    decreases |s.journal| - s.procs[p].phase.i
  {
    var q := s.procs[p];
    var i := q.phase.i;
    if i == |s.journal| {
      Enchaine(s, FinirRelecture(p), []);
      run := [FinirRelecture(p)] + [];
    } else {
      var reste := RefreshLoopIsARun(LigneLue(s, p), p);
      run := RefreshOneLine(s, p, reste);
      OneLineThenTheRest(s, p);
    }
  }

  lemma OneLineThenTheRest(s: Etat, p: Pid)
    requires p in s.procs && s.procs[p].phase.Relecture? && s.procs[p].phase.i < |s.journal|
    ensures var i, s1 := s.procs[p].phase.i, LigneLue(s, p);
            Relue(s1, p, s1.procs[p].docs, i + 1) == Relue(s, p, s.procs[p].docs, i)
  {
    var i, s1 := s.procs[p].phase.i, LigneLue(s, p);
    assert s.journal[i..][1..] == s.journal[i + 1..];
    assert Relue(s1, p, s1.procs[p].docs, i + 1).procs == Relue(s, p, s.procs[p].docs, i).procs;
  }

  /** A refresh that nobody interrupts is one of the runs. */
  lemma RefreshIsARun(s: Etat, p: Pid) returns (run: seq<Pas>)
    requires p in s.procs && s.procs[p].phase.Repos? && s.procs[p].offset <= |s.journal|
    ensures Executable(s, run) && Execute(s, run) == Rafraichi(s, p)
  {
    var q := s.procs[p];
    if q.offset == |s.journal| {
      run := [];
    } else {
      var debut := DebuterRelecture(p, |s.journal|);
      var s1 := Apres(s, debut);
      var reste := RefreshLoopIsARun(s1, p);
      Enchaine(s, debut, reste);
      run := [debut] + reste;
      assert Execute(s, run).procs == Rafraichi(s, p).procs;
    }
  }

  lemma CaughtUpMemoryIsDisk(s: Etat, p: Pid)
    requires Inv(s) && p in s.procs && s.procs[p].charge && s.procs[p].offset == |s.journal|
    requires forall n :: !EnVol(s, n)
    ensures s.procs[p].docs == s.disque
  {
    var docs := s.procs[p].docs;
    forall n
      ensures Accord(s, docs, n)
    {
      assert Coherent(s, docs, n, |s.journal|);
    }
    forall n
      ensures (n in docs <==> n in s.disque) && (n in docs ==> docs[n] == s.disque[n])
    {
      assert Accord(s, docs, n);
    }
    assert docs.Keys == s.disque.Keys;
  }

  lemma RefreshPutsNothingInFlight(s: Etat, p: Pid, n: Nom)
    requires p in s.procs && s.procs[p].offset <= |s.journal| && EnVol(Rafraichi(s, p), n)
    ensures EnVol(s, n)
  {
    var s' := Rafraichi(s, p);
    var r, e :| r in s'.procs && e in s'.procs[r].ecritures && e.doc.nom == n;
    assert e in s.procs[r].ecritures;
  }

  /** With no write in flight, one refresh of a loaded process makes its memory equal the disk. */
  lemma RefreshMakesMemoryEqualDisk(s0: Etat, run: seq<Pas>, p: Pid)
    requires Initial(s0) && Executable(s0, run)
    requires var s := Execute(s0, run);
             p in s.procs && s.procs[p].charge && s.procs[p].phase.Repos? && (forall n :: !EnVol(s, n))
    ensures var s := Execute(s0, run);
            s.procs[p].offset <= |s.journal| && Rafraichi(s, p).procs[p].docs == s.disque
  {
    var s := Execute(s0, run);
    InitialInv(s0);
    RunKeepsInv(s0, run);
    var relecture := RefreshIsARun(s, p);
    RunKeepsInv(s, relecture);
    forall n
      ensures !EnVol(Rafraichi(s, p), n)
    {
      if EnVol(Rafraichi(s, p), n) {
        RefreshPutsNothingInFlight(s, p, n);
      }
    }
    CaughtUpMemoryIsDisk(Rafraichi(s, p), p);
  }

  // ---- the uninterrupted operations, as runs ----

  lemma {:induction false} Concatene(s: Etat, r1: seq<Pas>, r2: seq<Pas>)
    requires Executable(s, r1) && Executable(Execute(s, r1), r2)
    ensures Executable(s, r1 + r2) && Execute(s, r1 + r2) == Execute(Execute(s, r1), r2)
    decreases |r1|
  {
    if r1 == [] {
      assert r1 + r2 == r2;
    } else {
      Concatene(Apres(s, r1[0]), r1[1..], r2);
      Enchaine(s, r1[0], r1[1..] + r2);
      assert [r1[0]] + (r1[1..] + r2) == r1 + r2;
    }
  }

  /** storePutDocument, uninterrupted: memory, file, journal line. */
  ghost function Range(s: Etat, p: Pid, doc: Document): Etat
    requires p in s.procs
  {
    var q := s.procs[p];
    Etat(s.disque[doc.nom := doc], s.journal + [doc.nom], s.procs[p := q.(docs := q.docs[doc.nom := doc])])
  }

  lemma PutIsARun(s: Etat, p: Pid, doc: Document) returns (run: seq<Pas>)
    requires p in s.procs
    ensures Executable(s, run) && Execute(s, run) == Range(s, p, doc)
  {
    var s1 := Apres(s, PoserEnMemoire(p, doc));
    var s2 := Apres(s1, EcrireFichier(p, doc));
    var s3 := Apres(s2, Annoncer(p, doc));
    assert s3.procs[p].ecritures == s.procs[p].ecritures;
    assert s3.procs == Range(s, p, doc).procs;
    Enchaine(s2, Annoncer(p, doc), []);
    Enchaine(s1, EcrireFichier(p, doc), [Annoncer(p, doc)] + []);
    Enchaine(s, PoserEnMemoire(p, doc), [EcrireFichier(p, doc)] + ([Annoncer(p, doc)] + []));
    run := [PoserEnMemoire(p, doc)] + ([EcrireFichier(p, doc)] + ([Annoncer(p, doc)] + []));
  }

  /** chargerDocuments, uninterrupted. */
  ghost function Charge(s: Etat, p: Pid): Etat
    requires p in s.procs
  {
    var q := s.procs[p];
    s.(procs := s.procs[p := q.(docs := q.docs + s.disque,
                                offset := if q.initialisee then q.offset else |s.journal|,
                                initialisee := true, charge := true)])
  }

  lemma ScanOneFile(s: Etat, p: Pid, n: Nom)
    requires p in s.procs && s.procs[p].phase.Balayage?
    requires n in s.procs[p].phase.restants && n in s.disque && s.disque[n].nom == n
    ensures Possible(s, LireFichier(p, n)) && Possible(Apres(s, LireFichier(p, n)), PoserFichier(p))
    ensures var q := s.procs[p];
            Apres(Apres(s, LireFichier(p, n)), PoserFichier(p)) ==
            Avec(s, p, q.docs[n := s.disque[n]], Balayage(q.phase.restants - {n}), q.charge)
  {
    var q := s.procs[p];
    var fin := Apres(Apres(s, LireFichier(p, n)), PoserFichier(p));
    assert fin.procs == Avec(s, p, q.docs[n := s.disque[n]], Balayage(q.phase.restants - {n}), q.charge).procs;
  }

  ghost function Fichiers(s: Etat, noms: set<Nom>): map<Nom, Document>
    requires noms <= s.disque.Keys
  {
    map n | n in noms :: s.disque[n]
  }

  lemma {:induction false} ScanLoopIsARun(s: Etat, p: Pid) returns (run: seq<Pas>)
    requires forall n :: n in s.disque ==> s.disque[n].nom == n
    requires p in s.procs && s.procs[p].phase.Balayage? && s.procs[p].phase.restants <= s.disque.Keys
    ensures Executable(s, run)
    ensures Execute(s, run)
         == Avec(s, p, s.procs[p].docs + Fichiers(s, s.procs[p].phase.restants), Repos, true)
    decreases s.procs[p].phase.restants
  {
    var q := s.procs[p];
    var restants := q.phase.restants;
    if restants == {} {
      Enchaine(s, FinirBalayage(p), []);
      run := [FinirBalayage(p)] + [];
      assert q.docs + Fichiers(s, restants) == q.docs;
    } else {
      var n :| n in restants;
      ScanOneFile(s, p, n);
      var s1 := Apres(s, LireFichier(p, n));
      var s2 := Avec(s, p, q.docs[n := s.disque[n]], Balayage(restants - {n}), q.charge);
      var reste := ScanLoopIsARun(s2, p);
      Enchaine(s1, PoserFichier(p), reste);
      Enchaine(s, LireFichier(p, n), [PoserFichier(p)] + reste);
      run := [LireFichier(p, n)] + ([PoserFichier(p)] + reste);
      AvecAvec(s, p, n);
    }
  }

  lemma AvecAvec(s: Etat, p: Pid, n: Nom)
    requires p in s.procs && s.procs[p].phase.Balayage? && s.procs[p].phase.restants <= s.disque.Keys
    requires n in s.procs[p].phase.restants
    ensures var q := s.procs[p];
            var s2 := Avec(s, p, q.docs[n := s.disque[n]], Balayage(q.phase.restants - {n}), q.charge);
            Avec(s2, p, s2.procs[p].docs + Fichiers(s2, s2.procs[p].phase.restants), Repos, true) ==
            Avec(s, p, q.docs + Fichiers(s, q.phase.restants), Repos, true)
  {
    var q := s.procs[p];
    var s2 := Avec(s, p, q.docs[n := s.disque[n]], Balayage(q.phase.restants - {n}), q.charge);
    assert s2.procs[p].docs + Fichiers(s2, s2.procs[p].phase.restants) == q.docs + Fichiers(s, q.phase.restants);
    assert Avec(s2, p, s2.procs[p].docs + Fichiers(s2, s2.procs[p].phase.restants), Repos, true).procs
        == Avec(s, p, q.docs + Fichiers(s, q.phase.restants), Repos, true).procs;
  }

  lemma LoadIsARun(s: Etat, p: Pid) returns (run: seq<Pas>)
    requires forall n :: n in s.disque ==> s.disque[n].nom == n
    requires p in s.procs && s.procs[p].phase.Repos? && !s.procs[p].charge
    ensures Executable(s, run) && Execute(s, run) == Charge(s, p)
  {
    var s1 := Apres(s, CapturerOffset(p));
    var s2 := Apres(s1, ListerDossier(p));
    var reste := ScanLoopIsARun(s2, p);
    Enchaine(s1, ListerDossier(p), reste);
    Enchaine(s, CapturerOffset(p), [ListerDossier(p)] + reste);
    run := [CapturerOffset(p)] + ([ListerDossier(p)] + reste);
    assert Fichiers(s2, s.disque.Keys) == s.disque;
    assert Execute(s, run).procs == Charge(s, p).procs;
  }

  // ---- why the disk fallback of storeGetDocument has to be one step ----

  /** A content read earlier may be put into a coherent memory exactly when it is still fresh. */
  lemma LatePutCoherentIffFresh(s: Etat, docs: map<Nom, Document>, lu: Document, offset: nat, docs': map<Nom, Document>)
    requires forall n :: Coherent(s, docs, n, offset)
    requires docs' == docs[lu.nom := lu]
    ensures (forall n :: Coherent(s, docs', n, offset)) <==> Frais(s, lu, offset)
  {
    if Frais(s, lu, offset) {
      forall n
        ensures Coherent(s, docs', n, offset)
      {
        CoherentApresPose(s, docs, lu, n, offset);
      }
    } else {
      assert !Coherent(s, docs', lu.nom, offset);
    }
  }

  lemma {:induction false} ReadStaysFresh(s: Etat, run: seq<Pas>, lu: Document, depuis: nat)
    requires Inv(s) && Executable(s, run) && depuis <= |s.journal| && Frais(s, lu, depuis)
    ensures Frais(Execute(s, run), lu, depuis)
    decreases |run|
  {
    if run != [] {
      StepEvolves(s, run[0]);
      FraisReste(s, Apres(s, run[0]), lu, depuis);
      StepKeepsInv(s, run[0]);
      ReadStaysFresh(Apres(s, run[0]), run[1..], lu, depuis);
    }
  }

  /** The process ends a refresh in this run. */
  ghost predicate Relit(run: seq<Pas>, p: Pid) {
    exists i :: 0 <= i < |run| && run[i] == FinirRelecture(p)
  }

  lemma {:induction false} OffsetOnlyMovesByRefresh(s: Etat, run: seq<Pas>, p: Pid)
    requires Executable(s, run) && p in s.procs && s.procs[p].charge && !Relit(run, p)
    ensures var f := Execute(s, run); p in f.procs && f.procs[p].charge && f.procs[p].offset == s.procs[p].offset
    decreases |run|
  {
    if run != [] {
      assert run[0] != FinirRelecture(p);
      forall i | 0 <= i < |run| - 1
        ensures run[1..][i] != FinirRelecture(p)
      {
        assert run[1..][i] == run[i + 1];
      }
      OffsetOnlyMovesByRefresh(Apres(s, run[0]), run[1..], p);
    }
  }

  /** A refresh of p has consumed a line for this name that was not in the journal of s yet, and no line for it is left. */
  ghost predicate Consommee(s: Etat, f: Etat, p: Pid, n: Nom)
    requires p in f.procs
  {
    && (exists k :: |s.journal| <= k < f.procs[p].offset && k < |f.journal| && f.journal[k] == n)
    && !AnnonceDepuis(f, n, f.procs[p].offset)
  }

  ghost predicate PartoutCoherent(s: Etat, docs: map<Nom, Document>, depuis: nat) {
    forall n :: Coherent(s, docs, n, depuis)
  }

  /**
   A content is read from the disk, and put into memory after any steps of any processes. The update it hides is lost
   exactly when, in between, another content was written whose line a refresh of this process has consumed, and no
   write of the name is announced later or still in flight.
   */
  lemma LatePutLosesIff(s0: Etat, avant: seq<Pas>, entre: seq<Pas>, p: Pid, n: Nom)
    requires Initial(s0) && Executable(s0, avant) && Executable(Execute(s0, avant), entre)
    requires var s := Execute(s0, avant); p in s.procs && s.procs[p].charge && n in s.disque
    ensures var s := Execute(s0, avant);
            var f := Execute(s, entre);
            && p in f.procs && n in f.disque
            && (!PartoutCoherent(f, f.procs[p].docs[n := s.disque[n]], f.procs[p].offset) <==>
                Consommee(s, f, p, n) && !EnVol(f, n) && f.disque[n] != s.disque[n])
            && (Consommee(s, f, p, n) ==> Relit(entre, p))
  {
    var s := Execute(s0, avant);
    var lu := s.disque[n];
    InitialInv(s0);
    RunKeepsInv(s0, avant);
    RunKeepsInv(s, entre);
    FilesStay(s, entre, p, n);
    ReadStaysFresh(s, entre, lu, |s.journal|);
    var f := Execute(s, entre);
    var q := f.procs[p];
    LatePutCoherentIffFresh(f, q.docs, lu, q.offset, q.docs[n := lu]);
    if AnnonceDepuis(f, n, |s.journal|) {
      var k :| |s.journal| <= k < |f.journal| && f.journal[k] == n;
      assert q.offset <= k ==> AnnonceDepuis(f, n, q.offset);
    }
    if Consommee(s, f, p, n) && !Relit(entre, p) {
      OffsetOnlyMovesByRefresh(s, entre, p);
    }
  }

  lemma {:induction false} FilesStay(s: Etat, run: seq<Pas>, p: Pid, n: Nom)
    requires Executable(s, run) && p in s.procs && s.procs[p].charge && n in s.disque
    ensures var f := Execute(s, run); p in f.procs && f.procs[p].charge && n in f.disque
    decreases |run|
  {
    if run != [] {
      FilesStay(Apres(s, run[0]), run[1..], p, n);
    }
  }

  /**
   So it may be put into memory whenever this process ended no refresh in between: after every run, memory stays
   coherent for every name.
   */
  lemma LatePutIsSafeWithoutARefresh(s0: Etat, avant: seq<Pas>, entre: seq<Pas>, p: Pid, n: Nom, m: Nom)
    requires Initial(s0) && Executable(s0, avant) && Executable(Execute(s0, avant), entre) && !Relit(entre, p)
    requires var s := Execute(s0, avant); p in s.procs && s.procs[p].charge && n in s.disque
    ensures var s := Execute(s0, avant);
            var f := Execute(s, entre);
            p in f.procs && Coherent(f, f.procs[p].docs[n := s.disque[n]], m, f.procs[p].offset)
  {
    var s := Execute(s0, avant);
    InitialInv(s0);
    RunKeepsInv(s0, avant);
    LatePutLosesIff(s0, avant, entre, p, n);
    var f := Execute(s, entre);
    assert PartoutCoherent(f, f.procs[p].docs[n := s.disque[n]], f.procs[p].offset);
  }

  /**
   Split into a read and a later put, the fallback would lose an update: between the two, the sibling
   rewrites the document and a refresh consumes the line that announces it.
   */
  lemma SplitFallbackWouldLoseAnUpdate() returns (s0: Etat, avant: seq<Pas>, entre: seq<Pas>, n: Nom)
    ensures Initial(s0) && Executable(s0, avant) && Executable(Execute(s0, avant), entre)
    ensures var lu := Execute(s0, avant); var fin := Execute(lu, entre);
            && 0 in lu.procs && lu.procs[0].charge && n !in lu.procs[0].docs && n in lu.disque
            && 0 in fin.procs && !Coherent(fin, fin.procs[0].docs[n := lu.disque[n]], n, fin.procs[0].offset)
  {
    n := "n";
    var q := Processus(map[], 0, false, false, Repos, multiset{});
    s0 := Etat(map[], [], map[0 := q, 1 := q]);
    var d1, d2 := Document(n, "1"), Document(n, "2");
    assert d1.contenu[0] != d2.contenu[0];
    avant, entre := ReadThenRewritten(s0, n, d1, d2);
    RewrittenIsLost(s0, n, d1, d2);
  }

  lemma RewrittenIsLost(s0: Etat, n: Nom, d1: Document, d2: Document)
    requires Initial(s0) && s0.disque == map[] && s0.journal == [] && 0 in s0.procs && 1 in s0.procs
    requires d1.nom == n == d2.nom && d1 != d2
    ensures var s2 := Range(Charge(s0, 0), 1, d1);
            var fin := Rafraichi(Range(s2, 1, d2), 0);
            && s2.procs[0].charge && n !in s2.procs[0].docs && n in s2.disque && s2.disque[n] == d1
            && !Coherent(fin, fin.procs[0].docs[n := d1], n, fin.procs[0].offset)
  {
    var s3 := Range(Range(Charge(s0, 0), 1, d1), 1, d2);
    assert s3.procs[0] == s0.procs[0].(initialisee := true, charge := true);
    StaleOnceCaughtUp(s3, 0, d1);
  }

  /** With nothing in flight and the journal consumed, a content that left the disk is lost for good. */
  lemma StaleOnceCaughtUp(s: Etat, p: Pid, lu: Document)
    requires p in s.procs && s.procs[p].offset <= |s.journal|
    requires forall r :: r in s.procs ==> s.procs[r].ecritures == multiset{}
    requires lu.nom in s.disque && s.disque[lu.nom] != lu
    ensures var fin := Rafraichi(s, p);
            !Coherent(fin, fin.procs[p].docs[lu.nom := lu], lu.nom, fin.procs[p].offset)
  {
    assert !EnVol(s, lu.nom);
    if EnVol(Rafraichi(s, p), lu.nom) {
      RefreshPutsNothingInFlight(s, p, lu.nom);
    }
  }

  lemma ReadThenRewritten(s0: Etat, n: Nom, d1: Document, d2: Document) returns (avant: seq<Pas>, entre: seq<Pas>)
    requires Initial(s0) && s0.disque == map[] && s0.journal == [] && 0 in s0.procs && 1 in s0.procs
    requires d1.nom == n == d2.nom
    ensures Executable(s0, avant) && Execute(s0, avant) == Range(Charge(s0, 0), 1, d1)
    ensures Executable(Execute(s0, avant), entre)
    ensures Execute(Execute(s0, avant), entre) == Rafraichi(Range(Range(Charge(s0, 0), 1, d1), 1, d2), 0)
  {
    var chargement := LoadIsARun(s0, 0);
    var ecriture := PutIsARun(Charge(s0, 0), 1, d1);
    Concatene(s0, chargement, ecriture);
    avant := chargement + ecriture;
    var s2 := Range(Charge(s0, 0), 1, d1);
    var reecriture := PutIsARun(s2, 1, d2);
    var relecture := RefreshIsARun(Range(s2, 1, d2), 0);
    Concatene(s2, reecriture, relecture);
    entre := reecriture + relecture;
  }
}
