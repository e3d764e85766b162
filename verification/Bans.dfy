/**
 The ban registry (ban.go): current bans, the live streams they cut, and the file they are reloaded from. The
 steps of a run are the holds of the registry's lock, in any order; the class performs them.
 */
module Bans {
  import opened Wrappers
  import opened BanIds
  import opened Listes

  // ---- bans ----

  /** A ban on a Nextendo account number, a save's user id, or both. */
  datatype Ban = Ban(pid: nat, uid: string, reason: string, date: int)

  /** The text key "pid:<number>" or "uid:<id>". */
  datatype CleBan = ParPid(pid: nat) | ParUid(uid: string)

  type Table = map<CleBan, Ban>

  /** How user ids are cleaned, and which are valid. */
  datatype Regles = Regles(clean: string -> string, valide: string -> bool) {
    /** All the registry needs to know of cleaning: a valid id is clean, and not empty, once cleaned. */
    ghost predicate Bonnes() {
      clean("") == "" && forall u :: valide(u) ==> clean(u) != "" && clean(clean(u)) == clean(u) && valide(clean(u))
    }

    function BanEntryKey(b: Ban): CleBan {
      if b.pid != 0 then ParPid(b.pid) else ParUid(clean(b.uid))
    }

    predicate EntreeValide(b: Ban) {
      !(b.pid == 0 && !valide(b.uid)) && !(b.uid != "" && !valide(b.uid))
    }

    /** The ban bears on this account number, or on one of these user ids. */
    predicate Matches(b: Ban, pid: nat, uids: seq<string>) {
      (pid != 0 && b.pid == pid) || (clean(b.uid) != "" && exists i :: 0 <= i < |uids| && clean(uids[i]) == clean(b.uid))
    }

    ghost predicate Banni(bans: Table, pid: nat, uids: seq<string>) {
      exists k :: k in bans && Matches(bans[k], pid, uids)
    }

    function Nettoyee(b: Ban): Ban {
      b.(uid := clean(b.uid))
    }

    /** Each id cleaned, the empty ones and the repeated ones dropped. */
    function CleanedUIDs(uids: seq<string>): seq<string> {
      if uids == [] then []
      else
        var out := CleanedUIDs(uids[..|uids| - 1]);
        var u := clean(uids[|uids| - 1]);
        if u != "" && u !in out then out + [u] else out
    }
  }

  function ReglesDuServeur(): Regles {
    Regles(CleanBanUID, ValidBanUID)
  }

  /** Whom an operator's command is about: an account number, or a save's user id. */
  datatype Cible = Compte(pid: nat) | Sauvegarde(uid: string) {
    function Pid(): nat {
      if Compte? then pid else 0
    }

    function Uid(): string {
      if Compte? then "" else uid
    }

    /**
     The command is about this caller, whatever else the caller presents: its number is the one named, or one of
     its user ids is. A signed connection presents a number and a user id together.
     */
    predicate Designe(numero: nat, uids: seq<string>, r: Regles) {
      if Compte? then numero == pid else exists i :: 0 <= i < |uids| && r.clean(uids[i]) == r.clean(uid)
    }
  }

  /** parseBanTarget: none when the text is refused. */
  function ParseBanTarget(raw: string, r: Regles): Option<Cible> {
    match ParseUint(SansBlancs(raw))
    case Some(pid) => if pid == 0 then None else Some(Compte(pid))
    case None =>
      if Chiffres(raw) || !r.valide(r.clean(raw)) then None else Some(Sauvegarde(r.clean(raw)))
  }

  /** The entry of the ban command; `compte` is the user id the account service gives for the number, if it answers. */
  function EntreeDe(c: Cible, compte: Option<string>, reason: string, date: int, r: Regles): Ban {
    Ban(c.Pid(), if c.Sauvegarde? then c.uid else if compte.Some? then r.clean(compte.value) else "", reason, date)
  }

  lemma ServerRulesAreGood()
    ensures ReglesDuServeur().Bonnes()
  {
    NothingToClean("");
    forall u | ValidBanUID(u)
      ensures CleanBanUID(u) != "" && CleanBanUID(CleanBanUID(u)) == CleanBanUID(u) && ValidBanUID(CleanBanUID(u))
    {
      ValidIsCleanOnce(u);
    }
  }

  datatype Flux = Flux(pid: nat, uids: seq<string>)

  /** No tracked stream matches a current ban. */
  ghost predicate Sain(bans: Table, streams: map<nat, Flux>, r: Regles) {
    forall id :: id in streams ==> !Coupe(bans, streams[id], r)
  }

  /** A current ban matches this stream. */
  ghost predicate Coupe(bans: Table, f: Flux, r: Regles) {
    r.Banni(bans, f.pid, f.uids)
  }

  /** What is kept of the streams once those that match a ban are cut. */
  ghost function Restants(bans: Table, streams: map<nat, Flux>, r: Regles): map<nat, Flux> {
    map id | id in streams && !Coupe(bans, streams[id], r) :: streams[id]
  }

  /** Entries as the registry holds them: under their own key, and valid. */
  ghost predicate TableOk(bans: Table, r: Regles) {
    forall k :: k in bans ==> k == r.BanEntryKey(bans[k]) && r.EntreeValide(bans[k])
  }

  // ---- the file ----

  /** What a reload makes of the file's entries; none if one of them is not valid. */
  function Recharge(es: seq<Ban>, r: Regles): Option<Table> {
    if es == [] then Some(map[])
    else
      match Recharge(es[..|es| - 1], r)
      case None => None
      case Some(t) =>
        var b := r.Nettoyee(es[|es| - 1]);
        if r.EntreeValide(b) then Some(t[r.BanEntryKey(b) := b]) else None
  }

  /** The table a listing of bans stands for. */
  function TableDe(es: seq<Ban>, r: Regles): Table {
    if es == [] then map[] else TableDe(es[..|es| - 1], r)[r.BanEntryKey(es[|es| - 1]) := es[|es| - 1]]
  }

  /** Valid entries, which stand for this table. */
  ghost predicate Liste(es: seq<Ban>, bans: Table, r: Regles) {
    TableDe(es, r) == bans && forall i :: 0 <= i < |es| ==> r.EntreeValide(es[i])
  }

  ghost function Nettoyees(t: Table, r: Regles): Table {
    map k | k in t :: r.Nettoyee(t[k])
  }

  lemma {:induction false} ReloadOf(es: seq<Ban>, r: Regles)
    requires r.Bonnes() && forall i :: 0 <= i < |es| ==> r.EntreeValide(es[i])
    ensures Recharge(es, r) == Some(Nettoyees(TableDe(es, r), r))
  {
    if es != [] {
      ReloadOf(es[..|es| - 1], r);
      var t := TableDe(es[..|es| - 1], r);
      var b := es[|es| - 1];
      assert Nettoyees(t, r)[r.BanEntryKey(b) := r.Nettoyee(b)] == Nettoyees(t[r.BanEntryKey(b) := b], r);
    }
  }

  /** Reloading a listing gives the table it was made from exactly when every id in it is clean. */
  lemma ReloadGivesBack(es: seq<Ban>, bans: Table, r: Regles)
    requires r.Bonnes() && Liste(es, bans, r)
    ensures Recharge(es, r) == Some(Nettoyees(bans, r))
    ensures Recharge(es, r) == Some(bans) <==> forall k :: k in bans ==> r.clean(bans[k].uid) == bans[k].uid
  {
    ReloadOf(es, r);
    var t := Nettoyees(bans, r);
    if t == bans {
      forall k | k in bans
        ensures r.clean(bans[k].uid) == bans[k].uid
      {
        assert t[k] == bans[k];
      }
    }
    if forall k :: k in bans ==> r.clean(bans[k].uid) == bans[k].uid {
      forall k | k in bans
        ensures t[k] == bans[k]
      {
      }
      assert t == bans;
    }
  }

  /** Either way nobody's ban changes: the reloaded table bans exactly the same players. */
  lemma ReloadBansTheSame(bans: Table, pid: nat, uids: seq<string>, r: Regles)
    requires r.Bonnes() && TableOk(bans, r)
    ensures TableOk(Nettoyees(bans, r), r) && (r.Banni(Nettoyees(bans, r), pid, uids) <==> r.Banni(bans, pid, uids))
  {
    var t := Nettoyees(bans, r);
    forall k | k in bans
      ensures r.Matches(t[k], pid, uids) <==> r.Matches(bans[k], pid, uids)
      ensures k == r.BanEntryKey(t[k]) && r.EntreeValide(t[k])
    {
    }
    if r.Banni(bans, pid, uids) {
      var k :| k in bans && r.Matches(bans[k], pid, uids);
      assert k in t && r.Matches(t[k], pid, uids);
    }
    if r.Banni(t, pid, uids) {
      var k :| k in t && r.Matches(t[k], pid, uids);
      assert k in bans && r.Matches(bans[k], pid, uids);
    }
  }

  // ---- the ids of a stream ----

  lemma {:induction false} CleanedIdsAre(uids: seq<string>, r: Regles)
    ensures forall x :: x in r.CleanedUIDs(uids) <==> x != "" && exists i :: 0 <= i < |uids| && r.clean(uids[i]) == x
    ensures SansDoublon(r.CleanedUIDs(uids))
  {
    if uids != [] {
      var n := |uids| - 1;
      CleanedIdsAre(uids[..n], r);
      assert uids == uids[..n] + [uids[n]];
    }
  }

  /** A stream tracked under its cleaned ids is cut by the same bans, when cleaning each id once was enough. */
  lemma CleanedIdsMatchTheSame(b: Ban, pid: nat, uids: seq<string>, r: Regles)
    requires forall i :: 0 <= i < |uids| ==> r.clean(r.clean(uids[i])) == r.clean(uids[i])
    ensures r.Matches(b, pid, r.CleanedUIDs(uids)) <==> r.Matches(b, pid, uids)
  {
    CleanedIdsAre(uids, r);
    var us := r.CleanedUIDs(uids);
    if exists i :: 0 <= i < |uids| && r.clean(uids[i]) == r.clean(b.uid) != "" {
      assert r.clean(b.uid) in us;
      var j :| 0 <= j < |us| && us[j] == r.clean(b.uid);
      assert r.clean(us[j]) == r.clean(b.uid);
    }
    forall j | 0 <= j < |us|
      ensures exists i :: 0 <= i < |uids| && r.clean(uids[i]) == r.clean(us[j])
    {
      assert us[j] in us;
    }
  }

  // ---- runs of the registry ----

  /**
   What the registry holds and what became of the streams it tracked: those whose cancel was handed out, as
   often as it was, and those that ended by themselves.
   */
  datatype Vue = Vue(bans: Table, streams: map<nat, Flux>, suivant: nat, remis: multiset<nat>, partis: set<nat>)

  const VIDE := Vue(map[], map[], 0, multiset{}, {})

  datatype Pas =
    | Recharger(t: Table)             // the file changed: its table, and the streams it matches are cut
    | Vider                           // the file is gone
    | Bannir(entry: Ban)              // a ban whose file could be written
    | BannirSansEcrire(entry: Ban)    // a ban whose file could not
    | Lever(pid: nat, uid: string)
    | Suivre(pid: nat, uids: seq<string>)
    | Quitter(id: nat)

  ghost function Coupee(v: Vue, r: Regles): Vue {
    var gardes := Restants(v.bans, v.streams, r);
    v.(streams := gardes, remis := v.remis + multiset(v.streams.Keys - gardes.Keys))
  }

  function Ajoutee(bans: Table, entry: Ban, r: Regles): Table {
    bans[r.BanEntryKey(entry) := entry]
  }

  /** The bans left once those on the account number, or on the cleaned id, are lifted. */
  function Levee(bans: Table, pid: nat, uid: string, r: Regles): Table {
    map k | k in bans && !Vise(bans[k], pid, uid, r) :: bans[k]
  }

  function Suivie(v: Vue, pid: nat, us: seq<string>): Vue {
    if pid == 0 && us == [] then v
    else v.(suivant := v.suivant + 1, streams := v.streams[v.suivant + 1 := Flux(pid, us)])
  }

  function Partie(v: Vue, id: nat): Vue {
    v.(streams := v.streams - {id}, partis := if id in v.streams then v.partis + {id} else v.partis)
  }

  ghost predicate Suivant(v: Vue, v': Vue, pas: Pas, r: Regles) {
    match pas
    case Recharger(t) => TableOk(t, r) && v' == Coupee(v.(bans := t), r)
    case Vider => v' == v.(bans := map[])
    case Bannir(entry) => r.EntreeValide(entry) && v' == Coupee(v.(bans := Ajoutee(v.bans, entry, r)), r)
    case BannirSansEcrire(entry) => r.EntreeValide(entry) && v' == v.(bans := Ajoutee(v.bans, entry, r))
    case Lever(pid, uid) => v' == v.(bans := Levee(v.bans, pid, uid, r))
    case Suivre(pid, uids) =>
      !r.Banni(v.bans, pid, r.CleanedUIDs(uids)) && v' == Suivie(v, pid, r.CleanedUIDs(uids))
    case Quitter(id) => v' == Partie(v, id)
  }

  /** Every stream ever tracked is still tracked, or was cut and its cancel handed out once, or ended by itself. */
  ghost predicate Inv(v: Vue, r: Regles) {
    && TableOk(v.bans, r)
    && (forall id: nat :: 1 <= id <= v.suivant <==> id in v.streams || id in v.remis || id in v.partis)
    && (forall id: nat :: v.remis[id] <= 1)
    && v.streams.Keys !! v.partis && (forall id :: id in v.remis ==> id !in v.streams && id !in v.partis)
  }

  /** A stream is tracked under the next number, unless it shows neither a number nor an id. */
  lemma TrackedUnlessAnonymous(v: Vue, pid: nat, us: seq<string>)
    ensures if pid == 0 && us == [] then Suivie(v, pid, us) == v
            else var w := Suivie(v, pid, us);
                 w.suivant == v.suivant + 1 && w.streams == v.streams[v.suivant + 1 := Flux(pid, us)] && w.bans == v.bans
  {
  }

  /** A cut takes the streams a current ban matches, and leaves every other where it was. */
  lemma CutExactly(v: Vue, id: nat, r: Regles)
    requires id in v.streams
    ensures id in Coupee(v, r).streams <==> !r.Banni(v.bans, v.streams[id].pid, v.streams[id].uids)
    ensures id in Coupee(v, r).streams ==> Coupee(v, r).streams[id] == v.streams[id]
  {
  }

  lemma CuttingKeepsInv(v: Vue, r: Regles)
    requires Inv(v, r)
    ensures Inv(Coupee(v, r), r)
  {
  }

  lemma CuttingIsSound(v: Vue, r: Regles)
    ensures Sain(Coupee(v, r).bans, Coupee(v, r).streams, r)
  {
  }

  lemma TrackingKeepsInv(v: Vue, pid: nat, us: seq<string>, r: Regles)
    requires Inv(v, r)
    ensures Inv(Suivie(v, pid, us), r)
  {
    assert v.suivant + 1 !in v.streams && v.suivant + 1 !in v.remis && v.suivant + 1 !in v.partis;
  }

  lemma LeavingKeepsInv(v: Vue, id: nat, r: Regles)
    requires Inv(v, r)
    ensures Inv(Partie(v, id), r)
  {
  }

  /** A table changes, and no stream. */
  lemma OtherTableKeepsInv(v: Vue, t: Table, r: Regles)
    requires Inv(v, r) && TableOk(t, r)
    ensures Inv(v.(bans := t), r)
  {
  }

  lemma StepKeepsInv(v: Vue, v': Vue, pas: Pas, r: Regles)
    requires Inv(v, r) && Suivant(v, v', pas, r)
    ensures Inv(v', r)
  {
    match pas
    case Recharger(t) =>
      OtherTableKeepsInv(v, t, r);
      CuttingKeepsInv(v.(bans := t), r);
    case Vider => OtherTableKeepsInv(v, map[], r);
    case Bannir(entry) =>
      OtherTableKeepsInv(v, Ajoutee(v.bans, entry, r), r);
      CuttingKeepsInv(v.(bans := Ajoutee(v.bans, entry, r)), r);
    case BannirSansEcrire(entry) => OtherTableKeepsInv(v, Ajoutee(v.bans, entry, r), r);
    case Lever(pid, uid) => OtherTableKeepsInv(v, Levee(v.bans, pid, uid, r), r);
    case Suivre(pid, uids) => TrackingKeepsInv(v, pid, r.CleanedUIDs(uids), r);
    case Quitter(id) => LeavingKeepsInv(v, id, r);
  }

  /** A step leaves the registry sound if it was, or if it cuts; a ban that could not be written is the exception. */
  lemma StepIsSound(v: Vue, v': Vue, pas: Pas, r: Regles)
    requires Suivant(v, v', pas, r) && !pas.BannirSansEcrire?
    requires pas.Recharger? || pas.Vider? || pas.Bannir? || Sain(v.bans, v.streams, r)
    ensures Sain(v'.bans, v'.streams, r)
  {
    match pas
    case Recharger(t) => CuttingIsSound(v.(bans := t), r);
    case Bannir(entry) => CuttingIsSound(v.(bans := Ajoutee(v.bans, entry, r)), r);
    case Lever(pid, uid) => FewerBans(v.bans, v'.bans, v.streams, r);
    case Vider =>
    case Suivre(pid, uids) => NewStreamIsClear(v, pid, r.CleanedUIDs(uids), r);
    case Quitter(id) =>
  }

  lemma NewStreamIsClear(v: Vue, pid: nat, us: seq<string>, r: Regles)
    requires Sain(v.bans, v.streams, r) && !r.Banni(v.bans, pid, us)
    ensures Sain(Suivie(v, pid, us).bans, Suivie(v, pid, us).streams, r)
  {
    assert !Coupe(v.bans, Flux(pid, us), r);
  }

  /** A run from the registry as the server starts it, state by state. */
  ghost predicate Execution(vs: seq<Vue>, run: seq<Pas>, r: Regles) {
    && |vs| == |run| + 1 && vs[0] == VIDE
    && forall i :: 0 <= i < |run| ==> Franchi(vs, run, r, i)
  }

  ghost predicate Franchi(vs: seq<Vue>, run: seq<Pas>, r: Regles, i: nat)
    requires i < |run| && |vs| == |run| + 1
  {
    Suivant(vs[i], vs[i + 1], run[i], r)
  }

  lemma {:induction false} RunKeepsInv(vs: seq<Vue>, run: seq<Pas>, r: Regles, i: nat)
    requires Execution(vs, run, r) && i < |vs|
    ensures Inv(vs[i], r)
  {
    if i > 0 {
      RunKeepsInv(vs, run, r, i - 1);
      assert Franchi(vs, run, r, i - 1);
      StepKeepsInv(vs[i - 1], vs[i], run[i - 1], r);
    }
  }

  /** Each tracked stream has exactly one fate, and no cancel is ever handed out twice. */
  lemma OneFateEach(vs: seq<Vue>, run: seq<Pas>, r: Regles, i: nat, id: nat)
    requires Execution(vs, run, r) && i < |vs| && 1 <= id <= vs[i].suivant
    ensures (if id in vs[i].streams then 1 else 0) + vs[i].remis[id] + (if id in vs[i].partis then 1 else 0) == 1
  {
    RunKeepsInv(vs, run, r, i);
  }

  /**
   No tracked stream matches a current ban, at any point of a run where no ban went unwritten since the start,
   or since some reload or written ban.
   */
  lemma {:induction false} NoBannedStreamRuns(vs: seq<Vue>, run: seq<Pas>, r: Regles, i: nat, j: nat)
    requires Execution(vs, run, r) && i <= j < |vs|
    requires i == 0 || run[i - 1].Recharger? || run[i - 1].Vider? || run[i - 1].Bannir?
    requires forall k :: i <= k < j ==> !run[k].BannirSansEcrire?
    ensures Sain(vs[j].bans, vs[j].streams, r)
    decreases j
  {
    if j > 0 {
      RunKeepsInv(vs, run, r, j - 1);
      assert Franchi(vs, run, r, j - 1);
      if j > i {
        NoBannedStreamRuns(vs, run, r, i, j - 1);
      }
      StepIsSound(vs[j - 1], vs[j], run[j - 1], r);
    }
  }

  // ---- the registry ----

  /** The file, as another process may also have left it; `marque` stands for its date and size. */
  datatype Fichier = Absent | Illisible(marque: int) | Present(entrees: seq<Ban>, marque: int)

  /** What the registry remembers of the file it last read or wrote. */
  datatype Connu = Connu(loaded: bool, fileExists: bool, marque: int) {
    /** The file has not moved since. */
    predicate Inchange(f: Fichier) {
      !f.Absent? && loaded && fileExists && f.marque == marque
    }
  }

  /** The table a reload leaves; none when it fails. */
  function Relue(bans: Table, c: Connu, f: Fichier, r: Regles): Option<Table> {
    if c.Inchange(f) then Some(bans)
    else
      match f
      case Absent => Some(if c.fileExists || !c.loaded then map[] else bans)
      case Illisible(_) => None
      case Present(entrees, _) => Recharge(entrees, r)
  }

  /** A successful reload: one step of the registry, or none. */
  ghost predicate ApresRelecture(v: Vue, v': Vue, c: Connu, f: Fichier, r: Regles) {
    Relue(v.bans, c, f, r).Some? &&
    var t := Relue(v.bans, c, f, r).value;
    if f.Present? && !c.Inchange(f) then Suivant(v, v', Recharger(t), r)
    else v' == v.(bans := t) && (t == v.bans || Suivant(v, v', Vider, r))
  }

  function ConnuApres(c: Connu, f: Fichier): Connu {
    if c.Inchange(f) then c else
    match f
    case Absent => if c.fileExists || !c.loaded then Connu(true, false, 0) else c
    case Illisible(_) => c
    case Present(_, m) => Connu(true, true, m)
  }

  /** A reload that failed changes nothing; one that succeeded is that step. */
  ghost predicate RelectureFaite(v: Vue, v': Vue, c: Connu, c': Connu, f: Fichier, ok: bool, r: Regles) {
    && (ok <==> Relue(v.bans, c, f, r).Some?)
    && if ok then ApresRelecture(v, v', c, f, r) && c' == ConnuApres(c, f) else v' == v && c' == c
  }

  lemma AbsentReloads(v: Vue, c: Connu, r: Regles)
    requires Inv(v, r)
    ensures var v' := if c.fileExists || !c.loaded then v.(bans := map[]) else v;
            RelectureFaite(v, v', c, ConnuApres(c, Absent), Absent, true, r) && Inv(v', r)
  {
  }

  lemma UnmovedReloads(v: Vue, c: Connu, f: Fichier, r: Regles)
    requires c.Inchange(f)
    ensures RelectureFaite(v, v, c, c, f, true, r)
  {
  }

  lemma BadFileReloads(v: Vue, c: Connu, f: Fichier, r: Regles)
    requires !c.Inchange(f) && (f.Illisible? || (f.Present? && Recharge(f.entrees, r).None?))
    ensures RelectureFaite(v, v, c, c, f, false, r)
  {
  }

  lemma NewFileReloads(v: Vue, v': Vue, c: Connu, f: Fichier, t: Table, r: Regles)
    requires !c.Inchange(f) && f.Present? && Recharge(f.entrees, r) == Some(t) && Suivant(v, v', Recharger(t), r)
    ensures RelectureFaite(v, v', c, Connu(true, true, f.marque), f, true, r)
  {
  }

  /** How an attempt to write the file ends; the file's date and size are read last, once it has been replaced. */
  datatype Disque = Ecrit | EchecAvant | EchecApres

  /** The table a file stands for; none when it cannot be read. */
  function TableDuFichier(f: Fichier, r: Regles): Option<Table> {
    match f
    case Absent => Some(map[])
    case Illisible(_) => None
    case Present(entrees, _) => Recharge(entrees, r)
  }

  /** The registry holds the table of this file, and remembers the file's date and size. */
  ghost predicate AJour(bans: Table, c: Connu, f: Fichier, r: Regles) {
    c.loaded && TableDuFichier(f, r) == Some(bans) && c.fileExists == f.Present? && (f.Present? ==> c.marque == f.marque)
  }

  /** The file as someone else may have left it: any other content comes under another date or size. */
  ghost predicate MarqueFidele(f: Fichier, f': Fichier) {
    f.Present? && !f'.Absent? && f'.marque == f.marque ==> f' == f
  }

  /**
   A registry that has just started, or that holds the table of the file it knows, holds after a successful reload the
   table of the file there is: a new entry is in force, and one taken out, or a file taken away, is lifted. A file
   that cannot be read leaves the registry as it is.
   */
  lemma ReloadFollowsTheFile(bans: Table, c: Connu, f: Fichier, f': Fichier, r: Regles)
    requires (!c.loaded && !c.fileExists) || (AJour(bans, c, f, r) && MarqueFidele(f, f'))
    ensures Relue(bans, c, f', r) == TableDuFichier(f', r)
    ensures Relue(bans, c, f', r).Some? ==> AJour(Relue(bans, c, f', r).value, ConnuApres(c, f'), f', r)
  {
  }

  class Registre {
    const r: Regles
    var bans: Table
    var streams: map<nat, Flux>
    var nextStream: nat
    var connu: Connu
    var fichier: Fichier
    ghost var remis: multiset<nat>    // how often each stream's cancel was handed out
    ghost var partis: set<nat>        // the streams that ended by themselves

    ghost function Etat(): Vue
      reads this
    {
      Vue(bans, streams, nextStream, remis, partis)
    }

    ghost predicate Valid()
      reads this
    {
      Inv(Etat(), r)
    }

    constructor (fichier: Fichier)
      ensures Valid() && Etat() == VIDE && this.fichier == fichier && connu == Connu(false, false, 0)
      ensures r == ReglesDuServeur()
    {
      r := ReglesDuServeur();
      bans, streams, nextStream := map[], map[], 0;
      connu := Connu(false, false, 0);
      this.fichier := fichier;
      remis, partis := multiset{}, {};
    }

    method MatchingLocked(pid: nat, uids: seq<string>) returns (banni: bool)
      ensures banni <==> r.Banni(bans, pid, uids)
    {
      var restants := bans.Keys;
      while restants != {}
        invariant restants <= bans.Keys
        invariant forall k :: k in bans.Keys - restants ==> !r.Matches(bans[k], pid, uids)
        decreases restants
      {
        var k :| k in restants;
        if r.Matches(bans[k], pid, uids) {
          return true;
        }
        restants := restants - {k};
      }
      return false;
    }

    /** Cuts every stream a current ban matches; each cancel is handed out here. */
    method CancellationsForCurrentBansLocked() returns (cancels: set<nat>)
      modifies this`streams, this`remis
      ensures Etat() == Coupee(old(Etat()), r) && cancels == old(streams).Keys - streams.Keys
    {
      cancels := Purger();
      remis := remis + multiset(cancels);
    }

    /** Deletes while it goes through the streams. */
    method Purger() returns (cancels: set<nat>)
      modifies this`streams
      ensures streams == Restants(bans, old(streams), r) && cancels == old(streams).Keys - streams.Keys
    {
      cancels := {};
      var restants := streams.Keys;
      while restants != {}
        invariant restants <= streams.Keys <= old(streams).Keys
        invariant forall id :: id in streams ==> streams[id] == old(streams)[id]
        invariant cancels == old(streams).Keys - streams.Keys
        invariant forall id :: id in old(streams).Keys - restants ==>
            (id in streams <==> !Coupe(bans, old(streams)[id], r))
        decreases restants
      {
        var id :| id in restants;
        var banni := MatchingLocked(streams[id].pid, streams[id].uids);
        restants := restants - {id};
        if banni {
          cancels := cancels + {id};
          streams := streams - {id};
        }
      }
      assert streams == Restants(bans, old(streams), r);
    }

    /** A reload: nothing if the file has not moved, an empty table if it is gone, its entries otherwise. */
    method Refresh() returns (ok: bool, cancels: set<nat>)
      requires Valid()
      modifies this
      ensures Valid() && fichier == old(fichier)
      ensures RelectureFaite(old(Etat()), Etat(), old(connu), connu, fichier, ok, r)
      ensures streams.Keys <= old(streams).Keys && cancels == old(streams).Keys - streams.Keys
    {
      match fichier {
        case Absent =>
          AbsentReloads(Etat(), connu, r);
          if connu.fileExists || !connu.loaded {
            bans, connu := map[], Connu(true, false, 0);
          }
          return true, {};
        case Illisible(m) =>
          ok := connu.loaded && connu.fileExists && m == connu.marque;
          if ok {
            UnmovedReloads(Etat(), connu, fichier, r);
          } else {
            BadFileReloads(Etat(), connu, fichier, r);
          }
          return ok, {};
        case Present(entrees, m) =>
          if connu.loaded && connu.fileExists && m == connu.marque {
            UnmovedReloads(Etat(), connu, fichier, r);
            return true, {};
          }
          var next := LireEntrees(entrees);
          if next.None? {
            BadFileReloads(Etat(), connu, fichier, r);
            return false, {};
          }
          cancels := Reprendre(next.value, m);
          NewFileReloads(old(Etat()), Etat(), old(connu), fichier, next.value, r);
          return true, cancels;
      }
    }

    /** The table read becomes the current one, and the streams it matches are cut. */
    method Reprendre(next: Table, m: int) returns (cancels: set<nat>)
      requires Valid() && TableOk(next, r)
      modifies this`bans, this`connu, this`streams, this`remis
      ensures Valid() && Suivant(old(Etat()), Etat(), Recharger(next), r) && connu == Connu(true, true, m)
      ensures streams.Keys <= old(streams).Keys && cancels == old(streams).Keys - streams.Keys
    {
      bans, connu := next, Connu(true, true, m);
      cancels := CancellationsForCurrentBansLocked();
      StepKeepsInv(old(Etat()), Etat(), Recharger(next), r);
    }

    method LireEntrees(entrees: seq<Ban>) returns (next: Option<Table>)
      ensures next == Recharge(entrees, r)
      ensures next.Some? ==> TableOk(next.value, r)
    {
      var t: Table := map[];
      for i := 0 to |entrees|
        invariant Recharge(entrees[..i], r) == Some(t) && TableOk(t, r)
      {
        assert entrees[..i + 1][..i] == entrees[..i];
        var b := r.Nettoyee(entrees[i]);
        if !r.EntreeValide(b) {
          OneBadEntry(entrees, i, r);
          return None;
        }
        t := t[r.BanEntryKey(b) := b];
      }
      assert entrees[..|entrees|] == entrees;
      return Some(t);
    }

    /** The file holds a listing of the current table. */
    ghost predicate Remplace(m: int)
      reads this
    {
      fichier.Present? && Liste(fichier.entrees, bans, r) && fichier.marque == m
    }

    /** It does, and the registry knows it. */
    ghost predicate Ecrite(m: int)
      reads this
    {
      Remplace(m) && connu == Connu(true, true, m)
    }

    /** What a failed attempt leaves: the file as it was, or the new one under a mark the registry does not know. */
    ghost predicate NonEcrite(io: Disque, m: int, f: Fichier, c: Connu)
      reads this
    {
      connu == c && if io.EchecApres? then Remplace(m) else fichier == f
    }

    /** The current bans, one after the other. */
    method Entrees() returns (es: seq<Ban>)
      requires TableOk(bans, r)
      ensures Liste(es, bans, r)
    {
      es := [];
      var restants := bans.Keys;
      while restants != {}
        invariant restants <= bans.Keys && TableDe(es, r) == SaufCles(bans, restants)
        invariant forall i :: 0 <= i < |es| ==> r.EntreeValide(es[i])
        decreases restants
      {
        var k :| k in restants;
        es := es + [bans[k]];
        restants := restants - {k};
      }
      assert SaufCles(bans, {}) == bans;
    }

    /**
     The file is replaced by the current table, in one listing of it. A failure leaves the file as it was, unless it is
     the last one, met once the file has been replaced: the registry then does not know the file it has written.
     */
    method PersistLocked(io: Disque, m: int) returns (ok: bool)
      requires TableOk(bans, r)
      modifies this`fichier, this`connu
      ensures ok == io.Ecrit?
      ensures ok ==> Ecrite(m)
      ensures !ok ==> NonEcrite(io, m, old(fichier), old(connu))
    {
      var entries := Entrees();
      if io.EchecAvant? {
        return false;
      }
      fichier := Present(entries, m);
      if io.EchecApres? {
        return false;
      }
      connu := Connu(true, true, m);
      return true;
    }

    /**
     The locked part of ban. When the file could be written, the streams the bans match are cut. When writing it
     failed, the entry is in force but no stream is cut.
     */
    method BanLocked(entry: Ban, io: Disque, m: int) returns (ok: bool, cancels: set<nat>)
      requires Valid() && r.EntreeValide(entry)
      modifies this
      ensures Valid() && Suivant(old(Etat()), Etat(), if ok then Bannir(entry) else BannirSansEcrire(entry), r)
      ensures ok == io.Ecrit? && streams.Keys <= old(streams).Keys && cancels == old(streams).Keys - streams.Keys
      ensures if ok then Ecrite(m) else NonEcrite(io, m, old(fichier), old(connu))
    {
      bans := bans[r.BanEntryKey(entry) := entry];
      ghost var avec := Etat();
      assert Inv(avec, r);
      ok := PersistLocked(io, m);
      if !ok {
        return false, {};
      }
      cancels := CancellationsForCurrentBansLocked();
      CuttingKeepsInv(avec, r);
    }

    /** Lifts every ban on the account number, or on the user id, and no other. */
    method UnbanLocked(pid: nat, uid: string, io: Disque, m: int) returns (existed: bool, ok: bool)
      requires Valid()
      modifies this`bans, this`fichier, this`connu
      ensures Valid() && Suivant(old(Etat()), Etat(), Pas.Lever(pid, uid), r)
      ensures existed <==> Vises(old(bans), pid, uid, r)
      ensures ok <==> !existed || io.Ecrit?
      ensures if !existed then fichier == old(fichier) && connu == old(connu)
              else if ok then Ecrite(m)
              else NonEcrite(io, m, old(fichier), old(connu))
    {
      existed := Lever(pid, uid);
      StepKeepsInv(old(Etat()), Etat(), Pas.Lever(pid, uid), r);
      ok := true;
      if existed {
        ok := PersistLocked(io, m);
      }
    }

    /** Deletes while it goes through the table. */
    method Lever(pid: nat, uid: string) returns (existed: bool)
      modifies this`bans
      ensures bans == Levee(old(bans), pid, uid, r)
      ensures existed <==> Vises(old(bans), pid, uid, r)
    {
      existed := false;
      var restants := bans.Keys;
      while restants != {}
        invariant restants <= bans.Keys <= old(bans).Keys
        invariant forall k :: k in bans ==> bans[k] == old(bans)[k]
        invariant forall k :: k in old(bans).Keys - restants ==> (k in bans <==> !Vise(old(bans)[k], pid, uid, r))
        invariant existed <==> bans != old(bans)
        decreases restants
      {
        var key :| key in restants;
        restants := restants - {key};
        if Vise(bans[key], pid, uid, r) {
          bans := bans - {key};
          existed := true;
          assert key !in bans;
        }
      }
      ghost var gardes := Levee(old(bans), pid, uid, r);
      assert bans == gardes;
      if forall k :: k in old(bans) ==> !Vise(old(bans)[k], pid, uid, r) {
        assert gardes == old(bans);
      } else {
        ghost var k :| k in old(bans) && Vise(old(bans)[k], pid, uid, r);
        assert k !in gardes;
      }
    }

    method CleanedUIDs(uids: seq<string>) returns (out: seq<string>)
      ensures out == r.CleanedUIDs(uids)
    {
      out := [];
      var seen: set<string> := {};
      for i := 0 to |uids|
        invariant out == r.CleanedUIDs(uids[..i]) && forall x :: x in seen <==> x in out
      {
        assert uids[..i + 1][..i] == uids[..i];
        var uid := r.clean(uids[i]);
        if uid != "" && uid !in seen {
          seen := seen + {uid};
          out := out + [uid];
        }
      }
      assert uids[..|uids|] == uids;
    }

    /** A stream is tracked, under its cleaned ids, only if no ban matches it; an anonymous one is let through untracked. */
    method TrackLocked(pid: nat, uids: seq<string>) returns (admis: bool, id: Option<nat>)
      requires Valid()
      modifies this`streams, this`nextStream
      ensures Valid()
      ensures if admis then Suivant(old(Etat()), Etat(), Suivre(pid, uids), r)
              else Etat() == old(Etat()) && r.Banni(bans, pid, r.CleanedUIDs(uids))
      ensures id == if nextStream == old(nextStream) then None else Some(nextStream)
    {
      var us := CleanedUIDs(uids);
      var banni := MatchingLocked(pid, us);
      if banni {
        return false, None;
      }
      if pid == 0 && |us| == 0 {
        return true, None;
      }
      nextStream := nextStream + 1;
      streams := streams[nextStream := Flux(pid, us)];
      StepKeepsInv(old(Etat()), Etat(), Suivre(pid, uids), r);
      return true, Some(nextStream);
    }

    /** What trackStream hands back: the stream ended, whether or not it had been cut. */
    method Oublier(id: nat)
      requires Valid()
      modifies this`streams, this`partis
      ensures Valid() && Suivant(old(Etat()), Etat(), Quitter(id), r)
    {
      if id in streams {
        partis := partis + {id};
      }
      streams := streams - {id};
      StepKeepsInv(old(Etat()), Etat(), Quitter(id), r);
    }

    /** ban: the entry is cleaned and checked, the file re-read, then the locked part runs. */
    method BanEntry(entry: Ban, io: Disque, m: int) returns (ok: bool, cancels: set<nat>, ghost lue: Vue)
      requires Valid()
      modifies this
      ensures Valid() && cancels == old(streams).Keys - streams.Keys
      ensures ok <==> r.EntreeValide(r.Nettoyee(entry)) && Relue(old(bans), old(connu), old(fichier), r).Some? && io.Ecrit?
      ensures if r.EntreeValide(r.Nettoyee(entry)) && Relue(old(bans), old(connu), old(fichier), r).Some? then
                ApresRelecture(old(Etat()), lue, old(connu), old(fichier), r)
                && Suivant(lue, Etat(), if io.Ecrit? then Bannir(r.Nettoyee(entry)) else BannirSansEcrire(r.Nettoyee(entry)), r)
              else Etat() == old(Etat())
      ensures ok ==> Ecrite(m)
    {
      lue := Etat();
      var e := r.Nettoyee(entry);
      if !r.EntreeValide(e) {
        return false, {}, lue;
      }
      var relu, coupes := Refresh();
      lue := Etat();
      if !relu {
        return false, {}, lue;
      }
      ok, cancels := BanLocked(e, io, m);
      AllCut(old(streams).Keys, lue.streams.Keys, streams.Keys);
      cancels := coupes + cancels;
    }

    /** unbanTarget: refused without a number or a valid id; otherwise the file is re-read and the bans lifted. */
    method UnbanTarget(pid: nat, uid: string, io: Disque, m: int) returns (existed: bool, ok: bool, ghost lue: Vue)
      requires Valid()
      modifies this
      ensures Valid()
      ensures if (pid != 0 || r.valide(r.clean(uid))) && Relue(old(bans), old(connu), old(fichier), r).Some? then
                && ApresRelecture(old(Etat()), lue, old(connu), old(fichier), r)
                && Suivant(lue, Etat(), Pas.Lever(pid, r.clean(uid)), r)
                && (ok <==> !Vises(lue.bans, pid, r.clean(uid), r) || io.Ecrit?)
                && (existed <==> Vises(lue.bans, pid, r.clean(uid), r) && io.Ecrit?)
              else Etat() == old(Etat()) && !ok && !existed
      ensures existed ==> Ecrite(m)
    {
      lue := Etat();
      var u := r.clean(uid);
      if pid == 0 && !r.valide(u) {
        return false, false, lue;
      }
      var relu, _ := Refresh();
      lue := Etat();
      if !relu {
        return false, false, lue;
      }
      existed, ok := UnbanLocked(pid, u, io, m);
      existed := existed && ok;
    }

    /** The `ban` command: exit code 2 for a refused text, 1 for a failed ban. */
    method CommandeBan(raw: string, compte: Option<string>, reason: string, date: int, io: Disque, m: int) returns (code: nat)
      requires Valid()
      modifies this
      ensures Valid() && code <= 2 && (code == 2 <==> ParseBanTarget(raw, r).None?)
      ensures code == 2 ==> Etat() == old(Etat()) && fichier == old(fichier)
      ensures code == 0 ==>
                var t := Relue(old(bans), old(connu), old(fichier), r);
                var e := r.Nettoyee(EntreeDe(ParseBanTarget(raw, r).value, compte, reason, date, r));
                t.Some? && r.EntreeValide(e) && bans == Ajoutee(t.value, e, r) && Ecrite(m)
    {
      var c := ParseBanTarget(raw, r);
      if c.None? {
        return 2;
      }
      var ok, _, _ := BanEntry(EntreeDe(c.value, compte, reason, date, r), io, m);
      return if ok then 0 else 1;
    }

    /** The `unban` command. */
    method CommandeUnban(raw: string, io: Disque, m: int) returns (code: nat, removed: bool)
      requires Valid()
      modifies this
      ensures Valid() && code <= 2 && (code == 2 <==> ParseBanTarget(raw, r).None?)
      ensures code == 2 ==> Etat() == old(Etat()) && fichier == old(fichier)
      ensures removed ==> code == 0 && Ecrite(m)
      ensures code == 0 ==>
                var t := Relue(old(bans), old(connu), old(fichier), r);
                var c := ParseBanTarget(raw, r).value;
                && t.Some? && bans == Levee(t.value, c.Pid(), r.clean(c.Uid()), r)
                && (removed <==> Vises(t.value, c.Pid(), r.clean(c.Uid()), r))
    {
      var c := ParseBanTarget(raw, r);
      if c.None? {
        return 2, false;
      }
      var ok: bool;
      ghost var lue: Vue;
      removed, ok, lue := UnbanTarget(c.value.Pid(), c.value.Uid(), io, m);
      return if ok then 0 else 1, removed;
    }
  }

  lemma AllCut(a: set<nat>, b: set<nat>, c: set<nat>)
    requires c <= b <= a
    ensures (a - b) + (b - c) == a - c
  {
  }

  ghost predicate Vises(bans: Table, pid: nat, uid: string, r: Regles) {
    exists k :: k in bans && Vise(bans[k], pid, uid, r)
  }

  ghost function SaufCles(bans: Table, ks: set<CleBan>): Table {
    map k | k in bans && k !in ks :: bans[k]
  }

  lemma {:induction false} OneBadEntry(es: seq<Ban>, i: nat, r: Regles)
    requires i < |es| && Recharge(es[..i], r).Some? && !r.EntreeValide(r.Nettoyee(es[i]))
    ensures Recharge(es, r).None?
    decreases |es|
  {
    if i + 1 < |es| {
      assert es[..|es| - 1][..i] == es[..i];
      OneBadEntry(es[..|es| - 1], i, r);
    }
  }

  /** A ban that goes unwritten leaves the registry sound exactly when no tracked stream matches it. */
  lemma OneMoreBan(bans: Table, entry: Ban, streams: map<nat, Flux>, r: Regles)
    requires Sain(bans, streams, r)
    ensures Sain(bans[r.BanEntryKey(entry) := entry], streams, r) <==>
            forall id :: id in streams ==> !r.Matches(entry, streams[id].pid, streams[id].uids)
  {
    var t := bans[r.BanEntryKey(entry) := entry];
    forall id | id in streams
      ensures Coupe(t, streams[id], r) <==> r.Matches(entry, streams[id].pid, streams[id].uids)
    {
      NewlyCut(bans, entry, streams[id], r);
    }
  }

  lemma NewlyCut(bans: Table, entry: Ban, f: Flux, r: Regles)
    ensures Coupe(bans[r.BanEntryKey(entry) := entry], f, r) ==> r.Matches(entry, f.pid, f.uids) || Coupe(bans, f, r)
    ensures r.Matches(entry, f.pid, f.uids) ==> Coupe(bans[r.BanEntryKey(entry) := entry], f, r)
  {
    var t := bans[r.BanEntryKey(entry) := entry];
    assert t[r.BanEntryKey(entry)] == entry;
    if k :| k in t && r.Matches(t[k], f.pid, f.uids) {
      if k != r.BanEntryKey(entry) {
        assert k in bans && r.Matches(bans[k], f.pid, f.uids);
      }
    }
  }

  lemma FewerBans(bans: Table, fewer: Table, streams: map<nat, Flux>, r: Regles)
    requires Sain(bans, streams, r) && forall k :: k in fewer ==> k in bans && fewer[k] == bans[k]
    ensures Sain(fewer, streams, r)
  {
  }

  /** The ban this entry takes the place of was the only one on its user id, and the entry is on another. */
  ghost predicate Libere(bans: Table, entry: Ban, r: Regles) {
    var cle := r.BanEntryKey(entry);
    && cle in bans && r.clean(bans[cle].uid) != "" && r.clean(bans[cle].uid) != r.clean(entry.uid)
    && forall k :: k in bans && k != cle ==> r.clean(bans[k].uid) != r.clean(bans[cle].uid)
  }

  ghost predicate PlusLarge(bans: Table, t: Table, r: Regles) {
    forall pid, uids :: r.Banni(bans, pid, uids) ==> r.Banni(t, pid, uids)
  }

  /** A new ban leaves everyone banned who was, but when it takes the place of the only ban on another user id. */
  lemma NewBanFreesNobodyIff(bans: Table, entry: Ban, r: Regles)
    requires TableOk(bans, r)
    ensures PlusLarge(bans, bans[r.BanEntryKey(entry) := entry], r) <==> !Libere(bans, entry, r)
  {
    var cle := r.BanEntryKey(entry);
    var t := bans[cle := entry];
    if Libere(bans, entry, r) {
      var uid := bans[cle].uid;
      assert [uid][0] == uid;
      assert r.Matches(bans[cle], 0, [uid]);
      assert r.Banni(bans, 0, [uid]);
      forall k | k in t
        ensures !r.Matches(t[k], 0, [uid])
      {
        assert k != cle ==> t[k] == bans[k];
      }
    } else {
      forall pid, uids | r.Banni(bans, pid, uids)
        ensures r.Banni(t, pid, uids)
      {
        StillBanned(bans, entry, pid, uids, r);
      }
    }
  }

  lemma StillBanned(bans: Table, entry: Ban, pid: nat, uids: seq<string>, r: Regles)
    requires TableOk(bans, r) && !Libere(bans, entry, r) && r.Banni(bans, pid, uids)
    ensures r.Banni(bans[r.BanEntryKey(entry) := entry], pid, uids)
  {
    var cle := r.BanEntryKey(entry);
    var t := bans[cle := entry];
    var k :| k in bans && r.Matches(bans[k], pid, uids);
    if k != cle {
      assert t[k] == bans[k];
    } else if pid != 0 && bans[cle].pid == pid {
      assert t[cle] == entry && entry.pid == pid;
    } else if r.clean(bans[cle].uid) == r.clean(entry.uid) {
      assert t[cle] == entry && r.Matches(entry, pid, uids);
    } else {
      var l :| l in bans && l != cle && r.clean(bans[l].uid) == r.clean(bans[cle].uid);
      assert t[l] == bans[l] && r.Matches(bans[l], pid, uids);
    }
  }

  /** The bans an unban lifts; `uid` has been cleaned once. */
  predicate Vise(b: Ban, pid: nat, uid: string, r: Regles) {
    (pid != 0 && b.pid == pid) || (uid != "" && r.clean(b.uid) == uid)
  }

  /** A ban that an unban of this target leaves in force bears on this caller. */
  ghost predicate AutreBan(bans: Table, pid: nat, uid: string, numero: nat, uids: seq<string>, r: Regles) {
    exists k :: k in bans && !Vise(bans[k], pid, uid, r) && r.Matches(bans[k], numero, uids)
  }

  /**
   After an unban a caller is banned exactly when a ban that is on neither the number nor the cleaned id of the target
   bears on it: none does on a caller that presents the target alone, however its id is spelt.
   */
  lemma UnbanFrees(bans: Table, pid: nat, uid: string, numero: nat, uids: seq<string>, r: Regles)
    ensures r.Banni(Levee(bans, pid, uid, r), numero, uids) <==> AutreBan(bans, pid, uid, numero, uids, r)
    ensures numero in {0, pid} && (forall i :: 0 <= i < |uids| ==> r.clean(uids[i]) in {"", uid}) ==>
              !AutreBan(bans, pid, uid, numero, uids, r)
  {
    var levee := Levee(bans, pid, uid, r);
    if k :| k in bans && !Vise(bans[k], pid, uid, r) && r.Matches(bans[k], numero, uids) {
      assert k in levee && r.Matches(levee[k], numero, uids);
    }
  }

  /**
   The signed caller, with its number and its user id. Unbanning the number leaves it banned exactly when another ban
   is on its id under another number or none; unbanning the id, exactly when its number is banned under another id.
   */
  lemma SignedCallerAfterUnban(bans: Table, n: nat, u: string, r: Regles)
    requires TableOk(bans, r) && r.clean("") == "" && n != 0 && r.clean(u) != ""
    ensures r.Banni(Levee(bans, n, "", r), n, [u]) <==>
            exists k :: k in bans && bans[k].pid != n && r.clean(bans[k].uid) == r.clean(u)
    ensures r.Banni(Levee(bans, 0, r.clean(u), r), n, [u]) <==>
            ParPid(n) in bans && r.clean(bans[ParPid(n)].uid) != r.clean(u)
  {
    assert [u][0] == u;
    UnbanFrees(bans, n, "", n, [u], r);
    UnbanFrees(bans, 0, r.clean(u), n, [u], r);
    if k :| k in bans && bans[k].pid != n && r.clean(bans[k].uid) == r.clean(u) {
      assert !Vise(bans[k], n, "", r) && r.Matches(bans[k], n, [u]);
    }
    if ParPid(n) in bans && r.clean(bans[ParPid(n)].uid) != r.clean(u) {
      assert !Vise(bans[ParPid(n)], 0, r.clean(u), r) && r.Matches(bans[ParPid(n)], n, [u]);
    }
  }

  /** Banning and unbanning one text without the command that cleans it lifts the ban exactly when one cleaning is enough. */
  lemma UnbanUndoesBanIff(brut: string, reason: string, date: int, r: Regles)
    requires r.clean(brut) != ""
    ensures Vise(r.Nettoyee(Ban(0, brut, reason, date)), 0, r.clean(brut), r) <==> r.clean(r.clean(brut)) == r.clean(brut)
  {
  }

  /** An accepted text gives a number other than zero, or a user id that is clean once cleaned. */
  lemma AcceptedTarget(raw: string, r: Regles)
    requires r.Bonnes() && ParseBanTarget(raw, r).Some?
    ensures var c := ParseBanTarget(raw, r).value;
            if c.Compte? then 0 < c.pid < DEUX64
            else c.uid == r.clean(raw) && r.valide(c.uid) && r.valide(r.clean(c.uid)) && r.clean(r.clean(c.uid)) == r.clean(c.uid)
  {
  }

  /** The texts that name a number: it in decimal, with blanks around it, from one to the largest of 64 bits. */
  lemma NumberTargets(n: nat, g: string, h: string, r: Regles)
    requires Blancs(g) && Blancs(h)
    ensures 0 < n < DEUX64 ==> ParseBanTarget(g + EcritDecimal(n) + h, r) == Some(Compte(n))
    ensures n == 0 ==> ParseBanTarget(g + EcritDecimal(n) + h, r) == None
    ensures n >= DEUX64 ==> ParseBanTarget(EcritDecimal(n), r) == None
  {
    DigitsAreNoBlanks(n, g, h);
    DigitsAreNoBlanks(n, "", "");
    assert "" + EcritDecimal(n) + "" == EcritDecimal(n);
    NumberRoundTrip(n);
  }

  /** Any other text names the id it cleans to, if that is valid. */
  lemma OtherTargets(raw: string, r: Regles)
    requires ParseUint(SansBlancs(raw)).None? && !Chiffres(raw)
    ensures ParseBanTarget(raw, r) == if r.valide(r.clean(raw)) then Some(Sauvegarde(r.clean(raw))) else None
  {
  }

  /** An entry is accepted exactly when it names a number or an id, and any id it names is valid. */
  lemma EntryAcceptedIff(b: Ban)
    ensures ReglesDuServeur().EntreeValide(b) <==> (b.pid != 0 || b.uid != "") && (b.uid == "" || ValidBanUID(b.uid))
  {
    NothingToClean("");
  }

  /** What the ban command stores for a user id is clean, so a reload gives it back as it is. */
  lemma OperatorEntryIsClean(c: Cible, raw: string, compte: Option<string>, reason: string, date: int, r: Regles)
    requires r.Bonnes() && ParseBanTarget(raw, r) == Some(c) && c.Sauvegarde?
    ensures var e := r.Nettoyee(EntreeDe(c, compte, reason, date, r));
            r.EntreeValide(e) && r.Nettoyee(e) == e && e.uid == r.clean(c.uid)
  {
    AcceptedTarget(raw, r);
  }

  /** The entry of the ban command bears on everyone its text designates; the unban of that text lifts it, reloaded or not. */
  lemma SameTargetIsLifted(c: Cible, raw: string, compte: Option<string>, reason: string, date: int, r: Regles)
    requires r.Bonnes() && ParseBanTarget(raw, r) == Some(c)
    ensures var e := r.Nettoyee(EntreeDe(c, compte, reason, date, r));
            && Vise(e, c.Pid(), r.clean(c.Uid()), r) && Vise(r.Nettoyee(e), c.Pid(), r.clean(c.Uid()), r)
            && forall numero, uids :: c.Designe(numero, uids, r) ==> r.Matches(e, numero, uids)
  {
    AcceptedTarget(raw, r);
    if c.Sauvegarde? {
      OperatorEntryIsClean(c, raw, compte, reason, date, r);
      assert c.uid != "" && r.clean(c.uid) != "";
    }
  }

  /** Banning a number bans the user id the account service gives for it too, whatever number comes with it. */
  lemma AccountIdIsBannedToo(pid: nat, id: string, reason: string, date: int, numero: nat, uids: seq<string>, i: nat, r: Regles)
    requires r.Bonnes() && r.valide(id) && i < |uids| && r.clean(uids[i]) == r.clean(id)
    ensures var e := r.Nettoyee(EntreeDe(Compte(pid), Some(id), reason, date, r));
            e.pid == pid && r.EntreeValide(e) && r.Matches(e, numero, uids)
  {
    assert r.valide(r.clean(id));
  }

  /** A reload changes nothing to what an unban lifts. */
  lemma ReloadThenLift(bans: Table, pid: nat, uid: string, r: Regles)
    requires r.Bonnes() && TableOk(bans, r)
    ensures Levee(Nettoyees(bans, r), pid, uid, r) == Nettoyees(Levee(bans, pid, uid, r), r)
  {
    forall k | k in bans
      ensures Vise(r.Nettoyee(bans[k]), pid, uid, r) <==> Vise(bans[k], pid, uid, r)
    {
      assert r.EntreeValide(bans[k]);
    }
  }

  /** The ban an entry takes the place of is on the target too, so an unban forgets the entry ever was there. */
  lemma LiftForgetsTheEntry(avant: Table, e: Ban, pid: nat, uid: string, r: Regles)
    requires TableOk(avant, r) && Vise(e, pid, uid, r) && (pid != 0 ==> e.pid == pid) && (pid == 0 ==> e.pid == 0)
    ensures Levee(Ajoutee(avant, e, r), pid, uid, r) == Levee(avant, pid, uid, r)
  {
    var cle := r.BanEntryKey(e);
    assert cle in avant ==> cle == r.BanEntryKey(avant[cle]) && Vise(avant[cle], pid, uid, r);
  }

  /**
   Whatever text the two commands accept, `ban` bans everyone it designates, whatever else they present. `unban` of the
   same text, run by another process on the file left behind, lifts that ban and leaves the table that unbanning alone
   would have left: as many callers are banned, designated or not, as if the ban had never been.
   */
  lemma OperatorUnbanUndoesBan(raw: string, compte: Option<string>, reason: string, date: int, avant: Table, es: seq<Ban>, r: Regles)
    requires r.Bonnes() && TableOk(avant, r) && ParseBanTarget(raw, r).Some?
    requires var e := r.Nettoyee(EntreeDe(ParseBanTarget(raw, r).value, compte, reason, date, r));
             r.EntreeValide(e) && Liste(es, Ajoutee(avant, e, r), r)
    ensures var c := ParseBanTarget(raw, r).value;
            var e := r.Nettoyee(EntreeDe(c, compte, reason, date, r));
            && Recharge(es, r).Some?
            && var levee := Levee(Recharge(es, r).value, c.Pid(), r.clean(c.Uid()), r);
            && r.BanEntryKey(e) in Recharge(es, r).value && r.BanEntryKey(e) !in levee
            && (forall numero, uids :: c.Designe(numero, uids, r) ==> r.Banni(Recharge(es, r).value, numero, uids))
            && levee == Nettoyees(Levee(avant, c.Pid(), r.clean(c.Uid()), r), r)
  {
    var c := ParseBanTarget(raw, r).value;
    var e := r.Nettoyee(EntreeDe(c, compte, reason, date, r));
    var bans := Ajoutee(avant, e, r);
    AcceptedTarget(raw, r);
    ReloadGivesBack(es, bans, r);
    SameTargetIsLifted(c, raw, compte, reason, date, r);
    ReloadThenLift(bans, c.Pid(), r.clean(c.Uid()), r);
    LiftForgetsTheEntry(avant, e, c.Pid(), r.clean(c.Uid()), r);
    var relue := Nettoyees(bans, r);
    assert r.BanEntryKey(e) in bans && relue[r.BanEntryKey(e)] == r.Nettoyee(e);
    forall numero, uids | c.Designe(numero, uids, r)
      ensures r.Banni(relue, numero, uids)
    {
      assert r.Matches(bans[r.BanEntryKey(e)], numero, uids);
      assert r.Banni(bans, numero, uids);
      ReloadBansTheSame(bans, numero, uids, r);
    }
  }

  /** A table without some of the bans, ids cleaned or not, is in order. */
  lemma LiftedIsOk(bans: Table, pid: nat, uid: string, r: Regles)
    requires TableOk(bans, r)
    ensures TableOk(Levee(bans, pid, uid, r), r)
  {
  }

  /**
   So who is still banned once the two commands have run, and the server has read what they left? Exactly those on
   whom there was, before, a ban on neither the number nor the cleaned id of the target; nobody whom nothing banned
   before, and nobody who presents the target alone.
   */
  lemma BannedAfterBanAndUnban(raw: string, compte: Option<string>, reason: string, date: int, avant: Table,
                               es: seq<Ban>, es': seq<Ban>, numero: nat, uids: seq<string>, r: Regles)
    requires r.Bonnes() && TableOk(avant, r) && ParseBanTarget(raw, r).Some?
    requires var e := r.Nettoyee(EntreeDe(ParseBanTarget(raw, r).value, compte, reason, date, r));
             r.EntreeValide(e) && Liste(es, Ajoutee(avant, e, r), r) && Recharge(es, r).Some?
    requires var c := ParseBanTarget(raw, r).value;
             Liste(es', Levee(Recharge(es, r).value, c.Pid(), r.clean(c.Uid()), r), r)
    ensures var c := ParseBanTarget(raw, r).value;
            && Recharge(es', r).Some?
            && var apres := Recharge(es', r).value;
            && (r.Banni(apres, numero, uids) <==> AutreBan(avant, c.Pid(), r.clean(c.Uid()), numero, uids, r))
            && (r.Banni(apres, numero, uids) <==> AutreBan(Recharge(es, r).value, c.Pid(), r.clean(c.Uid()), numero, uids, r))
            && (r.Banni(apres, numero, uids) ==> r.Banni(avant, numero, uids))
            && (Seul(c, numero, uids, r) ==> !r.Banni(apres, numero, uids))
  {
    var c := ParseBanTarget(raw, r).value;
    var pid, u := c.Pid(), r.clean(c.Uid());
    OperatorUnbanUndoesBan(raw, compte, reason, date, avant, es, r);
    var relue := Recharge(es, r).value;
    var reste := Levee(avant, pid, u, r);
    LiftedIsOk(avant, pid, u, r);
    ReloadBansTheSame(reste, numero, uids, r);
    ReloadGivesBack(es', Nettoyees(reste, r), r);
    ReloadBansTheSame(Nettoyees(reste, r), numero, uids, r);
    UnbanFrees(avant, pid, u, numero, uids, r);
    UnbanFrees(relue, pid, u, numero, uids, r);
  }

  /** The caller presents the target of the command and nothing else. */
  predicate Seul(c: Cible, numero: nat, uids: seq<string>, r: Regles) {
    numero in {0, c.Pid()} && forall i :: 0 <= i < |uids| ==> r.clean(uids[i]) in {"", r.clean(c.Uid())}
  }

  /**
   Unbanning may not free the player named: the table held a ban on the player's user id, and the account service gave
   no id for the number. After `ban 5` and `unban 5` the player of that number and id is still banned.
   */
  lemma OtherBanOnTheIdHolds(u: string, raw: string, r: Regles) returns (avant: Table, e: Ban)
    requires r.Bonnes() && r.valide(u) && r.clean(u) == u && raw == "5"
    ensures avant == map[ParUid(u) := Ban(0, u, "", 0)]
    ensures ParseBanTarget(raw, r) == Some(Compte(5)) && e == r.Nettoyee(EntreeDe(Compte(5), None, "", 0, r))
    ensures TableOk(avant, r) && r.EntreeValide(e)
    ensures var apres := Levee(Ajoutee(avant, e, r), 5, "", r);
            r.Banni(apres, 5, [u]) && !r.Banni(apres, 5, [])
  {
    var b := Ban(0, u, "", 0);
    avant, e := map[ParUid(u) := b], Ban(5, "", "", 0);
    TargetFive(raw, r);
    var bans := Ajoutee(avant, e, r);
    assert bans[ParUid(u)] == b && bans[ParPid(5)] == e;
    SignedCallerAfterUnban(bans, 5, u, r);
    UnbanFrees(bans, 5, "", 5, [], r);
  }

  /** The same the other way round: the table held a ban on the number, and the operator bans and unbans the id. */
  lemma OtherBanOnTheNumberHolds(u: string, r: Regles) returns (avant: Table, e: Ban)
    requires r.Bonnes() && ParseBanTarget(u, r) == Some(Sauvegarde(u))
    ensures avant == map[ParPid(5) := Ban(5, "", "", 0)]
    ensures e == r.Nettoyee(EntreeDe(Sauvegarde(u), None, "", 0, r))
    ensures TableOk(avant, r) && r.EntreeValide(e)
    ensures var apres := Levee(Ajoutee(avant, e, r), 0, r.clean(u), r);
            r.Banni(apres, 5, [u]) && !r.Banni(apres, 0, [u])
  {
    AcceptedTarget(u, r);
    var b := Ban(5, "", "", 0);
    avant, e := map[ParPid(5) := b], Ban(0, u, "", 0);
    var bans := Ajoutee(avant, e, r);
    assert bans[ParPid(5)] == b && bans[ParUid(u)] == e;
    SignedCallerAfterUnban(bans, 5, u, r);
    UnbanFrees(bans, 0, r.clean(u), 0, [u], r);
  }

  lemma TargetFive(raw: string, r: Regles)
    requires raw == "5"
    ensures ParseBanTarget(raw, r) == Some(Compte(5))
  {
    assert SansBlancGauche(raw) == raw && SansBlancDroite(raw) == raw;
    assert Decimal(raw[..0]) == 0;
    assert Decimal(raw) == 5;
  }
}
