/**
 The cloud-save records (cloudsave_nextendo.go): one record a player, in memory and in one file each.
 Every method runs under the store's lock. Whether a file could be written is an input.
 */
module SaveStore {
  import opened Wrappers
  import opened Valeurs
  import opened SaveMerge
  import opened BanIds

  const IDENTIFIANT := "Identifier"

  /** recordPath: the player's file name, where an unsafe character becomes '_'. */
  function Assaini(uid: string): string {
    seq(|uid|, i requires 0 <= i < |uid| => if CaractereSur(uid[i]) then uid[i] else '_')
  }

  /** Two players share a file exactly when they differ only where both hold '_' or an unsafe character. */
  lemma SameFileIff(a: string, b: string)
    ensures Assaini(a) == Assaini(b) <==>
            |a| == |b| && forall i :: 0 <= i < |a| && a[i] != b[i] ==>
              (!CaractereSur(a[i]) || a[i] == '_') && (!CaractereSur(b[i]) || b[i] == '_')
  {
    if Assaini(a) == Assaini(b) {
      assert |Assaini(a)| == |a| && |Assaini(b)| == |b|;
      forall i | 0 <= i < |a| && a[i] != b[i]
        ensures (!CaractereSur(a[i]) || a[i] == '_') && (!CaractereSur(b[i]) || b[i] == '_')
      {
        assert Assaini(a)[i] == Assaini(b)[i];
      }
    }
  }

  // ---- who may write a record ----

  /** An id as a signed token may carry it. */
  predicate Accepte(uid: string) {
    ValidBanUID(uid) && CleanBanUID(uid) == uid
  }

  /** identityFromJWT: the user id of a verified token, if it is valid and clean. */
  function UidDuJeton(uid: string): Option<string> {
    if Accepte(uid) then Some(uid) else None
  }

  /** saveOwner: the account's id, if it is valid, is the token's, and is not banned; empty for anybody else. */
  function SaveOwner(compte: Option<string>, jeton: Option<string>, banni: bool): string {
    match compte
    case None => ""
    case Some(id) =>
      var uid := CleanBanUID(id);
      if !ValidBanUID(uid) || jeton != Some(uid) || banni then "" else uid
  }

  /**
   Only accepted ids own a record, and the file of such an id is named by it. `sub` is the id itself, as
   `userIDFromPath` has cut it out of the token's subject.
   */
  lemma OwnerIsAccepted(compte: Option<string>, sub: string, banni: bool)
    requires SaveOwner(compte, UidDuJeton(sub), banni) != ""
    ensures var uid := SaveOwner(compte, UidDuJeton(sub), banni); Accepte(uid) && uid == sub && Assaini(uid) == uid
  {
    AcceptedIdIsItsFile(SaveOwner(compte, UidDuJeton(sub), banni));
  }

  /**
   Who owns a record: exactly the bearer of a token whose user id is valid and clean, when the account service gives that
   very id for the account, however it spells it, and the account is not banned.
   */
  lemma OwnerIff(compte: Option<string>, sub: string, banni: bool)
    ensures SaveOwner(compte, UidDuJeton(sub), banni) ==
            if ValidBanUID(sub) && CleanBanUID(sub) == sub && compte.Some? && CleanBanUID(compte.value) == sub && !banni then sub else ""
  {
    if compte.Some? && ValidBanUID(compte.value) {
      ValidIsCleanOnce(compte.value);
    }
  }

  lemma AcceptedIdIsItsFile(uid: string)
    requires Accepte(uid)
    ensures Assaini(uid) == uid
  {
    assert Sur(uid);
  }

  predicate Identifie(m: Champs) {
    IDENTIFIANT in m && m[IDENTIFIANT].Chaine? && m[IDENTIFIANT].s != ""
  }

  /** ensureSaveIdentifier: keeps a non-empty tag, fills a missing one. */
  function Identifier(m: Champs, tag: string): Champs {
    if Identifie(m) then m else m[IDENTIFIANT := Chaine(tag)]
  }

  /** What one write makes of a record. */
  function Ecrit(m: Champs, delta: Champs, tag: string): Champs {
    Identifier(Fusion(m, delta), tag)
  }

  function EcritTous(m: Champs, deltas: seq<Champs>, tag: string): Champs {
    if deltas == [] then m else Ecrit(EcritTous(m, deltas[..|deltas| - 1], tag), deltas[|deltas| - 1], tag)
  }

  /** Whether the delta writes the tag of its record. */
  predicate SansEtiquette(deltas: seq<Champs>) {
    forall i :: 0 <= i < |deltas| ==> IDENTIFIANT !in deltas[i]
  }

  /** A record keeps the tag it has over any writes that do not name it; one without a tag takes the player's. */
  lemma {:induction false} TagIsKept(m: Champs, deltas: seq<Champs>, tag: string, x: string)
    requires SansEtiquette(deltas) && tag != ""
    ensures x != "" && Lu(m, "Identifier") == Some(Chaine(x)) ==>
              Lu(EcritTous(m, deltas, tag), "Identifier") == Some(Chaine(x)) == Lu(Identifier(m, tag), "Identifier")
    ensures Lu(m, "Identifier") in {None, Some(Chaine(""))} || !m["Identifier"].Chaine? ==>
              && Lu(Identifier(m, tag), "Identifier") == Some(Chaine(tag))
              && (deltas != [] ==> Lu(EcritTous(m, deltas, tag), "Identifier") == Some(Chaine(tag)))
  {
    if deltas != [] {
      var avant := deltas[..|deltas| - 1];
      TagIsKept(m, avant, tag, x);
      FusionAt(EcritTous(m, avant, tag), deltas[|deltas| - 1], IDENTIFIANT);
    }
  }

  lemma EcritAt(m: Champs, delta: Champs, tag: string, k: string)
    ensures k != IDENTIFIANT ==> Lu(Ecrit(m, delta, tag), k) == Lu(Fusion(m, delta), k)
    ensures tag != "" ==> Identifie(Ecrit(m, delta, tag))
  {
  }

  lemma TagSettles(m: Champs, delta: Champs, tag: string)
    requires tag != ""
    ensures var e := Ecrit(m, delta, tag);
            Lu(Ecrit(e, delta, tag), IDENTIFIANT) == Lu(e, IDENTIFIANT)
  {
    var k := IDENTIFIANT;
    var e := Ecrit(m, delta, tag);
    FusionAt(m, delta, k);
    FusionAt(e, delta, k);
    EcritAt(m, delta, tag, k);
    assert Lu(Fusion(m, delta), k) == None || Lu(Fusion(m, delta), k) == Some(Fusion(m, delta)[k]);
    assert Lu(Fusion(e, delta), k) == None || Lu(Fusion(e, delta), k) == Some(Fusion(e, delta)[k]);
  }

  /** A client may repeat a write it got no answer to: from the second on, repeating changes nothing. */
  lemma RepeatedWriteSettles(m: Champs, delta: Champs, tag: string)
    requires tag != ""
    ensures Ecrit(Ecrit(Ecrit(m, delta, tag), delta, tag), delta, tag) == Ecrit(Ecrit(m, delta, tag), delta, tag)
  {
    var e1 := Ecrit(m, delta, tag);
    var e2 := Ecrit(e1, delta, tag);
    forall k
      ensures Lu(Ecrit(e2, delta, tag), k) == Lu(e2, k)
    {
      if k == IDENTIFIANT {
        TagSettles(e1, delta, tag);
      } else {
        OtherKeySettles(m, delta, tag, k);
      }
    }
    SameReads(Ecrit(e2, delta, tag), e2);
  }

  lemma OtherKeySettles(m: Champs, delta: Champs, tag: string, k: string)
    requires k != IDENTIFIANT
    ensures var e2 := Ecrit(Ecrit(m, delta, tag), delta, tag);
            Lu(Ecrit(e2, delta, tag), k) == Lu(e2, k)
  {
    var e1 := Ecrit(m, delta, tag);
    var e2 := Ecrit(e1, delta, tag);
    EcritAt(m, delta, tag, k);
    EcritAt(e1, delta, tag, k);
    EcritAt(e2, delta, tag, k);
    FusionAt(m, delta, k);
    FusionAt(e1, delta, k);
    FusionAt(e2, delta, k);
    if k in delta {
      if delta[k].Carte? && k in m && m[k].Carte? {
        TwoApplicationsSettle(m[k].champs, delta[k].champs);
      }
      KeySettles(Lu(m, k), delta[k]);
    }
  }

  // ---- runs of writes ----

  /** What the store holds for its players, in memory and on disk. */
  datatype Etat = Etat(mem: map<string, Champs>, disque: map<string, Champs>)

  datatype Ecriture = Ecriture(uid: string, delta: Champs)

  type Tag = string -> string

  /** The record a load would start from. */
  ghost function DossierDe(e: Etat, uid: string, tagDe: Tag): Champs {
    Identifier(if uid in e.mem then e.mem[uid] else if Assaini(uid) in e.disque then e.disque[Assaini(uid)] else map[], tagDe(uid))
  }

  /** A write that reached the disk. */
  ghost function ApresEcriture(e: Etat, w: Ecriture, tagDe: Tag): Etat {
    var r := Ecrit(DossierDe(e, w.uid, tagDe), w.delta, tagDe(w.uid));
    Etat(e.mem[w.uid := r], e.disque[Assaini(w.uid) := r])
  }

  ghost function ApresEcritures(e: Etat, ws: seq<Ecriture>, tagDe: Tag): Etat {
    if ws == [] then e else ApresEcriture(ApresEcritures(e, ws[..|ws| - 1], tagDe), ws[|ws| - 1], tagDe)
  }

  ghost function DeltasDe(ws: seq<Ecriture>, uid: string): seq<Champs> {
    if ws == [] then []
    else DeltasDe(ws[..|ws| - 1], uid) + (if ws[|ws| - 1].uid == uid then [ws[|ws| - 1].delta] else [])
  }

  /** Nobody else writes the player's file. */
  ghost predicate FichierPropre(ws: seq<Ecriture>, uid: string) {
    forall w :: w in ws && w.uid != uid ==> Assaini(w.uid) != Assaini(uid)
  }

  lemma EcritTousAjout(m: Champs, ds: seq<Champs>, d: Champs, tag: string)
    ensures EcritTous(m, ds + [d], tag) == Ecrit(EcritTous(m, ds, tag), d, tag)
  {
  }

  /**
   Over any interleaving of the players' writes, a player's record is the fold of its own deltas alone, and
   its file holds what memory holds.
   */
  lemma {:induction false} RecordIsFoldOfItsWrites(e: Etat, ws: seq<Ecriture>, uid: string, tagDe: Tag)
    requires tagDe(uid) != "" && FichierPropre(ws, uid)
    ensures var f := ApresEcritures(e, ws, tagDe);
            && DossierDe(f, uid, tagDe) == EcritTous(DossierDe(e, uid, tagDe), DeltasDe(ws, uid), tagDe(uid))
            && (DeltasDe(ws, uid) != [] ==>
                  uid in f.mem && Assaini(uid) in f.disque && f.mem[uid] == f.disque[Assaini(uid)] == DossierDe(f, uid, tagDe))
  {
    if ws != [] {
      var avant := ws[..|ws| - 1];
      var w := ws[|ws| - 1];
      assert forall v :: v in avant ==> v in ws;
      assert w in ws;
      RecordIsFoldOfItsWrites(e, avant, uid, tagDe);
      var g := ApresEcritures(e, avant, tagDe);
      if w.uid == uid {
        EcritTousAjout(DossierDe(e, uid, tagDe), DeltasDe(avant, uid), w.delta, tagDe(uid));
        EcritAt(DossierDe(g, uid, tagDe), w.delta, tagDe(uid), IDENTIFIANT);
      } else {
        assert DeltasDe(avant, uid) + [] == DeltasDe(avant, uid);
      }
    }
  }

  /**
   The same for the players saveOwner lets through, without any condition on the others: over any interleaving of
   their writes, each record is the fold of its own deltas.
   */
  lemma OwnedRecordIsFoldOfItsWrites(e: Etat, ws: seq<Ecriture>, uid: string, tagDe: Tag)
    requires tagDe(uid) != "" && Accepte(uid) && forall w :: w in ws ==> Accepte(w.uid)
    ensures var f := ApresEcritures(e, ws, tagDe);
            && DossierDe(f, uid, tagDe) == EcritTous(DossierDe(e, uid, tagDe), DeltasDe(ws, uid), tagDe(uid))
            && (DeltasDe(ws, uid) != [] ==>
                  uid in f.mem && uid in f.disque && f.mem[uid] == f.disque[uid] == DossierDe(f, uid, tagDe))
  {
    AcceptedIdIsItsFile(uid);
    forall w | w in ws && w.uid != uid
      ensures Assaini(w.uid) != Assaini(uid)
    {
      AcceptedIdIsItsFile(w.uid);
    }
    RecordIsFoldOfItsWrites(e, ws, uid, tagDe);
  }

  /** The store itself checks no id: called with two ids that share a file, it would mix their records. */
  lemma SharedFileMixesRecords(tagDe: Tag)
    requires tagDe("a.b") != ""
    ensures var e := ApresEcriture(Etat(map[], map[]), Ecriture("a.b", map["Money" := Entier(1)]), tagDe);
            !FichierPropre([Ecriture("a.b", map["Money" := Entier(1)])], "a_b")
            && Lu(DossierDe(e, "a_b", tagDe), "Money") == Some(Entier(1))
  {
  }

  lemma LastUpdateWins(m: map<string, Champs>, k: string, a: Champs, b: Champs)
    ensures m[k := a][k := b] == m[k := b] && m[k := a] - {k} == m - {k} && m[k := b] - {k} == m - {k}
  {
  }

  class MagasinSauvegardes {
    const tagDe: Tag          // identifierFor: four digits of a hash
    var mem: map<string, Champs>
    var disque: map<string, Champs>

    constructor (tagDe: Tag, disque: map<string, Champs>)
      ensures mem == map[] && this.disque == disque && this.tagDe == tagDe
    {
      this.tagDe := tagDe;
      mem := map[];
      this.disque := disque;
    }

    ghost function Vue(): Etat
      reads this
    {
      Etat(mem, disque)
    }

    ghost function Dossier(uid: string): Champs
      reads this
    {
      DossierDe(Vue(), uid, tagDe)
    }

    method PersistLocked(uid: string, rec: Champs, io: bool) returns (ok: bool)
      modifies this`disque
      ensures ok == io && disque == if io then old(disque)[Assaini(uid) := rec] else old(disque)
    {
      if io {
        disque := disque[Assaini(uid) := rec];
      }
      return io;
    }

    /** `vivant`: the record handed back is the one `mem` holds, not a copy. */
    method LoadLocked(uid: string, io: bool) returns (rec: Option<Champs>, vivant: bool)
      modifies this
      ensures rec.Some? ==> rec.value == old(Dossier(uid))
      ensures vivant ==> uid in mem && rec == Some(mem[uid])
      ensures rec.None? ==> !io && mem == old(mem) && disque == old(disque)
      ensures mem == old(mem) || mem == old(mem)[uid := old(Dossier(uid))]
      ensures disque == old(disque) || disque == old(disque)[Assaini(uid) := old(Dossier(uid))]
      ensures old(uid in mem && Identifie(mem[uid])) ==>
                !vivant && rec == Some(old(mem)[uid]) && mem == old(mem) && disque == old(disque)
      ensures old(uid !in mem && Assaini(uid) in disque && Identifie(disque[Assaini(uid)])) ==>
                rec == Some(old(disque)[Assaini(uid)])
      ensures old(uid !in mem && Assaini(uid) in disque) && rec.Some? ==> vivant
    {
      var tag := tagDe(uid);
      vivant := false;
      if uid in mem {
        var copie := mem[uid];
        if !Identifie(copie) {
          copie := copie[IDENTIFIANT := Chaine(tag)];
          var ok := PersistLocked(uid, copie, io);
          if !ok {
            return None, false;
          }
          mem := mem[uid := copie];
          vivant := true;
        }
        return Some(copie), vivant;
      }
      if Assaini(uid) in disque {
        var lu := disque[Assaini(uid)];
        if !Identifie(lu) {
          lu := lu[IDENTIFIANT := Chaine(tag)];
          var ok := PersistLocked(uid, lu, io);
          if !ok {
            return None, false;
          }
        }
        mem := mem[uid := lu];
        return Some(lu), true;
      }
      return Some(Identifier(map[], tag)), false;
    }

    /**
     A write whose file could be written leaves memory and disk holding the merge of the delta into the
     record. One whose file could not leaves the disk alone, but a record just read from the disk stays merged in
     memory.
     */
    method Apply(uid: string, delta: Champs, ioLecture: bool, ioEcriture: bool) returns (ok: bool)
      modifies this
      ensures ok ==> Vue() == ApresEcriture(old(Vue()), Ecriture(uid, delta), tagDe)
      ensures ioLecture && ioEcriture ==> ok
      ensures !ok ==> disque == old(disque) || disque == old(disque)[Assaini(uid) := old(Dossier(uid))]
      ensures !ok && old(uid in mem && Identifie(mem[uid])) ==> mem == old(mem) && disque == old(disque)
      ensures !ok && ioLecture && old(uid !in mem && Assaini(uid) in disque) ==>
                mem == old(mem)[uid := Ecrit(old(Dossier(uid)), delta, tagDe(uid))]
      ensures !ok ==> mem - {uid} == old(mem) - {uid}
    {
      var rec, vivant := LoadLocked(uid, ioLecture);
      if rec.None? {
        return false;
      }
      var ecrit := Ecrit(rec.value, delta, tagDe(uid));
      LastUpdateWins(old(mem), uid, rec.value, ecrit);
      LastUpdateWins(old(disque), Assaini(uid), rec.value, ecrit);
      if vivant {
        mem := mem[uid := ecrit];
      }
      ok := PersistLocked(uid, ecrit, ioEcriture);
      if ok {
        mem := mem[uid := ecrit];
      }
    }
  }
}
