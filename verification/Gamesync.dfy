/**
 The gamesync server (gamesync.go, gamesync_boite_pia.go): one flat document table, where a document's key
 carries its game; the registry of user sessions, ranked within their game; and each console's mailbox.
 */
module Gamesync {
  import opened Wrappers
  import opened Texte
  import opened Valeurs

  const NUL := '\0'

  /** Game ids and document names never hold the separator. */
  predicate SansSeparateur(s: string) {
    NUL !in s
  }

  function CleStore(gsid: string, nom: string): string {
    if gsid == "" then nom else gsid + [NUL] + nom
  }

  lemma SeparatorTellsTheGame(g: string, n: string)
    requires SansSeparateur(n)
    ensures NUL in CleStore(g, n) <==> g != ""
  {
  }

  /** A key belongs to one game and one name. */
  lemma KeysAreInjective(g1: string, n1: string, g2: string, n2: string)
    requires SansSeparateur(g1) && SansSeparateur(n1) && SansSeparateur(g2) && SansSeparateur(n2)
    ensures CleStore(g1, n1) == CleStore(g2, n2) <==> g1 == g2 && n1 == n2
  {
    SeparatorTellsTheGame(g1, n1);
    SeparatorTellsTheGame(g2, n2);
    if CleStore(g1, n1) == CleStore(g2, n2) && g1 != "" {
      SameCut(g1, n1, g2, n2);
    }
  }

  lemma SameCut(g1: string, n1: string, g2: string, n2: string)
    requires SansSeparateur(g1) && SansSeparateur(g2) && g1 + [NUL] + n1 == g2 + [NUL] + n2
    ensures g1 == g2 && n1 == n2
  {
    var k := g1 + [NUL] + n1;
    assert k[|g1|] == NUL && k[|g2|] == NUL;
    assert forall i :: 0 <= i < |g1| ==> k[i] == g1[i];
    assert forall i :: 0 <= i < |g2| ==> k[i] == g2[i];
    assert |g1| == |g2|;
    assert g1 == k[..|g1|] && n1 == k[|g1| + 1..];
  }

  // ---- writes ----

  /** A field transform, with the value it resolves to. */
  datatype Transformation = Transformation(chemin: string, valeur: Valeur)

  datatype Ecriture =
    | Maj(nom: string, champs: Champs)
    | Fusionne(nom: string, champs: Champs)
    | Transforme(nom: string, transformations: seq<Transformation>)
    | Supprime(nom: string)

  type Store = map<string, Champs>

  function MergeFields(dst: Champs, src: Champs): Champs {
    dst + src
  }

  function ApresTransformations(m: Champs, ts: seq<Transformation>): Champs {
    if ts == [] then m
    else
      var t := ts[|ts| - 1];
      var avant := ApresTransformations(m, ts[..|ts| - 1]);
      if t.chemin == "" then avant else avant[t.chemin := t.valeur]
  }

  /** What one write makes of the document it names. */
  function ApresEcriture(doc: Option<Champs>, op: Ecriture): Option<Champs> {
    var m := if doc.Some? then doc.value else map[];
    match op
    case Maj(_, champs) => Some(MergeFields(m, champs))
    case Fusionne(_, champs) => Some(MergeFields(m, champs))
    case Transforme(_, ts) => Some(ApresTransformations(m, ts))
    case Supprime(_) => None
  }

  /** What a batch makes of one document of its game: the writes that name it, in order. */
  function ApresLot(doc: Option<Champs>, ops: seq<Ecriture>, nom: string): Option<Champs> {
    if ops == [] then doc
    else
      var avant := ApresLot(doc, ops[..|ops| - 1], nom);
      if ops[|ops| - 1].nom == nom then ApresEcriture(avant, ops[|ops| - 1]) else avant
  }

  /** The last write of a batch that names the document, if any. */
  ghost predicate DerniereSur(ops: seq<Ecriture>, nom: string, i: nat) {
    i < |ops| && ops[i].nom == nom && forall j :: i < j < |ops| ==> ops[j].nom != nom
  }

  /** After a batch a document is there exactly when the last write that names it keeps it, or none does and it was there. */
  lemma {:induction false} ThereAfterBatchIff(doc: Option<Champs>, ops: seq<Ecriture>, nom: string)
    ensures (forall i :: 0 <= i < |ops| ==> ops[i].nom != nom) ==> ApresLot(doc, ops, nom) == doc
    ensures forall i: nat :: DerniereSur(ops, nom, i) ==> (ApresLot(doc, ops, nom).Some? <==> !ops[i].Supprime?)
  {
    if ops != [] {
      var avant := ops[..|ops| - 1];
      ThereAfterBatchIff(doc, avant, nom);
      forall i: nat | DerniereSur(ops, nom, i)
        ensures ApresLot(doc, ops, nom).Some? <==> !ops[i].Supprime?
      {
        if i < |ops| - 1 {
          assert DerniereSur(avant, nom, i);
        }
      }
    }
  }

  function DocDe(store: Store, gsid: string, nom: string): Option<Champs> {
    var k := CleStore(gsid, nom);
    if k in store then Some(store[k]) else None
  }

  ghost predicate NomsOk(ops: seq<Ecriture>) {
    forall i :: 0 <= i < |ops| ==> SansSeparateur(ops[i].nom)
  }

  /** One document changes, in one game, by one write; nothing else. */
  ghost predicate EcritUn(s: Store, s': Store, gsid: string, op: Ecriture) {
    var r := ApresEcriture(DocDe(s, gsid, op.nom), op);
    if op.nom == "" then s' == s
    else if r.None? then s' == s - {CleStore(gsid, op.nom)}
    else s' == s[CleStore(gsid, op.nom) := r.value]
  }

  lemma WriteSeenFrom(s: Store, s': Store, gsid: string, op: Ecriture, g: string, nom: string)
    requires SansSeparateur(gsid) && SansSeparateur(op.nom) && SansSeparateur(g) && SansSeparateur(nom)
    requires EcritUn(s, s', gsid, op)
    ensures DocDe(s', g, nom) ==
            if g == gsid && nom == op.nom && nom != "" then ApresEcriture(DocDe(s, g, nom), op) else DocDe(s, g, nom)
  {
    KeysAreInjective(gsid, op.nom, g, nom);
  }

  class GamesyncServer {
    var store: Store
    var sess: Sessions

    constructor ()
      ensures store == map[] && sess == map[]
    {
      store, sess := map[], map[];
    }

    method AppliquerUne(gsid: string, op: Ecriture)
      modifies this`store
      ensures EcritUn(old(store), store, gsid, op)
    {
      if op.nom == "" {
        return;
      }
      var k := CleStore(gsid, op.nom);
      match op {
        case Maj(nom, champs) =>
          store := store[k := MergeFields(if k in store then store[k] else map[], champs)];
        case Fusionne(nom, champs) =>
          store := store[k := MergeFields(if k in store then store[k] else map[], champs)];
        case Transforme(nom, ts) =>
          var cur: Champs := if k in store then store[k] else map[];
          ghost var m := cur;
          for i := 0 to |ts|
            invariant store == old(store) && cur == ApresTransformations(m, ts[..i])
          {
            assert ts[..i + 1][..i] == ts[..i];
            if ts[i].chemin != "" {
              cur := cur[ts[i].chemin := ts[i].valeur];
            }
          }
          assert ts[..|ts|] == ts;
          store := store[k := cur];
        case Supprime(nom) =>
          store := store - {k};
      }
    }

    /**
     A batch of writes for one game: each of its documents becomes what the writes that name it make of it,
     and no document of another game changes.
     */
    method ApplyWritesToStore(gsid: string, ops: seq<Ecriture>)
      requires IdDePartie(gsid) && NomsOk(ops) && PartiesOk(store)
      modifies this`store
      ensures PartiesOk(store)
      ensures forall nom :: SansSeparateur(nom) && nom != "" ==>
                DocDe(store, gsid, nom) == ApresLot(DocDe(old(store), gsid, nom), ops, nom)
      ensures forall g, nom :: SansSeparateur(g) && SansSeparateur(nom) && g != gsid ==>
                DocDe(store, g, nom) == DocDe(old(store), g, nom)
    {
      for i := 0 to |ops|
        invariant PartiesOk(store)
        invariant forall nom :: SansSeparateur(nom) && nom != "" ==>
            DocDe(store, gsid, nom) == ApresLot(DocDe(old(store), gsid, nom), ops[..i], nom)
        invariant forall g, nom :: SansSeparateur(g) && SansSeparateur(nom) && g != gsid ==>
            DocDe(store, g, nom) == DocDe(old(store), g, nom)
      {
        ghost var avant := store;
        AppliquerUne(gsid, ops[i]);
        WritesMakeGoodKeys(avant, store, gsid, ops[i]);
        assert ops[..i + 1][..i] == ops[..i];
        forall g, nom | SansSeparateur(g) && SansSeparateur(nom)
          ensures DocDe(store, g, nom) ==
                  if g == gsid && nom == ops[i].nom && nom != "" then ApresEcriture(DocDe(avant, g, nom), ops[i])
                  else DocDe(avant, g, nom)
        {
          WriteSeenFrom(avant, store, gsid, ops[i], g, nom);
        }
      }
      assert ops[..|ops|] == ops;
    }

    /**
     The documents directly under a collection, by the name the client knows, without the game: exactly those,
     with their content.
     */
    method DocsSousCollection(gsid: string, coll: string) returns (out: map<string, Champs>)
      requires IdDePartie(gsid) && SansSeparateur(coll) && PartiesOk(store)
      ensures forall nom :: nom in out <==> MembreDirect(coll, nom) && DocDe(store, gsid, nom).Some?
      ensures forall nom :: nom in out ==> DocDe(store, gsid, nom) == Some(out[nom])
    {
      var sousColl := SansBarreFinale(coll) + "/";
      out := Membres(gsid, sousColl);
    }

    method Membres(gsid: string, sousColl: string) returns (out: map<string, Champs>)
      requires IdDePartie(gsid) && SansSeparateur(sousColl) && '/' in sousColl && PartiesOk(store)
      ensures Rendus(store, gsid, sousColl, out, store.Keys)
    {
      var prefixe := CleStore(gsid, sousColl);
      var coupe := |prefixe| - |sousColl|;
      out := map[];
      var restants := store.Keys;
      while restants != {}
        invariant restants <= store.Keys && Rendus(store, gsid, sousColl, out, store.Keys - restants)
        decreases restants
      {
        var nom :| nom in restants;
        KeyRead(store, gsid, sousColl, prefixe, out, store.Keys - restants, nom);
        if PasseLeTest(prefixe, nom) {
          out := out[nom[coupe..] := store[nom]];
        }
        assert store.Keys - (restants - {nom}) == (store.Keys - restants) + {nom};
        restants := restants - {nom};
      }
      assert store.Keys - restants == store.Keys;
    }

    /** The participant's documents leave the store, in whatever game they are; no other does. */
    method OublierDocuments(uss: string)
      modifies this`store
      ensures store == map k | k in old(store) && !FinitPar(k, "/" + uss) :: old(store)[k]
    {
      var restants := store.Keys;
      while restants != {}
        invariant restants <= old(store).Keys && store.Keys <= old(store).Keys && restants <= store.Keys
        invariant forall k :: k in store ==> store[k] == old(store)[k]
        invariant forall k :: k in old(store) ==> (k in store <==> k in restants || !FinitPar(k, "/" + uss))
        decreases restants
      {
        var nom :| nom in restants;
        restants := restants - {nom};
        if FinitPar(nom, "/" + uss) {
          store := store - {nom};
        }
      }
    }

    /** A user session leaves the registry, and its documents the store. */
    method OublierSession(uss: string)
      modifies this
      ensures sess == Oubliee(old(sess), uss)
      ensures uss != "" ==> sess == old(sess) - {uss}
      ensures store == if uss == "" then old(store) else map k | k in old(store) && !FinitPar(k, "/" + uss) :: old(store)[k]
    {
      if uss == "" {
        return;
      }
      sess := sess - {uss};
      OublierDocuments(uss);
    }

    /** The sessions a player abandons by opening a new one. */
    method Perimees(uss: string, uid: string) returns (perimees: set<string>)
      ensures perimees == set u | u in sess && Perimee(sess[u], u, uss, uid)
    {
      perimees := {};
      var restants := sess.Keys;
      while restants != {}
        invariant restants <= sess.Keys
        invariant perimees == set u | u in sess.Keys - restants && Perimee(sess[u], u, uss, uid)
        decreases restants
      {
        var u :| u in restants;
        if u != uss && sess[u].uid == uid && uid != "" {
          perimees := perimees + {u};
        }
        restants := restants - {u};
      }
    }

    method RangMax(gsid: string) returns (max: nat)
      ensures EstRangMax(sess, gsid, max)
    {
      max := 0;
      var restants := sess.Keys;
      while restants != {}
        invariant restants <= sess.Keys
        invariant forall u :: u in sess.Keys - restants && sess[u].gsid == gsid ==> sess[u].rang <= max
        invariant max == 0 || exists u :: u in sess && sess[u].gsid == gsid && sess[u].rang == max
        decreases restants
      {
        var u :| u in restants;
        if sess[u].gsid == gsid && sess[u].rang > max {
          max := sess[u].rang;
        }
        restants := restants - {u};
      }
    }

    /** The second half of IssueToken, under one hold of the lock. */
    method Inscrire(uss: string, uid: string, gsid: string)
      modifies this`sess
      ensures Inscrite(old(sess), sess, uss, uid, gsid)
      ensures uss in sess && sess == old(sess)[uss := sess[uss]]
    {
      var rang: nat;
      if uss in sess && sess[uss].rang > 0 {
        rang := sess[uss].rang;
      } else {
        var max := RangMax(gsid);
        rang := max + 1;
      }
      sess := sess[uss := Info(uid, gsid, rang)];
    }

    /**
     The registry part of IssueToken, when nothing comes in between: the player's other sessions are gone and
     this one is registered.
     */
    method IssueToken(uss: string, uid: string, gsid: string)
      modifies this
      ensures Inscrite(map u | u in old(sess) && (u == "" || !Perimee(old(sess)[u], u, uss, uid)) :: old(sess)[u], sess, uss, uid, gsid)
      ensures uid != "" ==> forall u :: u in sess && u != uss && sess[u].uid == uid ==> u == ""
      ensures forall u :: u in old(sess) && u != uss && (uid == "" || old(sess)[u].uid != uid) ==>
                u in sess && sess[u] == old(sess)[u]
    {
      var perimees := Perimees(uss, uid);
      var restants := perimees;
      while restants != {}
        invariant restants <= perimees
        invariant sess == map u | u in old(sess) && (u == "" || u !in perimees - restants) :: old(sess)[u]
        decreases restants
      {
        var u :| u in restants;
        OublierSession(u);
        restants := restants - {u};
      }
      ghost var gardees := map u | u in old(sess) && (u == "" || !Perimee(old(sess)[u], u, uss, uid)) :: old(sess)[u];
      assert sess == gardees;
      Inscrire(uss, uid, gsid);
      assert sess == gardees[uss := sess[uss]];
    }

    method Pairs(uss: string) returns (autres: set<string>)
      requires uss in sess
      ensures autres == set u | u in sess && EstPair(sess, uss, u)
    {
      autres := {};
      var restants := sess.Keys;
      while restants != {}
        invariant restants <= sess.Keys
        invariant autres == set u | u in sess.Keys - restants && EstPair(sess, uss, u)
        decreases restants
      {
        var u :| u in restants;
        if u != uss && sess[u].gsid == sess[uss].gsid {
          autres := autres + {u};
        }
        restants := restants - {u};
      }
    }

    /**
     A console's mailbox: one letter for each other live session of its game that has published a blob, in the
     order of their ids.
     */
    method BoitesAuxLettresPia(uss: string) returns (out: seq<Lettre>)
      ensures BoiteJuste(sess, store, uss, out)
    {
      if uss !in sess || sess[uss].gsid == "" {
        return [];
      }
      var pairs := Pairs(uss);
      var autres := Trier(pairs);
      ghost var f := Courrier(sess, store);
      out := [];
      for i := 0 to |autres|
        invariant out == Lettres(autres[..i], f)
      {
        assert autres[..i + 1][..i] == autres[..i];
        assert autres[i] in autres;
        var l := LettreDuPair(autres[i]);
        if l.None? {
          continue;
        }
        out := out + [l.value];
      }
      assert autres[..|autres|] == autres;
      LettersMembers(autres, f);
      LettersOrdered(autres, f);
    }

    /** What there is to hand on from this peer, if it has published anything. */
    method LettreDuPair(u: string) returns (l: Option<Lettre>)
      requires u in sess
      ensures l == Courrier(sess, store)(u)
    {
      var info := sess[u];
      var k := CleStore(info.gsid, PREFIXE_STATUT + u);
      var pl: Octets := [];
      if k in store && "pl" in store[k] && store[k]["pl"].Binaire? {
        pl := store[k]["pl"].o;
      }
      if |pl| == 0 {
        return None;
      }
      var rang := if info.rang <= 0 then 1 else info.rang;
      return Some(Lettre(info.uid, u, rang, SUSCID_BASE + rang, pl));
    }
  }

  /** Whatever the game, a document leaves with the participant exactly when its own name ends with it. */
  lemma SuffixIsOfTheName(g: string, nom: string, uss: string)
    requires SansSeparateur(uss)
    ensures FinitPar(CleStore(g, nom), "/" + uss) <==> FinitPar(nom, "/" + uss)
  {
    var fin := "/" + uss;
    var k := CleStore(g, nom);
    if g != "" {
      assert k[|g|] == NUL;
      if |nom| < |fin| <= |k| {
        assert k[|k| - |fin|..][|g| + |fin| - |k|] == NUL;
      }
      assert |fin| <= |nom| ==> k[|k| - |fin|..] == nom[|nom| - |fin|..];
    }
  }

  predicate FinitPar(s: string, fin: string) {
    |fin| <= |s| && s[|s| - |fin|..] == fin
  }

  /** The documents that leave with a participant: those whose last segment is its session id. */
  lemma LeavesWithIff(nom: string, uss: string)
    ensures FinitPar(nom, "/" + uss) <==> exists x :: nom == x + "/" + uss
  {
    var fin := "/" + uss;
    if FinitPar(nom, fin) {
      assert nom == nom[..|nom| - |fin|] + fin == nom[..|nom| - |fin|] + "/" + uss;
    }
    if x :| nom == x + "/" + uss {
      assert nom[|x|..] == fin;
    }
  }

  // ---- last writer wins ----

  datatype Dit = Ecrit(v: Valeur) | Efface | Rien

  function DernierTransforme(ts: seq<Transformation>, f: string): Dit {
    if ts == [] then Rien
    else if ts[|ts| - 1].chemin == f != "" then Ecrit(ts[|ts| - 1].valeur)
    else DernierTransforme(ts[..|ts| - 1], f)
  }

  /** What a write says of a field. */
  function DitDe(op: Ecriture, f: string): Dit {
    match op
    case Maj(_, champs) => if f in champs then Ecrit(champs[f]) else Rien
    case Fusionne(_, champs) => if f in champs then Ecrit(champs[f]) else Rien
    case Transforme(_, ts) => DernierTransforme(ts, f)
    case Supprime(_) => Efface
  }

  /** The last word of a batch on a field of a document. */
  function DernierMot(ops: seq<Ecriture>, nom: string, f: string): Dit {
    if ops == [] then Rien
    else if ops[|ops| - 1].nom == nom && !DitDe(ops[|ops| - 1], f).Rien? then DitDe(ops[|ops| - 1], f)
    else DernierMot(ops[..|ops| - 1], nom, f)
  }

  function ChampDe(doc: Option<Champs>, f: string): Option<Valeur> {
    if doc.Some? && f in doc.value then Some(doc.value[f]) else None
  }

  lemma {:induction false} TransformedField(m: Champs, ts: seq<Transformation>, f: string)
    ensures var r := ApresTransformations(m, ts);
            match DernierTransforme(ts, f)
            case Ecrit(v) => f in r && r[f] == v
            case Efface => false
            case Rien => (f in r <==> f in m) && (f in m ==> r[f] == m[f])
  {
    if ts != [] {
      TransformedField(m, ts[..|ts| - 1], f);
    }
  }

  /** A field holds what the last write to mention it since the last deletion said, or what it held before. */
  lemma {:induction false} LastWriterWins(doc: Option<Champs>, ops: seq<Ecriture>, nom: string, f: string)
    ensures ChampDe(ApresLot(doc, ops, nom), f) ==
            match DernierMot(ops, nom, f)
            case Ecrit(v) => Some(v)
            case Efface => None
            case Rien => ChampDe(doc, f)
  {
    if ops != [] {
      var op := ops[|ops| - 1];
      LastWriterWins(doc, ops[..|ops| - 1], nom, f);
      if op.nom == nom && op.Transforme? {
        var avant := ApresLot(doc, ops[..|ops| - 1], nom);
        TransformedField(if avant.Some? then avant.value else map[], op.transformations, f);
      }
    }
  }

  // ---- collections ----

  /** A game id: a path segment, without the separator. */
  predicate IdDePartie(g: string) {
    SansSeparateur(g) && '/' !in g
  }

  /** Every key of the store was made by CleStore. */
  ghost predicate PartiesOk(store: Store) {
    forall k :: k in store ==> exists g, n :: CleBienFaite(k, g, n)
  }

  ghost predicate CleBienFaite(k: string, g: string, n: string) {
    IdDePartie(g) && SansSeparateur(n) && k == CleStore(g, n)
  }

  /** strings.TrimRight(coll, "/") */
  function SansBarreFinale(coll: string): (r: string)
    ensures r <= coll && (r == "" || r[|r| - 1] != '/')
  {
    if coll != "" && coll[|coll| - 1] == '/' then SansBarreFinale(coll[..|coll| - 1]) else coll
  }

  /** `nom` is this path, which ends with a slash, and one more segment. */
  predicate DirectSous(base: string, nom: string) {
    SansSeparateur(nom) && base <= nom && '/' !in nom[|base|..]
  }

  predicate MembreDirect(coll: string, nom: string) {
    DirectSous(SansBarreFinale(coll) + "/", nom)
  }

  /** The source's test on a key, and the name it then cuts out of it. */
  predicate PasseLeTest(prefixe: string, k: string) {
    prefixe <= k && '/' !in k[|prefixe|..]
  }

  /** A name directly under a collection, however many bars the collection is written with at the end. */
  lemma DirectMemberIff(base: string, barres: string, nom: string)
    requires (base == "" || base[|base| - 1] != '/') && forall i :: 0 <= i < |barres| ==> barres[i] == '/'
    ensures MembreDirect(base + barres, nom) <==> exists seg :: SegmentSous(nom, base, seg)
  {
    BarsTrimmed(base, barres);
    if MembreDirect(base + barres, nom) {
      assert SegmentSous(nom, base, nom[|base| + 1..]);
    }
    if seg :| SegmentSous(nom, base, seg) {
      assert nom[|base + "/"|..] == seg;
    }
  }

  ghost predicate SegmentSous(nom: string, base: string, seg: string) {
    SansSeparateur(nom) && '/' !in seg && nom == base + "/" + seg
  }

  lemma {:induction false} BarsTrimmed(base: string, barres: string)
    requires (base == "" || base[|base| - 1] != '/') && forall i :: 0 <= i < |barres| ==> barres[i] == '/'
    ensures SansBarreFinale(base + barres) == base
    decreases |barres|
  {
    if barres == "" {
      assert base + barres == base;
    } else {
      assert (base + barres)[..|base + barres| - 1] == base + barres[..|barres| - 1];
      BarsTrimmed(base, barres[..|barres| - 1]);
    }
  }

  /**
   What a collection lists after a batch: a direct member is there exactly when the last write that names it keeps it,
   or none names it and it was there before.
   */
  lemma ListedAfterBatchIff(avant: Store, apres: Store, gsid: string, ops: seq<Ecriture>, coll: string, out: map<string, Champs>,
                            nom: string)
    requires DocDe(apres, gsid, nom) == ApresLot(DocDe(avant, gsid, nom), ops, nom)
    requires nom in out <==> MembreDirect(coll, nom) && DocDe(apres, gsid, nom).Some?
    ensures (forall i :: 0 <= i < |ops| ==> ops[i].nom != nom) ==>
              (nom in out <==> MembreDirect(coll, nom) && DocDe(avant, gsid, nom).Some?)
    ensures forall i: nat :: DerniereSur(ops, nom, i) ==> (nom in out <==> MembreDirect(coll, nom) && !ops[i].Supprime?)
  {
    ThereAfterBatchIff(DocDe(avant, gsid, nom), ops, nom);
  }

  lemma MemberOfKey(gsid: string, base: string, k: string, g: string, n: string)
    requires IdDePartie(gsid) && SansSeparateur(base) && '/' in base && CleBienFaite(k, g, n)
    requires PasseLeTest(CleStore(gsid, base), k)
    ensures var p := CleStore(gsid, base); k[|p| - |base|..] == n && DirectSous(base, n) && k == CleStore(gsid, n)
  {
    PrefixGivesGame(gsid, base, g, n, k);
    assert k[|CleStore(gsid, base)|..] == n[|base|..];
  }

  /** A key passes the prefix test exactly when it names a direct member in this very game. */
  lemma MemberByPrefix(store: Store, gsid: string, base: string, k: string)
    requires IdDePartie(gsid) && SansSeparateur(base) && '/' in base && PartiesOk(store) && k in store
    ensures var p := CleStore(gsid, base);
            if PasseLeTest(p, k) then k == CleStore(gsid, k[|p| - |base|..]) && DirectSous(base, k[|p| - |base|..])
            else forall nom :: DirectSous(base, nom) ==> k != CleStore(gsid, nom)
  {
    var g, n :| CleBienFaite(k, g, n);
    if PasseLeTest(CleStore(gsid, base), k) {
      MemberOfKey(gsid, base, k, g, n);
    }
    forall nom | DirectSous(base, nom) && k == CleStore(gsid, nom)
      ensures PasseLeTest(CleStore(gsid, base), k)
    {
    }
  }

  /** The members found among these keys. */
  ghost predicate Rendus(store: Store, gsid: string, base: string, out: map<string, Champs>, vues: set<string>) {
    && (forall nom :: nom in out <==> DirectSous(base, nom) && CleStore(gsid, nom) in vues && CleStore(gsid, nom) in store)
    && (forall nom :: nom in out ==> out[nom] == store[CleStore(gsid, nom)])
  }

  /** One key looked at. */
  function ApresCle(store: Store, prefixe: string, coupe: nat, out: map<string, Champs>, k: string): map<string, Champs>
    requires k in store && coupe <= |prefixe|
  {
    if PasseLeTest(prefixe, k) then out[k[coupe..] := store[k]] else out
  }

  lemma KeyRead(store: Store, gsid: string, base: string, prefixe: string, out: map<string, Champs>, vues: set<string>, k: string)
    requires IdDePartie(gsid) && SansSeparateur(base) && '/' in base && PartiesOk(store) && k in store
    requires prefixe == CleStore(gsid, base) && Rendus(store, gsid, base, out, vues)
    ensures Rendus(store, gsid, base, ApresCle(store, prefixe, |prefixe| - |base|, out, k), vues + {k})
  {
    MemberByPrefix(store, gsid, base, k);
    if PasseLeTest(prefixe, k) {
      var nom := k[|prefixe| - |base|..];
      forall a | DirectSous(base, a)
        ensures CleStore(gsid, a) == k <==> a == nom
      {
        KeysAreInjective(gsid, a, gsid, nom);
      }
    }
  }

  lemma SlashAfterSeparator(base: string, g: string, n: string)
    requires g != "" && '/' !in g && '/' in base && base <= g + [NUL] + n
    ensures NUL in base
  {
    var k := g + [NUL] + n;
    var s :| 0 <= s < |base| && base[s] == '/';
    assert k[s] == base[s];
    assert forall i :: 0 <= i < |g| ==> k[i] == g[i] && g[i] in g;
    assert k[|g|] == NUL;
    assert s > |g|;
    assert base[|g|] == k[|g|];
  }

  lemma SamePrefixSameGame(gsid: string, base: string, g: string, n: string)
    requires SansSeparateur(gsid) && SansSeparateur(g) && gsid + [NUL] + base <= g + [NUL] + n
    ensures g == gsid && base <= n
  {
    var p, k := gsid + [NUL] + base, g + [NUL] + n;
    assert k[|gsid|] == p[|gsid|] == NUL && k[|g|] == NUL;
    assert forall i :: 0 <= i < |gsid| ==> k[i] == p[i] == gsid[i];
    assert forall i :: 0 <= i < |g| ==> k[i] == g[i];
    assert |g| == |gsid|;
    assert g == k[..|g|] == gsid;
    assert n == k[|g| + 1..] && base == p[|g| + 1..];
  }

  lemma PrefixGivesGame(gsid: string, base: string, g: string, n: string, k: string)
    requires IdDePartie(gsid) && SansSeparateur(base) && '/' in base && CleBienFaite(k, g, n)
    requires CleStore(gsid, base) <= k
    ensures g == gsid && base <= n
  {
    SeparatorTellsTheGame(gsid, base);
    SeparatorTellsTheGame(g, n);
    if gsid != "" {
      assert NUL in k;
      SamePrefixSameGame(gsid, base, g, n);
    } else if g != "" {
      SlashAfterSeparator(base, g, n);
    }
  }

  lemma WritesMakeGoodKeys(s: Store, s': Store, gsid: string, op: Ecriture)
    requires PartiesOk(s) && IdDePartie(gsid) && SansSeparateur(op.nom) && EcritUn(s, s', gsid, op)
    ensures PartiesOk(s')
  {
    assert CleBienFaite(CleStore(gsid, op.nom), gsid, op.nom);
  }

  // ---- user sessions ----

  /** A user session: its player, its game, its rank there (1, 2, 3...). */
  datatype Info = Info(uid: string, gsid: string, rang: nat)

  type Sessions = map<string, Info>

  function Oubliee(s: Sessions, uss: string): Sessions {
    if uss == "" then s else s - {uss}
  }

  predicate Perimee(i: Info, u: string, uss: string, uid: string) {
    u != uss && i.uid == uid && uid != ""
  }

  ghost predicate EstRangMax(s: Sessions, gsid: string, max: nat) {
    && (forall u :: u in s && s[u].gsid == gsid ==> s[u].rang <= max)
    && (max == 0 || exists u :: u in s && s[u].gsid == gsid && s[u].rang == max)
  }

  /** A known session keeps its rank; a new one comes after everyone of its game. */
  ghost predicate Inscrite(s: Sessions, s': Sessions, uss: string, uid: string, gsid: string) {
    if uss in s && s[uss].rang > 0 then s' == s[uss := Info(uid, gsid, s[uss].rang)]
    else exists max: nat :: EstRangMax(s, gsid, max) && s' == s[uss := Info(uid, gsid, max + 1)]
  }

  /** Within a game, ranks are positive and pairwise distinct. */
  ghost predicate RangsOk(s: Sessions) {
    && (forall u :: u in s ==> s[u].rang >= 1)
    && (forall u, v :: u in s && v in s && u != v && s[u].gsid == s[v].gsid ==> s[u].rang != s[v].rang)
  }

  /** A session that comes back under another game, where its rank is taken. */
  ghost predicate RangPris(s: Sessions, uss: string, gsid: string) {
    uss in s && exists v :: v in s && v != uss && s[v].gsid == gsid && s[v].rang == s[uss].rang
  }

  /** A registration keeps ranks distinct exactly when it does not bring a rank that is taken there. */
  lemma RegistrationKeepsRanksIff(s: Sessions, s': Sessions, uss: string, uid: string, gsid: string)
    requires RangsOk(s) && Inscrite(s, s', uss, uid, gsid)
    ensures RangsOk(s') <==> !RangPris(s, uss, gsid)
  {
    if RangPris(s, uss, gsid) {
      var v :| v in s && v != uss && s[v].gsid == gsid && s[v].rang == s[uss].rang;
      assert v in s' && uss in s' && s'[v] == s[v] && s'[uss].rang == s[uss].rang;
    }
  }

  /** The atomic steps of token issues and departures; other consoles' steps may come between a player's own. */
  datatype Pas = Oublie(uss: string) | Inscrit(uss: string, uid: string, gsid: string)

  ghost predicate Suivant(s: Sessions, s': Sessions, pas: Pas) {
    match pas
    case Oublie(uss) => s' == Oubliee(s, uss)
    case Inscrit(uss, uid, gsid) => Inscrite(s, s', uss, uid, gsid)
  }

  ghost predicate Execution(ss: seq<Sessions>, run: seq<Pas>) {
    && |ss| == |run| + 1 && ss[0] == map[]
    && forall i :: 0 <= i < |run| ==> Franchi(ss, run, i)
  }

  ghost predicate Franchi(ss: seq<Sessions>, run: seq<Pas>, i: nat)
    requires i < |run| && |ss| == |run| + 1
  {
    Suivant(ss[i], ss[i + 1], run[i])
  }

  /** A user-session id always names the same game: it is the last segment of a path under the game's. */
  ghost predicate PartieFixe(run: seq<Pas>, partie: string -> string) {
    forall i :: 0 <= i < |run| && run[i].Inscrit? ==> run[i].gsid == partie(run[i].uss)
  }

  /** Live sessions of one game have distinct positive ranks, after any run of token issues and departures. */
  lemma {:induction false} RanksStayDistinct(ss: seq<Sessions>, run: seq<Pas>, partie: string -> string, i: nat)
    requires Execution(ss, run) && PartieFixe(run, partie) && i < |ss|
    ensures RangsOk(ss[i]) && forall u :: u in ss[i] ==> ss[i][u].gsid == partie(u)
  {
    if i > 0 {
      RanksStayDistinct(ss, run, partie, i - 1);
      assert Franchi(ss, run, i - 1);
      var pas := run[i - 1];
      if pas.Inscrit? {
        RegistrationKeepsRanksIff(ss[i - 1], ss[i], pas.uss, pas.uid, pas.gsid);
      }
    }
  }

  /** v has the rank just before u's, in the same game. */
  ghost predicate Precede(s: Sessions, v: string, u: string) {
    v in s && u in s && s[v].gsid == s[u].gsid && s[v].rang + 1 == s[u].rang
  }

  /** Everyone but the first of a game has the rank after somebody's. */
  ghost predicate RangsContigus(s: Sessions) {
    forall u :: u in s && s[u].rang > 1 ==> exists v :: Precede(s, v, u)
  }

  /** As long as nobody leaves, the ranks of a game are 1, 2, 3 and so on, without a gap. */
  lemma {:induction false} RanksHaveNoGap(ss: seq<Sessions>, run: seq<Pas>, partie: string -> string, i: nat)
    requires Execution(ss, run) && PartieFixe(run, partie) && i < |ss|
    requires forall k :: 0 <= k < |run| ==> run[k].Inscrit?
    ensures RangsContigus(ss[i])
  {
    if i > 0 {
      RanksHaveNoGap(ss, run, partie, i - 1);
      RanksStayDistinct(ss, run, partie, i - 1);
      assert Franchi(ss, run, i - 1);
      OneMoreRank(ss[i - 1], ss[i], run[i - 1].uss, run[i - 1].uid, run[i - 1].gsid);
    }
  }

  lemma OneMoreRank(s: Sessions, s': Sessions, uss: string, uid: string, gsid: string)
    requires RangsContigus(s) && Inscrite(s, s', uss, uid, gsid)
    requires uss in s ==> s[uss].gsid == gsid && s[uss].rang > 0
    ensures RangsContigus(s')
  {
    forall u | u in s' && s'[u].rang > 1
      ensures exists v :: Precede(s', v, u)
    {
      if u in s {
        var v :| Precede(s, v, u);
        assert Precede(s', v, u);
      } else {
        var v := LastOfTheGame(s, s', uss, uid, gsid);
        assert Precede(s', v, u);
      }
    }
  }

  lemma LastOfTheGame(s: Sessions, s': Sessions, uss: string, uid: string, gsid: string) returns (v: string)
    requires Inscrite(s, s', uss, uid, gsid) && uss !in s && s'[uss].rang > 1
    ensures v in s && Precede(s', v, uss)
  {
    var max: nat :| EstRangMax(s, gsid, max) && s' == s[uss := Info(uid, gsid, max + 1)];
    v :| v in s && s[v].gsid == gsid && s[v].rang == max;
  }

  /** Without that proviso two sessions may share a rank: the second game's first session meets a returning one. */
  lemma ReturningSessionMayClash()
    ensures var s := map["a" := Info("x", "g1", 1), "b" := Info("y", "g2", 1)];
            var s' := s["a" := Info("x", "g2", 1)];
            RangsOk(s) && Inscrite(s, s', "a", "x", "g2") && !RangsOk(s')
  {
    var s := map["a" := Info("x", "g1", 1), "b" := Info("y", "g2", 1)];
    var s' := s["a" := Info("x", "g2", 1)];
    assert s["b"].gsid == "g2" && s["b"].rang == 1;
    assert s'["a"].rang == s'["b"].rang;
  }

  // ---- mailboxes ----

  const PREFIXE_STATUT := "docs/__pgn/All/__stu/"
  const SUSCID_BASE := 10000

  /** What a console learns of a peer: its player, its user session, its ids in the game, its blob. */
  datatype Lettre = Lettre(suid: string, susid: string, sussid: nat, suscid: nat, pl: Octets)

  predicate EstPair(s: Sessions, uss: string, u: string) {
    uss in s && u in s && u != uss && s[u].gsid == s[uss].gsid
  }

  function BlobDe(store: Store, gsid: string, u: string): Octets {
    var k := CleStore(gsid, PREFIXE_STATUT + u);
    if k in store && "pl" in store[k] && store[k]["pl"].Binaire? then store[k]["pl"].o else []
  }

  function LettreDe(s: Sessions, store: Store, u: string): Lettre
    requires u in s
  {
    var rang := if s[u].rang <= 0 then 1 else s[u].rang;
    Lettre(s[u].uid, u, rang, SUSCID_BASE + rang, BlobDe(store, s[u].gsid, u))
  }

  function Courrier(s: Sessions, store: Store): string -> Option<Lettre> {
    (u: string) => if u in s && BlobDe(store, s[u].gsid, u) != [] then Some(LettreDe(s, store, u)) else None
  }

  /** The letters there are, in this order. */
  function Lettres(us: seq<string>, f: string -> Option<Lettre>): seq<Lettre> {
    if us == [] then []
    else
      match f(us[|us| - 1])
      case None => Lettres(us[..|us| - 1], f)
      case Some(l) => Lettres(us[..|us| - 1], f) + [l]
  }

  lemma {:induction false} LettersMembers(us: seq<string>, f: string -> Option<Lettre>)
    requires forall u :: f(u).Some? ==> f(u).value.susid == u
    ensures forall l :: l in Lettres(us, f) ==> l.susid in us && f(l.susid) == Some(l)
    ensures forall u :: u in us && f(u).Some? ==> f(u).value in Lettres(us, f)
  {
    if us != [] {
      assert us == us[..|us| - 1] + [us[|us| - 1]];
      LettersMembers(us[..|us| - 1], f);
    }
  }

  lemma LastIsAfter(us: seq<string>, out: seq<Lettre>, i: nat)
    requires us != [] && Trie(us, Inf) && i < |out| && out[i].susid in us[..|us| - 1]
    ensures Inf(out[i].susid, us[|us| - 1]) && out[i].susid != us[|us| - 1]
  {
  }

  lemma {:induction false} LettersOrdered(us: seq<string>, f: string -> Option<Lettre>)
    requires Trie(us, Inf) && forall u :: f(u).Some? ==> f(u).value.susid == u
    ensures Classees(Lettres(us, f))
  {
    if us != [] {
      var avant := us[..|us| - 1];
      LettersOrdered(avant, f);
      LettersMembers(avant, f);
      var out := Lettres(avant, f);
      forall i | 0 <= i < |out|
        ensures Inf(out[i].susid, us[|us| - 1]) && out[i].susid != us[|us| - 1]
      {
        assert out[i] in out;
        LastIsAfter(us, out, i);
      }
    }
  }

  ghost predicate LettrePubliee(s: Sessions, store: Store, l: Lettre) {
    l.susid in s && l == LettreDe(s, store, l.susid) && l.pl != []
  }

  /** In the order of the peers' session ids, each peer once. */
  ghost predicate Classees(out: seq<Lettre>) {
    forall i, j :: 0 <= i < j < |out| ==> Inf(out[i].susid, out[j].susid) && out[i].susid != out[j].susid
  }

  /** Exactly the live peers with a published blob, each once, in order; nothing outside a game. */
  ghost predicate BoiteJuste(s: Sessions, store: Store, uss: string, out: seq<Lettre>) {
    if uss !in s || s[uss].gsid == "" then out == []
    else
      && (forall l :: l in out ==> EstPair(s, uss, l.susid) && LettrePubliee(s, store, l))
      && (forall u :: EstPair(s, uss, u) && Courrier(s, store)(u).Some? ==> LettreDe(s, store, u) in out)
      && Classees(out)
  }

  /** In a mailbox, connection ids are distinct, and none is the console's own. */
  lemma MailboxIdsDistinct(s: Sessions, store: Store, uss: string, out: seq<Lettre>, i: nat, j: nat)
    requires RangsOk(s) && uss in s && s[uss].gsid != "" && BoiteJuste(s, store, uss, out) && i < j < |out|
    ensures out[i].suscid != out[j].suscid
    ensures out[i].suscid != SUSCID_BASE + s[uss].rang && out[j].suscid != SUSCID_BASE + s[uss].rang
    ensures out[i].susid != uss && out[j].susid != uss
  {
  }

  /** The document where a console publishes the blob its peers need. */
  function DocumentDeStatut(uss: string): string {
    "docs/__pgn/All/__stu/" + uss
  }

  /**
   A blob that a batch of writes leaves in a peer's document is handed on: every other live session of the game finds
   one letter from that peer, with the blob, the player, the peer's rank and the connection id after it. A peer
   whose document holds none sends nothing.
   */
  lemma PublishedBlobIsDelivered(s: Sessions, avant: Store, apres: Store, ops: seq<Ecriture>, uss: string, u: string, out: seq<Lettre>)
    requires RangsOk(s) && u in s && uss in s && u != uss && s[u].gsid == s[uss].gsid != "" && BoiteJuste(s, apres, uss, out)
    requires var nom := DocumentDeStatut(u);
             DocDe(apres, s[u].gsid, nom) == ApresLot(DocDe(avant, s[u].gsid, nom), ops, nom)
    ensures match DernierMot(ops, DocumentDeStatut(u), "pl")
            case Ecrit(v) =>
              if v.Binaire? && v.o != [] then Lettre(s[u].uid, u, s[u].rang, 10000 + s[u].rang, v.o) in out
              else forall l :: l in out ==> l.susid != u
            case Efface => forall l :: l in out ==> l.susid != u
            case Rien => true
  {
    assert EstPair(s, uss, u);
    var nom := DocumentDeStatut(u);
    LastWriterWins(DocDe(avant, s[u].gsid, nom), ops, nom, "pl");
    assert PREFIXE_STATUT + u == nom;
    BlobOf(apres, s[u].gsid, u);
  }

  lemma BlobOf(store: Store, gsid: string, u: string)
    ensures var c := ChampDe(DocDe(store, gsid, PREFIXE_STATUT + u), "pl");
            BlobDe(store, gsid, u) == if c.Some? && c.value.Binaire? then c.value.o else []
  {
  }
}
