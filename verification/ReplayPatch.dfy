/**
 The hand-written encoders and walkers of replayed messages (replay.go, ugc_dessins.go), and the patch that
 puts the running build's version into a captured login payload.
 */
module ReplayPatch {
  import opened Wrappers
  import opened Protobuf
  import opened ProtoMessage

  // ---- ugc_dessins.go: the three encoders ----

  function VarintProto(champ: nat, v: nat): Octets {
    Varint(champ * 8) + Varint(v)
  }

  function ChaineProto(champ: nat, s: Octets): Octets {
    Varint(champ * 8 + 2) + Varint(|s|) + s
  }

  function MessageProto(champ: nat, corps: Octets): Octets {
    Varint(champ * 8 + 2) + Varint(|corps|) + corps
  }

  lemma EncodersWriteFields(n: nat, v: nat, s: Octets)
    ensures VarintProto(n, v) == EcritChamp(ChampVarint(n, v))
    ensures ChaineProto(n, s) == EcritChamp(ChampOctets(n, s)) && MessageProto(n, s) == EcritChamp(ChampOctets(n, s))
  {
  }

  lemma ThreeFields(a: Champ, b: Champ, c: Champ)
    ensures EcritTous([a, b, c]) == EcritChamp(a) + EcritChamp(b) + EcritChamp(c)
  {
    assert [a, b, c][1..] == [b, c] && [b, c][1..] == [c] && [c][1..] == [];
    assert EcritTous([c]) == EcritChamp(c) by {
      assert EcritChamp(c) + [] == EcritChamp(c);
    }
    assert EcritTous([b, c]) == EcritChamp(b) + EcritChamp(c);
    Associe(EcritChamp(a), EcritChamp(b), EcritChamp(c));
  }

  /** What the encoders write, put end to end, is read back field by field. */
  lemma EncodersAreRead(n1: nat, v: nat, n2: nat, s: Octets, n3: nat, corps: Octets)
    requires 1 <= n1 <= NUM_MAX && 1 <= n2 <= NUM_MAX && 1 <= n3 <= NUM_MAX
    requires v < DEUX64 && |s| < DEUX64 && |corps| < DEUX64
    ensures Analyse(VarintProto(n1, v) + ChaineProto(n2, s) + MessageProto(n3, corps)) ==
            Some([ChampVarint(n1, v), ChampOctets(n2, s), ChampOctets(n3, corps)])
    ensures Contenu(ChampOctets(n2, s)) == s && Contenu(ChampOctets(n3, corps)) == corps
  {
    EncodersWriteFields(n1, v, []);
    EncodersWriteFields(n2, 0, s);
    EncodersWriteFields(n3, 0, corps);
    VarintFieldBack(n1, v);
    ContentBack(n2, s);
    ContentBack(n3, corps);
    ThreeFields(ChampVarint(n1, v), ChampOctets(n2, s), ChampOctets(n3, corps));
    MessageRoundTrip([ChampVarint(n1, v), ChampOctets(n2, s), ChampOctets(n3, corps)]);
  }

  // ---- replay.go: length-delimited walkers ----

  datatype Entree = Entree(field: nat, val: Octets)

  function PbField(field: nat, val: Octets): Octets {
    Varint(field * 8 + 2) + Varint(|val|) + val
  }

  const DEUX63 := 0x8000_0000_0000_0000

  /**
   The top-level length-delimited fields, in order, up to the first byte that is not one. None when a length
   passes the walker's test but not the end of the message, as the test is made before the length is skipped.
   */
  function PbListe(b: Octets): Option<seq<Entree>>
    decreases |b|
  {
    match ConsumeVarint(b, 0)
    case None => Some([])
    case Some(tag) =>
      var apres := b[tag.n..];
      if tag.v % 8 != 2 then Some([])
      else
        match ConsumeVarint(apres, 0)
        case None => Some([])
        case Some(l) =>
          if |apres| < l.v < DEUX63 then Some([])
          else if l.n + l.v > |apres| then None
          else
            match PbListe(apres[l.n..][l.v..])
            case None => None
            case Some(es) => Some([Entree(tag.v / 8, apres[l.n..][..l.v])] + es)
  }

  method PbWalkList(msg: Octets) returns (r: Option<seq<Entree>>)
    ensures r == PbListe(msg)
  {
    var b := msg;
    var out: seq<Entree> := [];
    AvantRien(PbListe(b));
    while |b| > 0
      invariant PbListe(msg) == AvantListe(out, PbListe(b))
      decreases |b|
    {
      var tag := ConsumeVarint(b, 0);
      if tag.None? {
        break;
      }
      var apres := b[tag.value.n..];
      if tag.value.v % 8 != 2 {
        break;
      }
      var l := ConsumeVarint(apres, 0);
      if l.None? || |apres| < l.value.v < DEUX63 {
        break;
      }
      apres := apres[l.value.n..];
      if l.value.v > |apres| {
        return None;
      }
      AvantUnDePlus(out, Entree(tag.value.v / 8, apres[..l.value.v]), PbListe(apres[l.value.v..]));
      out := out + [Entree(tag.value.v / 8, apres[..l.value.v])];
      b := apres[l.value.v..];
    }
    assert out + [] == out;
    return Some(out);
  }

  function AvantListe(es: seq<Entree>, r: Option<seq<Entree>>): Option<seq<Entree>> {
    match r
    case None => None
    case Some(fs) => Some(es + fs)
  }

  lemma AvantRien(r: Option<seq<Entree>>)
    ensures AvantListe([], r) == r
  {
    match r
    case None =>
    case Some(fs) => assert [] + fs == fs;
  }

  lemma AvantUnDePlus(es: seq<Entree>, e: Entree, r: Option<seq<Entree>>)
    ensures AvantListe(es, AvantListe([e], r)) == AvantListe(es + [e], r)
  {
    match r
    case None =>
    case Some(fs) => Associe(es, [e], fs);
  }

  function EcritEntrees(es: seq<Entree>): Octets {
    if es == [] then [] else PbField(es[0].field, es[0].val) + EcritEntrees(es[1..])
  }

  ghost predicate EntreeOk(e: Entree) {
    e.field * 8 + 2 < DEUX64 && |e.val| < DEUX63
  }

  lemma WalkOne(b: Octets, tag: Lu, l: Lu, val: Octets, suite: Octets)
    requires ConsumeVarint(b, 0) == Some(tag) && tag.v % 8 == 2
    requires ConsumeVarint(b[tag.n..], 0) == Some(l) && l.v < DEUX63 && l.n + l.v <= |b| - tag.n
    requires b[tag.n..][l.n..][..l.v] == val && b[tag.n..][l.n..][l.v..] == suite
    ensures PbListe(b) == AvantListe([Entree(tag.v / 8, val)], PbListe(suite))
  {
  }

  lemma EntryBytes(e: Entree, suite: Octets)
    ensures PbField(e.field, e.val) + suite == Varint(e.field * 8 + 2) + (Varint(|e.val|) + (e.val + suite))
  {
  }

  lemma EntryBack(e: Entree, suite: Octets)
    requires EntreeOk(e)
    ensures PbListe(PbField(e.field, e.val) + suite) == AvantListe([e], PbListe(suite))
  {
    var t, l, y := Varint(e.field * 8 + 2), Varint(|e.val|), e.val + suite;
    EntryBytes(e, suite);
    VarintRoundTrip(e.field * 8 + 2, l + y);
    VarintRoundTrip(|e.val|, y);
    Apres(t, l + y);
    Apres(l, y);
    Apres(e.val, suite);
    WalkOne(t + (l + y), Lu(e.field * 8 + 2, |t|), Lu(|e.val|, |l|), e.val, suite);
  }

  lemma Apres(a: Octets, b: Octets)
    ensures (a + b)[|a|..] == b && (a + b)[..|a|] == a
  {
  }

  /** Walking a written list of fields gives it back, duplicates included. */
  lemma {:induction false} EntriesRoundTrip(es: seq<Entree>)
    requires forall e :: e in es ==> EntreeOk(e)
    ensures PbListe(EcritEntrees(es)) == Some(es)
  {
    if es != [] {
      EntryBack(es[0], EcritEntrees(es[1..]));
      EntriesRoundTrip(es[1..]);
      assert [es[0]] + es[1..] == es;
    }
  }

  /** The length-delimited fields a message starts with. */
  function EntreesDe(cs: seq<Champ>): seq<Entree> {
    if cs == [] || cs[0].typ != 2 then [] else [Entree(cs[0].num, Contenu(cs[0]))] + EntreesDe(cs[1..])
  }

  lemma WalkOverField(c: Champ, suite: Octets)
    requires Valide(c) && c.typ == BYTES && |c.brut| < DEUX63
    ensures PbListe(EcritChamp(c) + suite) == AvantListe([Entree(c.num, Contenu(c))], PbListe(suite))
  {
    var t, y := Varint(c.num * 8 + 2), c.brut + suite;
    Associe(t, c.brut, suite);
    VarintRoundTrip(c.num * 8 + 2, y);
    Apres(t, y);
    var l := LengthOf(c, suite);
    var tag := Lu(c.num * 8 + 2, |t|);
    WalkField(t + y, y, tag, l, Contenu(c), suite);
    assert tag.v / 8 == c.num && tag.v % 8 == 2;
  }

  lemma WalkField(b: Octets, y: Octets, tag: Lu, l: Lu, val: Octets, suite: Octets)
    requires ConsumeVarint(b, 0) == Some(tag) && tag.v % 8 == 2 && b[tag.n..] == y
    requires ConsumeVarint(y, 0) == Some(l) && l.v < DEUX63 && l.n + l.v <= |y|
    requires y[l.n..][..l.v] == val && y[l.n..][l.v..] == suite
    ensures PbListe(b) == AvantListe([Entree(tag.v / 8, val)], PbListe(suite))
  {
    WalkOne(b, tag, l, val, suite);
  }

  lemma LengthOf(c: Champ, suite: Octets) returns (l: Lu)
    requires Valide(c) && c.typ == BYTES && |c.brut| < DEUX63
    ensures ConsumeVarint(c.brut + suite, 0) == Some(l) && l.v < DEUX63 && l.n + l.v == |c.brut|
    ensures (c.brut + suite)[l.n..][..l.v] == Contenu(c) && (c.brut + suite)[l.n..][l.v..] == suite
  {
    l := ConsumeVarint(c.brut, 0).value;
    VarintStays(c.brut, c.brut + suite, 0);
    assert Contenu(c) == c.brut[l.n..];
  }

  lemma WalkStopsAt(c: Champ, suite: Octets)
    requires Valide(c) && c.typ != BYTES
    ensures PbListe(EcritChamp(c) + suite) == Some([])
  {
    Associe(Varint(c.num * 8 + c.typ), c.brut, suite);
    VarintRoundTrip(c.num * 8 + c.typ, c.brut + suite);
  }

  /**
   On a well-formed message the walk lists the length-delimited fields it starts with, with their contents, and stops
   at the first field of another kind.
   */
  lemma {:induction false} WalkOfAMessage(cs: seq<Champ>)
    requires forall c :: c in cs ==> Valide(c) && |c.brut| < DEUX63
    ensures PbListe(EcritTous(cs)) == Some(EntreesDe(cs))
  {
    if cs != [] {
      if cs[0].typ == BYTES {
        WalkOverField(cs[0], EcritTous(cs[1..]));
        WalkOfAMessage(cs[1..]);
      } else {
        WalkStopsAt(cs[0], EcritTous(cs[1..]));
      }
    }
  }

  // ---- patchPayloadVer ----

  /** The last field of this number wins. */
  function Dernier(es: seq<Entree>, field: nat): Octets {
    if es == [] then []
    else if es[|es| - 1].field == field then es[|es| - 1].val
    else Dernier(es[..|es| - 1], field)
  }

  /** The same walk into a table: one value a field number. */
  function TableDe(es: seq<Entree>): map<nat, Octets> {
    if es == [] then map[] else TableDe(es[..|es| - 1])[es[|es| - 1].field := es[|es| - 1].val]
  }

  lemma {:induction false} TableKeepsTheLast(es: seq<Entree>, field: nat)
    ensures field in TableDe(es) <==> exists i :: 0 <= i < |es| && es[i].field == field
    ensures field in TableDe(es) ==> TableDe(es)[field] == Dernier(es, field)
    ensures field !in TableDe(es) ==> Dernier(es, field) == []
  {
    if es != [] {
      TableKeepsTheLast(es[..|es| - 1], field);
      if field in TableDe(es[..|es| - 1]) {
        var i :| 0 <= i < |es| - 1 && es[..|es| - 1][i].field == field;
        assert es[i].field == field;
      }
    }
  }

  lemma OneMoreInTable(es: seq<Entree>, e: Entree)
    ensures TableDe(es + [e]) == TableDe(es)[e.field := e.val]
  {
    assert (es + [e])[..|es|] == es;
  }

  method PbWalk(msg: Octets) returns (r: Option<map<nat, Octets>>)
    ensures r == match PbListe(msg) case None => None case Some(es) => Some(TableDe(es))
  {
    var b := msg;
    var out: map<nat, Octets> := map[];
    ghost var es: seq<Entree> := [];
    AvantRien(PbListe(b));
    while |b| > 0
      invariant out == TableDe(es)
      invariant PbListe(msg) == AvantListe(es, PbListe(b))
      decreases |b|
    {
      var tag := ConsumeVarint(b, 0);
      if tag.None? {
        break;
      }
      var apres := b[tag.value.n..];
      if tag.value.v % 8 != 2 {
        break;
      }
      var l := ConsumeVarint(apres, 0);
      if l.None? || |apres| < l.value.v < DEUX63 {
        break;
      }
      apres := apres[l.value.n..];
      if l.value.v > |apres| {
        return None;
      }
      ghost var e := Entree(tag.value.v / 8, apres[..l.value.v]);
      AvantUnDePlus(es, e, PbListe(apres[l.value.v..]));
      OneMoreInTable(es, e);
      out := out[tag.value.v / 8 := apres[..l.value.v]];
      es := es + [e];
      b := apres[l.value.v..];
    }
    assert es + [] == es;
    return Some(out);
  }

  function VerVal(v: nat): Octets {
    [0x18] + Varint(v)
  }

  /** The value of a version entry is a message whose field 3 holds the version, as an integer. */
  lemma VersionValueIs(v: nat)
    requires v < DEUX64
    ensures Analyse(VerVal(v)) == Some([ChampVarint(3, v)]) && Valide(ChampVarint(3, v))
  {
    VarintFieldBack(3, v);
    assert Varint(24) == [24];
    var cs := [ChampVarint(3, v)];
    assert EcritTous(cs) == EcritChamp(cs[0]) + EcritTous([]) == VerVal(v);
    MessageRoundTrip(cs);
  }

  /** The bytes of a text. */
  ghost predicate Ecrit(b: Octets, texte: string) {
    |b| == |texte| && forall i :: 0 <= i < |b| ==> b[i] == texte[i] as int
  }

  lemma VersionKeys(x: string, y: string)
    requires x == "app_version" && y == "AppVer"
    ensures Ecrit(APP_VERSION(), x) && Ecrit(APP_VER(), y)
  {
  }

  /** "app_version" and "AppVer", as bytes. */
  function APP_VERSION(): Octets {
    [0x61, 0x70, 0x70, 0x5f, 0x76, 0x65, 0x72, 0x73, 0x69, 0x6f, 0x6e]
  }

  function APP_VER(): Octets {
    [0x41, 0x70, 0x70, 0x56, 0x65, 0x72]
  }

  /** A map entry {1: key, 2: value}. */
  function EntreeDeTable(cle: Octets, valeur: Octets): Octets {
    PbField(1, cle) + PbField(2, valeur)
  }

  /** An entry of the rebuilt body; none when the walker runs past its end. */
  function EntreePatchee(entree: Octets, v: nat): Option<Octets> {
    match PbListe(entree)
    case None => None
    case Some(kv) =>
      Some(if Dernier(kv, 1) == APP_VERSION() then EntreeDeTable(APP_VERSION(), VerVal(v)) else entree)
  }

  type Patch = Octets -> Option<Octets>

  function PatchVers(v: nat): Patch {
    (entree: Octets) => EntreePatchee(entree, v)
  }

  function Rebaties(es: seq<Entree>, f: Patch): (r: Option<seq<Entree>>)
    ensures r.Some? ==> |r.value| == |es|
  {
    if es == [] then Some([])
    else
      match Rebaties(es[..|es| - 1], f)
      case None => None
      case Some(rs) =>
        match f(es[|es| - 1].val)
        case None => None
        case Some(x) => Some(rs + [Entree(1, x)])
  }

  function Ajoutee(v: nat): Entree {
    Entree(1, EntreeDeTable(APP_VER(), VerVal(v)))
  }

  /** The entries of the rebuilt body. */
  function CorpsPatche(es: seq<Entree>, v: nat): Option<seq<Entree>> {
    match Rebaties(es, PatchVers(v))
    case None => None
    case Some(rs) => Some(rs + [Ajoutee(v)])
  }

  method DernierDe(es: seq<Entree>, field: nat) returns (val: Octets)
    ensures val == Dernier(es, field)
  {
    val := [];
    for i := 0 to |es|
      invariant val == Dernier(es[..i], field)
    {
      assert es[..i + 1][..i] == es[..i];
      if es[i].field == field {
        val := es[i].val;
      }
    }
    assert es[..|es|] == es;
  }

  lemma {:induction false} EcritEntreesAjout(es: seq<Entree>, e: Entree)
    ensures EcritEntrees(es + [e]) == EcritEntrees(es) + PbField(e.field, e.val)
  {
    if es == [] {
      assert [e][1..] == [];
      assert es + [e] == [e] && PbField(e.field, e.val) + [] == PbField(e.field, e.val);
      assert [] + PbField(e.field, e.val) == PbField(e.field, e.val);
    } else {
      assert (es + [e])[1..] == es[1..] + [e];
      EcritEntreesAjout(es[1..], e);
      Associe(PbField(es[0].field, es[0].val), EcritEntrees(es[1..]), PbField(e.field, e.val));
    }
  }

  method RebatirEntree(val: Octets, v: nat) returns (r: Option<Octets>)
    ensures r == PatchVers(v)(val)
  {
    var kv := PbWalkList(val);
    if kv.None? {
      return None;
    }
    var key := DernierDe(kv.value, 1);
    if key == APP_VERSION() {
      return Some(PbField(1, key) + PbField(2, VerVal(v)));
    }
    return Some(val);
  }

  /** Once an entry cannot be rebuilt, the body cannot. */
  lemma {:induction false} OneBadEntry(es: seq<Entree>, f: Patch, i: nat)
    requires i < |es| && Rebaties(es[..i + 1], f).None?
    ensures Rebaties(es, f).None?
    decreases |es|
  {
    if i + 1 < |es| {
      assert es[..|es| - 1][..i + 1] == es[..i + 1];
      OneBadEntry(es[..|es| - 1], f, i);
    } else {
      assert es[..i + 1] == es;
    }
  }

  method RebatirEntrees(es: seq<Entree>, v: nat) returns (r: Option<Octets>)
    ensures r.Some? <==> Rebaties(es, PatchVers(v)).Some?
    ensures r.Some? ==> r.value == EcritEntrees(Rebaties(es, PatchVers(v)).value)
  {
    var nb: Octets := [];
    ghost var f := PatchVers(v);
    for i := 0 to |es|
      invariant Rebaties(es[..i], f).Some? && nb == EcritEntrees(Rebaties(es[..i], f).value)
    {
      var entry := RebatirEntree(es[i].val, v);
      assert es[..i + 1][..i] == es[..i];
      if entry.None? {
        OneBadEntry(es, f, i);
        return None;
      }
      EcritEntreesAjout(Rebaties(es[..i], f).value, Entree(1, entry.value));
      nb := nb + PbField(1, entry.value);
    }
    assert es[..|es|] == es;
    return Some(nb);
  }

  /** The body, entry by entry, and the extra one at the end. */
  method RebatirCorps(es: seq<Entree>, v: nat) returns (r: Option<Octets>)
    ensures r.Some? <==> CorpsPatche(es, v).Some?
    ensures r.Some? ==> r.value == EcritEntrees(CorpsPatche(es, v).value)
  {
    r := RebatirEntrees(es, v);
    if r.Some? {
      EcritEntreesAjout(Rebaties(es, PatchVers(v)).value, Ajoutee(v));
      r := Some(r.value + PbField(1, Ajoutee(v).val));
    }
  }

  /** The three fields of the rebuilt payload. */
  function ChargePatchee(payload: Octets, v: nat): Option<seq<Entree>> {
    match PbListe(payload)
    case None => None
    case Some(p) =>
      match PbListe(Dernier(p, 2))
      case None => None
      case Some(es) =>
        match CorpsPatche(es, v)
        case None => None
        case Some(neuf) => Some([Entree(1, Dernier(p, 1)), Entree(2, EcritEntrees(neuf)), Entree(3, Dernier(p, 3))])
  }

  /** A payload is rebuilt as soon as the walker gets through it, through its body, and through each entry of the body. */
  lemma PatchedIff(payload: Octets, v: nat)
    ensures ChargePatchee(payload, v).Some? <==>
            && PbListe(payload).Some? && PbListe(Dernier(PbListe(payload).value, 2)).Some?
            && forall e :: e in PbListe(Dernier(PbListe(payload).value, 2)).value ==> PbListe(e.val).Some?
  {
    if PbListe(payload).Some? && PbListe(Dernier(PbListe(payload).value, 2)).Some? {
      RebuiltIff(PbListe(Dernier(PbListe(payload).value, 2)).value, v);
    }
  }

  lemma {:induction false} RebuiltIff(es: seq<Entree>, v: nat)
    ensures Rebaties(es, PatchVers(v)).Some? <==> forall e :: e in es ==> PbListe(e.val).Some?
    decreases |es|
  {
    if es != [] {
      RebuiltIff(es[..|es| - 1], v);
      assert es == es[..|es| - 1] + [es[|es| - 1]];
    }
  }

  /** Rebuilds the payload; None when a walker runs past the end of a malformed part. */
  method PatchPayloadVer(payload: Octets, v: nat) returns (r: Option<Octets>)
    requires v < DEUX64
    ensures r.Some? <==> ChargePatchee(payload, v).Some?
    ensures r.Some? ==> r.value == EcritEntrees(ChargePatchee(payload, v).value)
  {
    var p := PbWalkList(payload);
    if p.None? {
      return None;
    }
    var id := DernierDe(p.value, 1);
    var body := DernierDe(p.value, 2);
    var typ := DernierDe(p.value, 3);
    var es := PbWalkList(body);
    if es.None? {
      return None;
    }
    var nb := RebatirCorps(es.value, v);
    if nb.None? {
      return None;
    }
    ThreeEntries(Entree(1, id), Entree(2, nb.value), Entree(3, typ));
    return Some(PbField(1, id) + PbField(2, nb.value) + PbField(3, typ));
  }

  lemma ThreeEntries(a: Entree, b: Entree, c: Entree)
    ensures EcritEntrees([a, b, c]) == PbField(a.field, a.val) + PbField(b.field, b.val) + PbField(c.field, c.val)
  {
    EcritEntreesAjout([], a);
    EcritEntreesAjout([a], b);
    EcritEntreesAjout([a, b], c);
    assert [] + [a] == [a] && [a] + [b] == [a, b] && [a, b] + [c] == [a, b, c];
    assert EcritEntrees([]) + PbField(a.field, a.val) == PbField(a.field, a.val);
  }

  lemma ShortEntriesRoundTrip(es: seq<Entree>)
    requires |EcritEntrees(es)| < DEUX63 && forall e :: e in es ==> 1 <= e.field <= 3
    ensures PbListe(EcritEntrees(es)) == Some(es) && forall e :: e in es ==> |e.val| < DEUX63
  {
    forall e | e in es
      ensures EntreeOk(e)
    {
      EntryFits(es, e);
    }
    EntriesRoundTrip(es);
  }

  lemma {:induction false} RebuiltAt(es: seq<Entree>, f: Patch, i: nat)
    requires Rebaties(es, f).Some? && i < |es|
    ensures f(es[i].val).Some? && Rebaties(es, f).value[i] == Entree(1, f(es[i].val).value)
    decreases |es|
  {
    if i < |es| - 1 {
      RebuiltAt(es[..|es| - 1], f, i);
    }
  }

  /**
   The patched payload reads back: identity and type as they were, then the rebuilt body, every entry of which
   can be read.
   */
  lemma PatchReadsBack(payload: Octets, v: nat)
    requires ChargePatchee(payload, v).Some? && |EcritEntrees(ChargePatchee(payload, v).value)| < DEUX63
    ensures var p := PbListe(payload).value;
            var neuf := CorpsPatche(PbListe(Dernier(p, 2)).value, v).value;
            && PbListe(EcritEntrees(ChargePatchee(payload, v).value)) ==
               Some([Entree(1, Dernier(p, 1)), Entree(2, EcritEntrees(neuf)), Entree(3, Dernier(p, 3))])
            && PbListe(EcritEntrees(neuf)) == Some(neuf)
  {
    var tous := ChargePatchee(payload, v).value;
    ShortEntriesRoundTrip(tous);
    assert tous[1] in tous;
    var es := PbListe(Dernier(PbListe(payload).value, 2)).value;
    var neuf := CorpsPatche(es, v).value;
    forall i | 0 <= i < |neuf|
      ensures neuf[i].field == 1
    {
      if i < |es| {
        RebuiltAt(es, PatchVers(v), i);
      }
    }
    ShortEntriesRoundTrip(neuf);
  }

  /** Every entry is what it was, but the version's and the one added, and both of those carry the new version. */
  lemma OnlyVersionsChange(es: seq<Entree>, v: nat, i: nat)
    requires v < DEUX64 && CorpsPatche(es, v).Some? && i <= |es|
    ensures var neuf := CorpsPatche(es, v).value;
            && |neuf| == |es| + 1
            && (i < |es| ==> PbListe(es[i].val).Some?)
            && if i < |es| && Dernier(PbListe(es[i].val).value, 1) != APP_VERSION() then neuf[i].val == es[i].val
               else PbListe(neuf[i].val) == Some([Entree(1, if i < |es| then APP_VERSION() else APP_VER()), Entree(2, VerVal(v))])
                    && Analyse(VerVal(v)) == Some([ChampVarint(3, v)])
  {
    VersionValueIs(v);
    if i < |es| {
      RebuiltAt(es, PatchVers(v), i);
    }
    TableEntryBack(APP_VERSION(), v);
    TableEntryBack(APP_VER(), v);
  }

  lemma {:induction false} EntryFits(es: seq<Entree>, e: Entree)
    requires e in es
    ensures |e.val| < |EcritEntrees(es)|
  {
    if e != es[0] {
      EntryFits(es[1..], e);
    }
  }

  lemma {:induction false} VarintIsShort(v: nat, k: nat)
    requires k <= 9 && v < Plafond(k)
    ensures |Varint(v)| <= 10 - k
    decreases 9 - k
  {
    if v >= 0x80 {
      assert k < 9;
      VarintIsShort(v / 0x80, k + 1);
    }
  }

  lemma TableEntryBack(cle: Octets, v: nat)
    requires |cle| < DEUX63 && v < DEUX64
    ensures PbListe(EntreeDeTable(cle, VerVal(v))) == Some([Entree(1, cle), Entree(2, VerVal(v))])
  {
    var a, b := Entree(1, cle), Entree(2, VerVal(v));
    TenBytesHold64Bits();
    VarintIsShort(v, 0);
    EntriesRoundTrip([a, b]);
    EcritEntreesAjout([], a);
    EcritEntreesAjout([a], b);
    assert [] + [a] == [a] && [a] + [b] == [a, b];
    assert EcritEntrees([]) + PbField(1, cle) == PbField(1, cle);
  }
}
