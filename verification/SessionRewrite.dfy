/**
 Pointing a captured answer at our own session server (session_address_rewrite.go): a message is read field
 by field and written again, so that every enclosing length is recomputed.
 */
module SessionRewrite {
  import opened Wrappers
  import opened Protobuf
  import opened ProtoMessage

  const CHAMP_GAME_SESSION := 6
  const CHAMP_HOTE := 8
  const CHAMP_PORT := 9

  type Muter = Octets -> Option<Octets>

  /** What becomes of one field; none when its content cannot be rewritten. */
  type Regle = Champ -> Option<Champ>

  predicate Vise(c: Champ, num: nat) {
    c.num == num && c.typ == BYTES
  }

  function Change(cs: seq<Champ>, g: Regle): (r: Option<seq<Champ>>)
    ensures r.Some? <==> forall i :: 0 <= i < |cs| ==> g(cs[i]).Some?
    ensures r.Some? ==> |r.value| == |cs| && forall i :: 0 <= i < |cs| ==> g(cs[i]) == Some(r.value[i])
  {
    if forall i :: 0 <= i < |cs| ==> g(cs[i]).Some? then Some(seq(|cs|, i requires 0 <= i < |cs| => g(cs[i]).value)) else None
  }

  /** The message with every field changed by the rule; none if it is malformed or a field cannot be. */
  function Rendu(b: Octets, g: Regle): Option<Octets> {
    match Analyse(b)
    case None => None
    case Some(cs) =>
      match Change(cs, g)
      case None => None
      case Some(ds) => Some(EcritTous(ds))
  }

  function Prefixe(o: Octets, r: Option<Octets>): Option<Octets> {
    match r
    case None => None
    case Some(x) => Some(o + x)
  }

  lemma PrefixeDeux(o: Octets, p: Octets, r: Option<Octets>)
    ensures Prefixe(o, Prefixe(p, r)) == Prefixe(o + p, r)
  {
    match r
    case None =>
    case Some(x) => Associe(o, p, x);
  }

  lemma ChangeIs(cs: seq<Champ>, g: Regle, ds: seq<Champ>)
    requires |ds| == |cs| && forall i :: 0 <= i < |cs| ==> g(cs[i]) == Some(ds[i])
    ensures Change(cs, g) == Some(ds)
  {
    assert forall i :: 0 <= i < |cs| ==> g(cs[i]).Some?;
    assert Change(cs, g).value == ds;
  }

  lemma ChangeNeeds(c: Champ, cs: seq<Champ>, g: Regle)
    requires Change([c] + cs, g).Some?
    ensures g(c).Some? && Change(cs, g).Some?
  {
    var tous := [c] + cs;
    assert tous[0] == c;
    forall i | 0 <= i < |cs|
      ensures g(cs[i]).Some?
    {
      assert tous[i + 1] == cs[i];
    }
  }

  lemma ChangeFirst(c: Champ, cs: seq<Champ>, g: Regle)
    ensures Change([c] + cs, g) == if g(c).Some? && Change(cs, g).Some? then Some([g(c).value] + Change(cs, g).value) else None
  {
    if g(c).Some? && Change(cs, g).Some? {
      ChangeIs([c] + cs, g, [g(c).value] + Change(cs, g).value);
    } else if Change([c] + cs, g).Some? {
      ChangeNeeds(c, cs, g);
    }
  }

  /** One turn of a rewriting loop. */
  lemma OneMoreField(b: Octets, g: Regle)
    requires b != []
    ensures match LireChamp(b)
            case None => Rendu(b, g) == None
            case Some(t) =>
              Rendu(b, g) == match g(t.champ) case None => None case Some(d) => Prefixe(EcritChamp(d), Rendu(t.suite, g))
  {
    match LireChamp(b)
    case None =>
    case Some(t) =>
      match Analyse(t.suite)
      case None =>
      case Some(cs) =>
        ChangeFirst(t.champ, cs, g);
        if g(t.champ).Some? && Change(cs, g).Some? {
          assert ([g(t.champ).value] + Change(cs, g).value)[1..] == Change(cs, g).value;
        }
  }

  /** The message has a length-delimited field of this number. */
  predicate Porte(b: Octets, num: nat) {
    match Analyse(b)
    case None => false
    case Some(cs) => exists c :: c in cs && Vise(c, num)
  }

  lemma PorteFirst(b: Octets, num: nat)
    requires b != [] && LireChamp(b).Some?
    ensures var t := LireChamp(b).value;
            && (Analyse(b).Some? <==> Analyse(t.suite).Some?)
            && (Analyse(b).Some? ==> (Porte(b, num) <==> Vise(t.champ, num) || Porte(t.suite, num)))
  {
  }

  /** A length-delimited field read by hand is the field the message has there. */
  lemma FieldReadByHand(b: Octets)
    requires ConsumeTag(b).Some?
    ensures var e := ConsumeTag(b).value;
            var apres := b[e.n..];
            match ConsumeFieldValue(e.typ, apres)
            case None => LireChamp(b) == None
            case Some(m) =>
              && LireChamp(b) == Some(Tete(Champ(e.num, e.typ, apres[..m]), apres[m..]))
              && (e.typ == BYTES ==> ConsumeBytes(apres).Some? && m == ConsumeBytes(apres).value.fin
                                     && Contenu(Champ(e.num, e.typ, apres[..m])) == apres[ConsumeBytes(apres).value.debut..m])
  {
    var e := ConsumeTag(b).value;
    var apres := b[e.n..];
    match ConsumeFieldValue(e.typ, apres)
    case None =>
    case Some(m) =>
      if e.typ == BYTES {
        ValueStays(e.typ, apres, apres[..m]);
      }
  }

  // ---- reecrireChamp ----

  function RegleChamp(cible: nat, muter: Muter): Regle {
    (c: Champ) =>
      if Vise(c, cible) then
        match muter(Contenu(c))
        case None => None
        case Some(x) => Some(ChampOctets(cible, x))
      else Some(c)
  }

  function ReecritChamp(msg: Octets, cible: nat, muter: Muter): Option<Octets> {
    if Porte(msg, cible) then Rendu(msg, RegleChamp(cible, muter)) else None
  }

  method ReecrireChamp(msg: Octets, cible: nat, muter: Muter) returns (r: Option<Octets>)
    ensures r == ReecritChamp(msg, cible, muter)
  {
    var out: Octets := [];
    var trouve := false;
    var reste := msg;
    ghost var g := RegleChamp(cible, muter);
    PrefixeVide(Rendu(msg, g));
    while |reste| > 0
      invariant Prefixe(out, Rendu(reste, g)) == Rendu(msg, g)
      invariant Analyse(msg).Some? <==> Analyse(reste).Some?
      invariant Analyse(msg).Some? ==> (Porte(msg, cible) <==> trouve || Porte(reste, cible))
      decreases |reste|
    {
      OneMoreField(reste, g);
      var e := ConsumeTag(reste);
      if e.None? {
        return None;
      }
      FieldReadByHand(reste);
      var apres := reste[e.value.n..];
      if e.value.num == cible && e.value.typ == BYTES {
        var val := ConsumeBytes(apres);
        if val.None? {
          return None;
        }
        PorteFirst(reste, cible);
        var nouveau := muter(apres[val.value.debut..val.value.fin]);
        if nouveau.None? {
          return None;
        }
        PrefixeDeux(out, EcritChamp(ChampOctets(cible, nouveau.value)), Rendu(apres[val.value.fin..], g));
        out := out + EcritChamp(ChampOctets(cible, nouveau.value));
        reste := apres[val.value.fin..];
        trouve := true;
        continue;
      }
      var m := ConsumeFieldValue(e.value.typ, apres);
      if m.None? {
        return None;
      }
      PorteFirst(reste, cible);
      PrefixeDeux(out, EcritChamp(Champ(e.value.num, e.value.typ, apres[..m.value])), Rendu(apres[m.value..], g));
      out := out + EcritChamp(Champ(e.value.num, e.value.typ, apres[..m.value]));
      reste := apres[m.value..];
    }
    if !trouve {
      return None;
    }
    assert out + [] == out;
    return Some(out);
  }

  lemma PrefixeVide(r: Option<Octets>)
    ensures Prefixe([], r) == r
  {
    match r
    case None =>
    case Some(x) => assert [] + x == x;
  }

  // ---- remplacerChaine ----

  function RegleChaine(cible: nat, val: Octets): Regle {
    (c: Champ) => Some(if Vise(c, cible) then ChampOctets(cible, val) else c)
  }

  /** The string field replaced wherever it is, or added at the end. */
  function Remplace(msg: Octets, cible: nat, val: Octets): Option<Octets> {
    match Rendu(msg, RegleChaine(cible, val))
    case None => None
    case Some(o) => Some(if Porte(msg, cible) then o else o + EcritChamp(ChampOctets(cible, val)))
  }

  method RemplacerChaine(msg: Octets, cible: nat, val: Octets) returns (r: Option<Octets>)
    ensures r == Remplace(msg, cible, val)
  {
    var out: Octets := [];
    var vu := false;
    var reste := msg;
    ghost var g := RegleChaine(cible, val);
    PrefixeVide(Rendu(msg, g));
    while |reste| > 0
      invariant Prefixe(out, Rendu(reste, g)) == Rendu(msg, g)
      invariant Analyse(msg).Some? <==> Analyse(reste).Some?
      invariant Analyse(msg).Some? ==> (Porte(msg, cible) <==> vu || Porte(reste, cible))
      decreases |reste|
    {
      OneMoreField(reste, g);
      var e := ConsumeTag(reste);
      if e.None? {
        return None;
      }
      FieldReadByHand(reste);
      var apres := reste[e.value.n..];
      if e.value.num == cible && e.value.typ == BYTES {
        var val0 := ConsumeBytes(apres);
        if val0.None? {
          return None;
        }
        PorteFirst(reste, cible);
        PrefixeDeux(out, EcritChamp(ChampOctets(cible, val)), Rendu(apres[val0.value.fin..], g));
        out := out + EcritChamp(ChampOctets(cible, val));
        reste := apres[val0.value.fin..];
        vu := true;
        continue;
      }
      var m := ConsumeFieldValue(e.value.typ, apres);
      if m.None? {
        return None;
      }
      PorteFirst(reste, cible);
      PrefixeDeux(out, EcritChamp(Champ(e.value.num, e.value.typ, apres[..m.value])), Rendu(apres[m.value..], g));
      out := out + EcritChamp(Champ(e.value.num, e.value.typ, apres[..m.value]));
      reste := apres[m.value..];
    }
    assert out + [] == out;
    if !vu {
      out := out + EcritChamp(ChampOctets(cible, val));
    }
    return Some(out);
  }

  // ---- reecrireHotePort ----

  predicate EstPort(c: Champ) {
    c.num == CHAMP_PORT && c.typ == VARINT
  }

  predicate PortePort(b: Octets) {
    match Analyse(b)
    case None => false
    case Some(cs) => exists c :: c in cs && EstPort(c)
  }

  function RegleHotePort(hote: Octets, port: nat): Regle {
    (c: Champ) =>
      Some(if Vise(c, CHAMP_HOTE) then ChampOctets(CHAMP_HOTE, hote)
           else if EstPort(c) then ChampVarint(CHAMP_PORT, port) else c)
  }

  /** Host and port of a GameSession, each replaced, or added at the end. */
  function HotePort(gs: Octets, hote: Octets, port: nat): Option<Octets> {
    match Rendu(gs, RegleHotePort(hote, port))
    case None => None
    case Some(o) =>
      var o1 := if Porte(gs, CHAMP_HOTE) then o else o + EcritChamp(ChampOctets(CHAMP_HOTE, hote));
      Some(if PortePort(gs) then o1 else o1 + EcritChamp(ChampVarint(CHAMP_PORT, port)))
  }

  lemma PortFirst(b: Octets)
    requires b != [] && LireChamp(b).Some? && Analyse(b).Some?
    ensures Analyse(LireChamp(b).value.suite).Some?
    ensures PortePort(b) <==> EstPort(LireChamp(b).value.champ) || PortePort(LireChamp(b).value.suite)
  {
    var t := LireChamp(b).value;
    var cs := Analyse(t.suite).value;
    assert forall c :: c in [t.champ] + cs <==> c == t.champ || c in cs;
  }

  method ReecrireHotePort(gs: Octets, hote: Octets, port: nat) returns (r: Option<Octets>)
    requires port < 0x1_0000_0000
    ensures r == HotePort(gs, hote, port)
  {
    var out: Octets := [];
    var vuHote, vuPort := false, false;
    var reste := gs;
    ghost var g := RegleHotePort(hote, port);
    PrefixeVide(Rendu(gs, g));
    while |reste| > 0
      invariant Prefixe(out, Rendu(reste, g)) == Rendu(gs, g)
      invariant Analyse(gs).Some? <==> Analyse(reste).Some?
      invariant Analyse(gs).Some? ==> (Porte(gs, CHAMP_HOTE) <==> vuHote || Porte(reste, CHAMP_HOTE))
      invariant Analyse(gs).Some? ==> (PortePort(gs) <==> vuPort || PortePort(reste))
      decreases |reste|
    {
      OneMoreField(reste, g);
      var e := ConsumeTag(reste);
      if e.None? {
        return None;
      }
      FieldReadByHand(reste);
      var apres := reste[e.value.n..];
      var m := ConsumeFieldValue(e.value.typ, apres);
      if m.None? {
        return None;
      }
      PorteFirst(reste, CHAMP_HOTE);
      if Analyse(reste).Some? {
        PortFirst(reste);
      }
      var champ: Champ;
      if e.value.num == CHAMP_HOTE && e.value.typ == BYTES {
        champ := ChampOctets(CHAMP_HOTE, hote);
        vuHote := true;
      } else if e.value.num == CHAMP_PORT && e.value.typ == VARINT {
        champ := ChampVarint(CHAMP_PORT, port);
        vuPort := true;
      } else {
        champ := Champ(e.value.num, e.value.typ, apres[..m.value]);
      }
      PrefixeDeux(out, EcritChamp(champ), Rendu(apres[m.value..], g));
      out := out + EcritChamp(champ);
      reste := apres[m.value..];
    }
    assert out + [] == out;
    if !vuHote {
      out := out + EcritChamp(ChampOctets(CHAMP_HOTE, hote));
    }
    if !vuPort {
      out := out + EcritChamp(ChampVarint(CHAMP_PORT, port));
    }
    return Some(out);
  }

  // ---- reecrireChaine, reecrireAdresseSession ----

  function ReecrireChaine(msg: Octets, chemin: seq<nat>, val: Octets): Option<Octets>
    decreases |chemin|
  {
    if chemin == [] then None
    else if |chemin| == 1 then Remplace(msg, chemin[0], val)
    else ReecritChamp(msg, chemin[0], (sous: Octets) => ReecrireChaine(sous, chemin[1..], val))
  }

  function MuterAdresse(hote: Octets, port: nat): Muter {
    (gs: Octets) => HotePort(gs, hote, port)
  }

  function ReecrireAdresseSession(msg: Octets, hote: Octets, port: nat): Option<Octets> {
    ReecritChamp(msg, CHAMP_GAME_SESSION, MuterAdresse(hote, port))
  }

  // ---- laws: what a rewritten message holds ----

  /** A field written anew under this number. */
  ghost predicate Ecrite(num: nat, d: Champ) {
    (exists x: Octets :: d == ChampOctets(num, x)) || (exists v: nat :: v < DEUX64 && d == ChampVarint(num, v))
  }

  lemma WrittenFieldIsValid(num: nat, d: Champ)
    requires 1 <= num <= NUM_MAX && |d.brut| < DEUX64 && Ecrite(num, d)
    ensures Valide(d)
  {
    if x: Octets :| d == ChampOctets(num, x) {
      ContentBack(num, x);
    } else {
      var v: nat :| v < DEUX64 && d == ChampVarint(num, v);
      VarintFieldBack(num, v);
    }
  }

  ghost predicate Ecrivable(d: Champ) {
    Valide(d) || (1 <= d.num <= NUM_MAX && Ecrite(d.num, d))
  }

  /** As long as it fits in memory, a message of such fields parses, into those very fields. */
  lemma WrittenMessageParses(ds: seq<Champ>)
    requires (forall d :: d in ds ==> Ecrivable(d)) && |EcritTous(ds)| < DEUX64
    ensures Analyse(EcritTous(ds)) == Some(ds) && forall d :: d in ds ==> Valide(d) && |d.brut| < DEUX64
  {
    forall d | d in ds
      ensures Valide(d) && |d.brut| < DEUX64
    {
      FieldFitsInMessage(ds, d);
      if !Valide(d) {
        WrittenFieldIsValid(d.num, d);
      }
    }
    MessageRoundTrip(ds);
  }

  // ---- the path rewriter, level by level ----

  ghost predicate CheminValide(chemin: seq<nat>) {
    chemin != [] && forall i :: 0 <= i < |chemin| ==> 1 <= chemin[i] <= NUM_MAX
  }

  /** What a field on the path carries once rewritten. */
  function NouveauContenu(c: Champ, chemin: seq<nat>, val: Octets): Option<Octets>
    requires chemin != []
  {
    if |chemin| == 1 then Some(val) else ReecrireChaine(Contenu(c), chemin[1..], val)
  }

  function RegleChemin(chemin: seq<nat>, val: Octets): Regle
    requires chemin != []
  {
    (c: Champ) =>
      if Vise(c, chemin[0]) then
        match NouveauContenu(c, chemin, val)
        case None => None
        case Some(x) => Some(ChampOctets(chemin[0], x))
      else Some(c)
  }

  /** The string added at the end of a message that has none. */
  function Queue(b: Octets, chemin: seq<nat>, val: Octets): seq<Champ>
    requires chemin != []
  {
    if |chemin| == 1 && !Porte(b, chemin[0]) then [ChampOctets(chemin[0], val)] else []
  }

  /** The fields of the rewritten message. */
  function Champs(b: Octets, chemin: seq<nat>, val: Octets): seq<Champ>
    requires chemin != [] && Analyse(b).Some? && Change(Analyse(b).value, RegleChemin(chemin, val)).Some?
  {
    Change(Analyse(b).value, RegleChemin(chemin, val)).value + Queue(b, chemin, val)
  }

  lemma SameRuleSameMessage(b: Octets, g: Regle, h: Regle)
    requires forall c :: g(c) == h(c)
    ensures Rendu(b, g) == Rendu(b, h)
  {
    match Analyse(b)
    case None =>
    case Some(cs) => assert Change(cs, g).Some? && Change(cs, h).Some? ==> Change(cs, g).value == Change(cs, h).value;
  }

  /** A rewrite succeeds exactly on a well-formed message where every field on the path can be, and there is one if it must lead on. */
  lemma RewriteByLevel(b: Octets, chemin: seq<nat>, val: Octets)
    requires chemin != []
    ensures ReecrireChaine(b, chemin, val).Some? <==>
            && Analyse(b).Some? && Change(Analyse(b).value, RegleChemin(chemin, val)).Some?
            && (|chemin| > 1 ==> Porte(b, chemin[0]))
    ensures ReecrireChaine(b, chemin, val).Some? ==>
              ReecrireChaine(b, chemin, val) == Some(EcritTous(Champs(b, chemin, val)))
  {
    var g := RegleChemin(chemin, val);
    if |chemin| == 1 {
      SameRuleSameMessage(b, g, RegleChaine(chemin[0], val));
    } else {
      SameRuleSameMessage(b, g, RegleChamp(chemin[0], (sous: Octets) => ReecrireChaine(sous, chemin[1..], val)));
    }
    if Rendu(b, g).Some? {
      var ds := Change(Analyse(b).value, g).value;
      EcritTousConcat(ds, Queue(b, chemin, val));
      OneField(ChampOctets(chemin[0], val));
      assert EcritTous(ds) + EcritTous([]) == EcritTous(ds);
    }
  }

  lemma OneField(c: Champ)
    ensures EcritTous([c]) == EcritChamp(c)
  {
  }

  lemma NewFieldIsWritable(num: nat, x: Octets)
    requires 1 <= num <= NUM_MAX
    ensures Ecrivable(ChampOctets(num, x))
  {
  }

  lemma FieldsAreWritable(b: Octets, chemin: seq<nat>, val: Octets)
    requires CheminValide(chemin) && Analyse(b).Some? && Change(Analyse(b).value, RegleChemin(chemin, val)).Some?
    ensures forall d :: d in Champs(b, chemin, val) ==> Ecrivable(d)
  {
    ReadFieldsAreValid(b);
    var cs := Analyse(b).value;
    var g := RegleChemin(chemin, val);
    var ds := Change(cs, g).value;
    forall i | 0 <= i < |ds|
      ensures Ecrivable(ds[i])
    {
      ChangedFieldIsWritable(cs[i], chemin, val);
      assert g(cs[i]) == Some(ds[i]);
    }
    NewFieldIsWritable(chemin[0], val);
  }

  lemma ChangedFieldIsWritable(c: Champ, chemin: seq<nat>, val: Octets)
    requires CheminValide(chemin) && Valide(c)
    ensures RegleChemin(chemin, val)(c).Some? ==> Ecrivable(RegleChemin(chemin, val)(c).value)
  {
    if Vise(c, chemin[0]) {
      match NouveauContenu(c, chemin, val)
      case None =>
      case Some(x) => NewFieldIsWritable(chemin[0], x);
    }
  }

  /** The rewritten message parses into its fields, and every content on the path fits. */
  lemma RewrittenFields(b: Octets, chemin: seq<nat>, val: Octets)
    requires CheminValide(chemin) && ReecrireChaine(b, chemin, val).Some? && |ReecrireChaine(b, chemin, val).value| < DEUX64
    ensures Analyse(b).Some? && Change(Analyse(b).value, RegleChemin(chemin, val)).Some?
    ensures Analyse(ReecrireChaine(b, chemin, val).value) == Some(Champs(b, chemin, val))
    ensures forall d :: d in Champs(b, chemin, val) ==> Valide(d) && |d.brut| < DEUX64
  {
    RewriteByLevel(b, chemin, val);
    FieldsAreWritable(b, chemin, val);
    WrittenMessageParses(Champs(b, chemin, val));
  }

  /** On the path a field carries its rewritten content; off the path it is what it was. */
  ghost predicate ChampReecrit(c: Champ, d: Champ, chemin: seq<nat>, val: Octets)
    requires chemin != []
  {
    if c.num == chemin[0] && c.typ == 2 then
      d == ChampOctets(chemin[0], Contenu(d)) && Some(Contenu(d)) == NouveauContenu(c, chemin, val) && |Contenu(d)| < DEUX64
    else d == c
  }

  ghost predicate EstAjout(d: Champ, num: nat, val: Octets) {
    d == ChampOctets(num, val) && Contenu(d) == val
  }

  ghost predicate Absent(cs: seq<Champ>, num: nat) {
    forall i :: 0 <= i < |cs| ==> cs[i].num != num || cs[i].typ != 2
  }

  /** Same fields in the same order, but those addressed; a string the message lacked comes last. */
  ghost predicate Reecrits(cs: seq<Champ>, ds: seq<Champ>, chemin: seq<nat>, val: Octets)
    requires chemin != []
  {
    && |ds| == |cs| + (if Absent(cs, chemin[0]) then 1 else 0)
    && (forall i :: 0 <= i < |cs| ==> ChampReecrit(cs[i], ds[i], chemin, val))
    && (Absent(cs, chemin[0]) ==> |chemin| == 1 && EstAjout(ds[|cs|], chemin[0], val))
  }

  lemma FieldRewritten(c: Champ, chemin: seq<nat>, val: Octets)
    requires CheminValide(chemin) && RegleChemin(chemin, val)(c).Some? && |RegleChemin(chemin, val)(c).value.brut| < DEUX64
    ensures ChampReecrit(c, RegleChemin(chemin, val)(c).value, chemin, val)
  {
    if Vise(c, chemin[0]) {
      ContentBack(chemin[0], NouveauContenu(c, chemin, val).value);
    }
  }

  lemma Portes(b: Octets, num: nat)
    requires Analyse(b).Some?
    ensures Porte(b, num) <==> !Absent(Analyse(b).value, num)
  {
    var cs := Analyse(b).value;
    if i :| 0 <= i < |cs| && cs[i].num == num && cs[i].typ == 2 {
      assert cs[i] in cs && Vise(cs[i], num);
    }
    if c :| c in cs && Vise(c, num) {
      var i :| 0 <= i < |cs| && cs[i] == c;
      assert cs[i].num == num && cs[i].typ == 2;
    }
  }

  /** A rewrite changes exactly the addressed fields, and its result parses. */
  lemma OnlyAddressedFieldsChange(b: Octets, chemin: seq<nat>, val: Octets)
    requires CheminValide(chemin) && ReecrireChaine(b, chemin, val).Some? && |ReecrireChaine(b, chemin, val).value| < DEUX64
    ensures Analyse(b).Some? && Analyse(ReecrireChaine(b, chemin, val).value).Some?
    ensures Reecrits(Analyse(b).value, Analyse(ReecrireChaine(b, chemin, val).value).value, chemin, val)
  {
    RewriteByLevel(b, chemin, val);
    RewrittenFields(b, chemin, val);
    Portes(b, chemin[0]);
    var cs, ds := Analyse(b).value, Champs(b, chemin, val);
    forall i | 0 <= i < |cs|
      ensures ChampReecrit(cs[i], ds[i], chemin, val)
    {
      assert RegleChemin(chemin, val)(cs[i]) == Some(ds[i]) && ds[i] in ds;
      FieldRewritten(cs[i], chemin, val);
    }
    if !Porte(b, chemin[0]) {
      assert ds[|cs|] == ChampOctets(chemin[0], val) && ds[|cs|] in ds;
      ContentBack(chemin[0], val);
    }
  }

  // ---- reading back ----

  /** Some field at the end of the path carries x. */
  ghost predicate Lue(b: Octets, chemin: seq<nat>, x: Octets)
    requires chemin != []
    decreases |chemin|, 1
  {
    Analyse(b).Some? && exists i :: 0 <= i < |Analyse(b).value| && LueDans(Analyse(b).value[i], chemin, x)
  }

  ghost predicate LueDans(c: Champ, chemin: seq<nat>, x: Octets)
    requires chemin != []
    decreases |chemin|, 0
  {
    Vise(c, chemin[0]) && if |chemin| == 1 then Contenu(c) == x else Lue(Contenu(c), chemin[1..], x)
  }

  /** Neither path leads through the other. */
  predicate Separes(p: seq<nat>, q: seq<nat>) {
    p != [] && q != [] && (p[0] != q[0] || Separes(p[1..], q[1..]))
  }

  /** Separate paths are those of which neither begins with the other. */
  lemma {:induction false} SeparateIff(p: seq<nat>, q: seq<nat>)
    ensures Separes(p, q) <==> !(p <= q) && !(q <= p)
    decreases |p|
  {
    if p != [] && q != [] && p[0] == q[0] {
      SeparateIff(p[1..], q[1..]);
      assert p == [p[0]] + p[1..] && q == [q[0]] + q[1..];
    }
  }

  ghost predicate LueParmi(ds: seq<Champ>, chemin: seq<nat>, x: Octets)
    requires chemin != []
  {
    exists i :: 0 <= i < |ds| && LueDans(ds[i], chemin, x)
  }

  lemma LevelReadsBack(cs: seq<Champ>, ds: seq<Champ>, chemin: seq<nat>, val: Octets, x: Octets)
    requires chemin != [] && Reecrits(cs, ds, chemin, val)
    requires forall i :: 0 <= i < |cs| ==> (LueDans(ds[i], chemin, x) <==> Vise(cs[i], chemin[0]) && x == val)
    ensures LueParmi(ds, chemin, x) <==> x == val
  {
  }

  lemma {:induction false} FieldReadsBack(c: Champ, d: Champ, chemin: seq<nat>, val: Octets, x: Octets)
    requires CheminValide(chemin) && ChampReecrit(c, d, chemin, val)
    ensures LueDans(d, chemin, x) <==> Vise(c, chemin[0]) && x == val
    decreases |chemin|, 0
  {
    if Vise(c, chemin[0]) && |chemin| > 1 {
      ReadsBack(Contenu(c), chemin[1..], val, x);
    }
  }

  /** After a rewrite, the path reads the new value, and nothing else. */
  lemma {:induction false} ReadsBack(b: Octets, chemin: seq<nat>, val: Octets, x: Octets)
    requires CheminValide(chemin) && ReecrireChaine(b, chemin, val).Some? && |ReecrireChaine(b, chemin, val).value| < DEUX64
    ensures Lue(ReecrireChaine(b, chemin, val).value, chemin, x) <==> x == val
    decreases |chemin|, 1
  {
    OnlyAddressedFieldsChange(b, chemin, val);
    var cs, ds := Analyse(b).value, Analyse(ReecrireChaine(b, chemin, val).value).value;
    forall i | 0 <= i < |cs|
      ensures LueDans(ds[i], chemin, x) <==> Vise(cs[i], chemin[0]) && x == val
    {
      FieldReadsBack(cs[i], ds[i], chemin, val, x);
    }
    LevelReadsBack(cs, ds, chemin, val, x);
  }

  lemma SeparesLongs(p: seq<nat>, q: seq<nat>)
    requires Separes(p, q) && p[0] == q[0]
    ensures |p| > 1 && |q| > 1 && Separes(p[1..], q[1..])
  {
  }

  lemma LevelReadsTheSame(cs: seq<Champ>, ds: seq<Champ>, chemin: seq<nat>, val: Octets, q: seq<nat>, x: Octets)
    requires Separes(chemin, q) && Reecrits(cs, ds, chemin, val)
    requires forall i :: 0 <= i < |cs| ==> (LueDans(ds[i], q, x) <==> LueDans(cs[i], q, x))
    ensures LueParmi(ds, q, x) <==> LueParmi(cs, q, x)
  {
  }

  lemma {:induction false} FieldReadsTheSame(c: Champ, d: Champ, chemin: seq<nat>, val: Octets, q: seq<nat>, x: Octets)
    requires CheminValide(chemin) && Separes(chemin, q) && ChampReecrit(c, d, chemin, val)
    ensures LueDans(d, q, x) <==> LueDans(c, q, x)
    decreases |chemin|, 0
  {
    if Vise(c, chemin[0]) && q[0] == chemin[0] {
      SeparesLongs(chemin, q);
      OtherPathsReadTheSame(Contenu(c), chemin[1..], val, q[1..], x);
    }
  }

  /** Every other path reads the same as before. */
  lemma {:induction false} OtherPathsReadTheSame(b: Octets, chemin: seq<nat>, val: Octets, q: seq<nat>, x: Octets)
    requires CheminValide(chemin) && ReecrireChaine(b, chemin, val).Some? && |ReecrireChaine(b, chemin, val).value| < DEUX64
    requires Separes(chemin, q)
    ensures Lue(ReecrireChaine(b, chemin, val).value, q, x) <==> Lue(b, q, x)
    decreases |chemin|, 1
  {
    OnlyAddressedFieldsChange(b, chemin, val);
    var cs, ds := Analyse(b).value, Analyse(ReecrireChaine(b, chemin, val).value).value;
    forall i | 0 <= i < |cs|
      ensures LueDans(ds[i], q, x) <==> LueDans(cs[i], q, x)
    {
      FieldReadsTheSame(cs[i], ds[i], chemin, val, q, x);
    }
    LevelReadsTheSame(cs, ds, chemin, val, q, x);
  }

  // ---- rewriting twice ----

  /** A successful rewrite is a relation between the fields before and after, and the bytes are those of the fields. */
  lemma RewriteIsRelation(b: Octets, chemin: seq<nat>, val: Octets)
    requires CheminValide(chemin) && ReecrireChaine(b, chemin, val).Some? && |ReecrireChaine(b, chemin, val).value| < DEUX64
    ensures var o := ReecrireChaine(b, chemin, val).value;
            && Analyse(b).Some? && Analyse(o).Some? && o == EcritTous(Analyse(o).value)
            && Reecrits(Analyse(b).value, Analyse(o).value, chemin, val)
  {
    OnlyAddressedFieldsChange(b, chemin, val);
    RewriteByLevel(b, chemin, val);
    RewrittenFields(b, chemin, val);
  }

  /** A rewrite can be made as soon as every field on the path can be. */
  lemma RewriteSucceeds(b: Octets, chemin: seq<nat>, val: Octets)
    requires chemin != [] && Analyse(b).Some? && (|chemin| > 1 ==> Porte(b, chemin[0]))
    requires forall i :: 0 <= i < |Analyse(b).value| && Vise(Analyse(b).value[i], chemin[0]) ==>
                         NouveauContenu(Analyse(b).value[i], chemin, val).Some?
    ensures ReecrireChaine(b, chemin, val).Some?
  {
  }

  lemma FieldCanBeRewritten(b: Octets, chemin: seq<nat>, val: Octets, i: nat)
    requires chemin != [] && ReecrireChaine(b, chemin, val).Some? && Analyse(b).Some?
    requires i < |Analyse(b).value| && Vise(Analyse(b).value[i], chemin[0])
    ensures NouveauContenu(Analyse(b).value[i], chemin, val).Some?
  {
    RewriteByLevel(b, chemin, val);
    assert RegleChemin(chemin, val)(Analyse(b).value[i]).Some?;
  }

  lemma {:induction false} FieldStaysPossible(c: Champ, d: Champ, p: seq<nat>, v: Octets, q: seq<nat>, w: Octets)
    requires CheminValide(p) && Separes(p, q) && ChampReecrit(c, d, p, v)
    requires Vise(c, q[0]) && NouveauContenu(c, q, w).Some?
    ensures NouveauContenu(d, q, w).Some?
    decreases |p|, 0
  {
    if p[0] == q[0] {
      SeparesLongs(p, q);
      RewriteStaysPossible(Contenu(c), p[1..], v, q[1..], w);
    }
  }

  /** Neither rewrite spoils the other's way. */
  lemma {:induction false} RewriteStaysPossible(b: Octets, p: seq<nat>, v: Octets, q: seq<nat>, w: Octets)
    requires CheminValide(p) && Separes(p, q)
    requires ReecrireChaine(b, p, v).Some? && |ReecrireChaine(b, p, v).value| < DEUX64 && ReecrireChaine(b, q, w).Some?
    ensures ReecrireChaine(ReecrireChaine(b, p, v).value, q, w).Some?
    decreases |p|, 1
  {
    RewriteIsRelation(b, p, v);
    var o := ReecrireChaine(b, p, v).value;
    var cs, ds := Analyse(b).value, Analyse(o).value;
    forall i | 0 <= i < |cs| && Vise(cs[i], q[0])
      ensures NouveauContenu(ds[i], q, w).Some?
    {
      FieldCanBeRewritten(b, q, w, i);
      FieldStaysPossible(cs[i], ds[i], p, v, q, w);
    }
    LevelStaysPossible(cs, ds, p, v, q, w);
    RewriteByLevel(b, q, w);
    StillCarries(b, o, p, v, q[0]);
    RewriteSucceeds(o, q, w);
  }

  lemma LevelStaysPossible(cs: seq<Champ>, ds: seq<Champ>, p: seq<nat>, v: Octets, q: seq<nat>, w: Octets)
    requires Separes(p, q) && Reecrits(cs, ds, p, v)
    requires forall i :: 0 <= i < |cs| && Vise(cs[i], q[0]) ==> NouveauContenu(ds[i], q, w).Some?
    ensures forall i :: 0 <= i < |ds| && Vise(ds[i], q[0]) ==> NouveauContenu(ds[i], q, w).Some?
  {
  }

  lemma SameNumber(c: Champ, d: Champ, p: seq<nat>, v: Octets, num: nat)
    requires p != [] && ChampReecrit(c, d, p, v)
    ensures Vise(c, num) <==> Vise(d, num)
  {
  }

  lemma StillAbsent(cs: seq<Champ>, ds: seq<Champ>, p: seq<nat>, v: Octets, num: nat)
    requires p != [] && Reecrits(cs, ds, p, v)
    ensures Absent(ds, num) ==> Absent(cs, num)
    ensures p[0] != num ==> (Absent(cs, num) <==> Absent(ds, num))
  {
  }

  lemma StillCarries(b: Octets, o: Octets, p: seq<nat>, v: Octets, num: nat)
    requires p != [] && Analyse(b).Some? && Analyse(o).Some? && Reecrits(Analyse(b).value, Analyse(o).value, p, v)
    ensures Porte(b, num) ==> Porte(o, num)
  {
    Portes(b, num);
    Portes(o, num);
    StillAbsent(Analyse(b).value, Analyse(o).value, p, v, num);
  }

  /** Two rewrites that meet: both add a string, of different numbers, at the end of the same message. */
  ghost predicate DoubleAjout(b: Octets, p: seq<nat>, q: seq<nat>)
    requires Separes(p, q)
    decreases |p|, 1
  {
    if p[0] != q[0] then |p| == 1 && |q| == 1 && !Porte(b, p[0]) && !Porte(b, q[0])
    else Analyse(b).Some? && exists i :: 0 <= i < |Analyse(b).value| && DoubleAjoutDans(Analyse(b).value[i], p, q)
  }

  ghost predicate DoubleAjoutDans(c: Champ, p: seq<nat>, q: seq<nat>)
    requires Separes(p, q) && p[0] == q[0]
    decreases |p|, 0
  {
    Vise(c, p[0]) && |p| > 1 && DoubleAjout(Contenu(c), p[1..], q[1..])
  }

  lemma SeparesSym(p: seq<nat>, q: seq<nat>)
    requires Separes(p, q)
    ensures Separes(q, p)
  {
  }

  /** One field, rewritten along p then q, and along q then p. */
  lemma {:induction false} FieldCommutes(c: Champ, d1: Champ, e1: Champ, d2: Champ, e2: Champ, p: seq<nat>, v: Octets, q: seq<nat>, w: Octets)
    requires CheminValide(p) && CheminValide(q) && Separes(p, q)
    requires ChampReecrit(c, d1, p, v) && ChampReecrit(d1, e1, q, w) && ChampReecrit(c, d2, q, w) && ChampReecrit(d2, e2, p, v)
    ensures e1 == e2 <==> !(p[0] == q[0] && DoubleAjoutDans(c, p, q))
    decreases |p|, 0
  {
    if p[0] == q[0] && Vise(c, p[0]) {
      SeparesLongs(p, q);
      OnThePath(c, d1, p, v);
      OnThePath(c, d2, q, w);
      OnThePath(d1, e1, q, w);
      OnThePath(d2, e2, p, v);
      RewritesCommuteIff(Contenu(c), p[1..], v, q[1..], w);
    } else {
      OffOnePath(c, d1, e1, d2, e2, p, v, q, w);
    }
  }

  /** A field on a path that leads on: its content is the rewritten one. */
  lemma OnThePath(c: Champ, d: Champ, p: seq<nat>, v: Octets)
    requires |p| > 1 && Vise(c, p[0]) && ChampReecrit(c, d, p, v)
    ensures Vise(d, p[0]) && d == ChampOctets(p[0], Contenu(d))
    ensures ReecrireChaine(Contenu(c), p[1..], v) == Some(Contenu(d)) && |Contenu(d)| < DEUX64
  {
  }

  /** A field that one of the two paths leaves alone does not care for their order. */
  lemma OffOnePath(c: Champ, d1: Champ, e1: Champ, d2: Champ, e2: Champ, p: seq<nat>, v: Octets, q: seq<nat>, w: Octets)
    requires p != [] && q != [] && !(p[0] == q[0] && Vise(c, p[0]))
    requires ChampReecrit(c, d1, p, v) && ChampReecrit(d1, e1, q, w) && ChampReecrit(c, d2, q, w) && ChampReecrit(d2, e2, p, v)
    ensures e1 == e2
  {
  }

  lemma {:induction false} EachFieldCommutes(cs: seq<Champ>, ds1: seq<Champ>, es1: seq<Champ>, ds2: seq<Champ>, es2: seq<Champ>,
                                             p: seq<nat>, v: Octets, q: seq<nat>, w: Octets)
    requires CheminValide(p) && CheminValide(q) && Separes(p, q)
    requires Reecrits(cs, ds1, p, v) && Reecrits(ds1, es1, q, w) && Reecrits(cs, ds2, q, w) && Reecrits(ds2, es2, p, v)
    ensures forall i :: 0 <= i < |cs| ==> (es1[i] == es2[i] <==> !(p[0] == q[0] && DoubleAjoutDans(cs[i], p, q)))
    decreases |p|, 1
  {
    forall i | 0 <= i < |cs|
      ensures es1[i] == es2[i] <==> !(p[0] == q[0] && DoubleAjoutDans(cs[i], p, q))
    {
      FieldCommutes(cs[i], ds1[i], es1[i], ds2[i], es2[i], p, v, q, w);
    }
  }

  /**
   Rewrites along separate paths give the same bytes in either order, exactly when they do not both add their
   string at the end of the same message.
   */
  lemma {:induction false} RewritesCommuteIff(b: Octets, p: seq<nat>, v: Octets, q: seq<nat>, w: Octets)
    requires CheminValide(p) && CheminValide(q) && Separes(p, q)
    requires ReecrireChaine(b, p, v).Some? && ReecrireChaine(b, q, w).Some?
    requires |ReecrireChaine(b, p, v).value| < DEUX64 && |ReecrireChaine(b, q, w).value| < DEUX64
    requires Tient(ReecrireChaine(ReecrireChaine(b, p, v).value, q, w)) && Tient(ReecrireChaine(ReecrireChaine(b, q, w).value, p, v))
    ensures ReecrireChaine(ReecrireChaine(b, p, v).value, q, w) == ReecrireChaine(ReecrireChaine(b, q, w).value, p, v) <==>
            !DoubleAjout(b, p, q)
    decreases |p|, 2
  {
    SeparesSym(p, q);
    var o1, o2 := ReecrireChaine(b, p, v).value, ReecrireChaine(b, q, w).value;
    RewriteStaysPossible(b, p, v, q, w);
    RewriteStaysPossible(b, q, w, p, v);
    RewriteIsRelation(b, p, v);
    RewriteIsRelation(b, q, w);
    RewriteIsRelation(o1, q, w);
    RewriteIsRelation(o2, p, v);
    var r1, r2 := ReecrireChaine(o1, q, w).value, ReecrireChaine(o2, p, v).value;
    var cs, ds1, es1, ds2, es2 := Analyse(b).value, Analyse(o1).value, Analyse(r1).value, Analyse(o2).value, Analyse(r2).value;
    EachFieldCommutes(cs, ds1, es1, ds2, es2, p, v, q, w);
    LevelCommutes(cs, ds1, es1, ds2, es2, p, v, q, w);
    Portes(b, p[0]);
    Portes(b, q[0]);
    FieldsAgreeIff(cs, es1, es2, p, q);
  }

  lemma FieldsAgreeIff(cs: seq<Champ>, es1: seq<Champ>, es2: seq<Champ>, p: seq<nat>, q: seq<nat>)
    requires Separes(p, q) && |es1| >= |cs| && |es2| >= |cs|
    requires forall i :: 0 <= i < |cs| ==> (es1[i] == es2[i] <==> !(p[0] == q[0] && DoubleAjoutDans(cs[i], p, q)))
    ensures es1[..|cs|] == es2[..|cs|] <==> !(p[0] == q[0] && exists i :: 0 <= i < |cs| && DoubleAjoutDans(cs[i], p, q))
  {
    if p[0] == q[0] && exists i :: 0 <= i < |cs| && DoubleAjoutDans(cs[i], p, q) {
      var i :| 0 <= i < |cs| && DoubleAjoutDans(cs[i], p, q);
      assert es1[..|cs|][i] != es2[..|cs|][i];
    } else {
      forall i | 0 <= i < |cs|
        ensures es1[..|cs|][i] == es2[..|cs|][i]
      {
      }
    }
  }

  /** Fits in memory, if there is a result. */
  ghost predicate Tient(r: Option<Octets>) {
    r.Some? ==> |r.value| < DEUX64
  }

  /** What two rewrites of different fields leave after the fields of the message. */
  lemma AddedAtTheEnd(cs: seq<Champ>, ds: seq<Champ>, es: seq<Champ>, p: seq<nat>, v: Octets, q: seq<nat>, w: Octets)
    requires p != [] && q != [] && p[0] != q[0] && Reecrits(cs, ds, p, v) && Reecrits(ds, es, q, w)
    ensures |es| >= |cs|
    ensures es[|cs|..] == (if Absent(cs, p[0]) then [ChampOctets(p[0], v)] else [])
                        + (if Absent(cs, q[0]) then [ChampOctets(q[0], w)] else [])
    ensures Absent(cs, p[0]) ==> |p| == 1
    ensures Absent(cs, q[0]) ==> |q| == 1
  {
    StillAbsent(cs, ds, p, v, q[0]);
    if |ds| > |cs| {
      assert ChampReecrit(ds[|cs|], es[|cs|], q, w);
    }
  }

  lemma LongPathsAddNothing(cs: seq<Champ>, ds: seq<Champ>, es: seq<Champ>, p: seq<nat>, v: Octets, q: seq<nat>, w: Octets)
    requires |p| > 1 && |q| > 1 && Reecrits(cs, ds, p, v) && Reecrits(ds, es, q, w)
    ensures |es| == |cs|
  {
  }

  lemma TailsDecide(es1: seq<Champ>, es2: seq<Champ>, n: nat, x: Champ, y: Champ, ax: bool, ay: bool)
    requires n <= |es1| && n <= |es2| && x.num != y.num
    requires es1[n..] == (if ax then [x] else []) + (if ay then [y] else [])
    requires es2[n..] == (if ay then [y] else []) + (if ax then [x] else [])
    ensures es1 == es2 <==> es1[..n] == es2[..n] && !(ax && ay)
  {
    SameHalves(es1, es2, n);
    TwoOrders(x, y, ax, ay);
  }

  lemma SameHeadAddsNothing(cs: seq<Champ>, ds: seq<Champ>, es: seq<Champ>, p: seq<nat>, v: Octets, q: seq<nat>, w: Octets)
    requires Separes(p, q) && Reecrits(cs, ds, p, v) && Reecrits(ds, es, q, w) && p[0] == q[0]
    ensures |es| == |cs|
  {
    SeparesLongs(p, q);
    LongPathsAddNothing(cs, ds, es, p, v, q, w);
  }

  /** The two orders agree as soon as they agree on the message's own fields, unless both add one. */
  ghost predicate OrdreIndifferent(cs: seq<Champ>, es1: seq<Champ>, es2: seq<Champ>, p: seq<nat>, q: seq<nat>)
    requires p != [] && q != []
  {
    && |es1| >= |cs| && |es2| >= |cs|
    && (es1 == es2 <==> es1[..|cs|] == es2[..|cs|] && !(p[0] != q[0] && Absent(cs, p[0]) && Absent(cs, q[0])))
  }

  lemma SameHeadCommutes(cs: seq<Champ>, ds1: seq<Champ>, es1: seq<Champ>, ds2: seq<Champ>, es2: seq<Champ>,
                         p: seq<nat>, v: Octets, q: seq<nat>, w: Octets)
    requires Separes(p, q) && p[0] == q[0]
    requires Reecrits(cs, ds1, p, v) && Reecrits(ds1, es1, q, w) && Reecrits(cs, ds2, q, w) && Reecrits(ds2, es2, p, v)
    ensures OrdreIndifferent(cs, es1, es2, p, q)
  {
    SeparesSym(p, q);
    SameHeadAddsNothing(cs, ds1, es1, p, v, q, w);
    SameHeadAddsNothing(cs, ds2, es2, q, w, p, v);
    NothingAddedIsIndifferent(cs, es1, es2, p, q);
  }

  lemma NothingAddedIsIndifferent(cs: seq<Champ>, es1: seq<Champ>, es2: seq<Champ>, p: seq<nat>, q: seq<nat>)
    requires p != [] && q != [] && p[0] == q[0] && |es1| == |es2| == |cs|
    ensures OrdreIndifferent(cs, es1, es2, p, q)
  {
    assert es1[..|cs|] == es1 && es2[..|cs|] == es2;
  }

  lemma OtherHeadCommutes(cs: seq<Champ>, ds1: seq<Champ>, es1: seq<Champ>, ds2: seq<Champ>, es2: seq<Champ>,
                          p: seq<nat>, v: Octets, q: seq<nat>, w: Octets)
    requires p != [] && q != [] && p[0] != q[0]
    requires Reecrits(cs, ds1, p, v) && Reecrits(ds1, es1, q, w) && Reecrits(cs, ds2, q, w) && Reecrits(ds2, es2, p, v)
    ensures OrdreIndifferent(cs, es1, es2, p, q)
  {
    AddedAtTheEnd(cs, ds1, es1, p, v, q, w);
    AddedAtTheEnd(cs, ds2, es2, q, w, p, v);
    TailsDecide(es1, es2, |cs|, ChampOctets(p[0], v), ChampOctets(q[0], w), Absent(cs, p[0]), Absent(cs, q[0]));
  }

  lemma LevelCommutes(cs: seq<Champ>, ds1: seq<Champ>, es1: seq<Champ>, ds2: seq<Champ>, es2: seq<Champ>,
                      p: seq<nat>, v: Octets, q: seq<nat>, w: Octets)
    requires Separes(p, q)
    requires Reecrits(cs, ds1, p, v) && Reecrits(ds1, es1, q, w) && Reecrits(cs, ds2, q, w) && Reecrits(ds2, es2, p, v)
    ensures OrdreIndifferent(cs, es1, es2, p, q)
  {
    if p[0] == q[0] {
      SameHeadCommutes(cs, ds1, es1, ds2, es2, p, v, q, w);
    } else {
      OtherHeadCommutes(cs, ds1, es1, ds2, es2, p, v, q, w);
    }
  }

  lemma SameHalves(a: seq<Champ>, b: seq<Champ>, n: nat)
    requires n <= |a| && n <= |b|
    ensures a == b <==> a[..n] == b[..n] && a[n..] == b[n..]
  {
  }

  lemma TwoOrders(x: Champ, y: Champ, ax: bool, ay: bool)
    requires x.num != y.num
    ensures (if ax then [x] else []) + (if ay then [y] else []) == (if ay then [y] else []) + (if ax then [x] else []) <==>
            !(ax && ay)
  {
    if ax && ay {
      assert ([x] + [y])[0] != ([y] + [x])[0];
    }
  }

  // ---- the second rewrite wins ----

  lemma {:induction false} FieldOverrides(c: Champ, d: Champ, e: Champ, f: Champ, p: seq<nat>, v1: Octets, v2: Octets)
    requires CheminValide(p) && ChampReecrit(c, d, p, v1) && ChampReecrit(d, e, p, v2) && ChampReecrit(c, f, p, v2)
    ensures e == f
    decreases |p|, 0
  {
    if Vise(c, p[0]) && |p| > 1 {
      SecondRewriteWins(Contenu(c), p[1..], v1, v2);
    }
  }

  lemma {:induction false} FieldAgain(c: Champ, d: Champ, p: seq<nat>, v1: Octets, v2: Octets)
    requires CheminValide(p) && ChampReecrit(c, d, p, v1) && Vise(c, p[0])
    ensures NouveauContenu(d, p, v2).Some? && NouveauContenu(c, p, v2).Some?
    decreases |p|, 0
  {
    if |p| > 1 {
      RewriteAgain(Contenu(c), p[1..], v1, v2);
    }
  }

  /** Whether a rewrite can be made does not depend on the value, and it can be made again. */
  lemma {:induction false} RewriteAgain(b: Octets, p: seq<nat>, v1: Octets, v2: Octets)
    requires CheminValide(p) && ReecrireChaine(b, p, v1).Some? && |ReecrireChaine(b, p, v1).value| < DEUX64
    ensures ReecrireChaine(ReecrireChaine(b, p, v1).value, p, v2).Some? && ReecrireChaine(b, p, v2).Some?
    decreases |p|, 1
  {
    RewriteIsRelation(b, p, v1);
    var o := ReecrireChaine(b, p, v1).value;
    var cs, ds := Analyse(b).value, Analyse(o).value;
    forall i | 0 <= i < |cs| && Vise(cs[i], p[0])
      ensures NouveauContenu(ds[i], p, v2).Some? && NouveauContenu(cs[i], p, v2).Some?
    {
      FieldAgain(cs[i], ds[i], p, v1, v2);
    }
    RewriteByLevel(b, p, v1);
    StillCarries(b, o, p, v1, p[0]);
    AgainAtThisLevel(cs, ds, p, v1, v2);
    RewriteSucceeds(b, p, v2);
    RewriteSucceeds(o, p, v2);
  }

  lemma AgainAtThisLevel(cs: seq<Champ>, ds: seq<Champ>, p: seq<nat>, v1: Octets, v2: Octets)
    requires p != [] && Reecrits(cs, ds, p, v1)
    requires forall i :: 0 <= i < |cs| && Vise(cs[i], p[0]) ==> NouveauContenu(ds[i], p, v2).Some?
    ensures forall i :: 0 <= i < |ds| && Vise(ds[i], p[0]) ==> NouveauContenu(ds[i], p, v2).Some?
  {
    forall i | 0 <= i < |cs|
      ensures Vise(cs[i], p[0]) <==> Vise(ds[i], p[0])
    {
      SameNumber(cs[i], ds[i], p, v1, p[0]);
    }
  }

  /** Rewriting a path a second time gives what writing only the second value gives. */
  lemma {:induction false} SecondRewriteWins(b: Octets, p: seq<nat>, v1: Octets, v2: Octets)
    requires CheminValide(p) && ReecrireChaine(b, p, v1).Some? && |ReecrireChaine(b, p, v1).value| < DEUX64
    requires Tient(ReecrireChaine(b, p, v2)) && Tient(ReecrireChaine(ReecrireChaine(b, p, v1).value, p, v2))
    ensures ReecrireChaine(ReecrireChaine(b, p, v1).value, p, v2) == ReecrireChaine(b, p, v2)
    decreases |p|, 1
  {
    RewriteAgain(b, p, v1, v2);
    var o := ReecrireChaine(b, p, v1).value;
    RewriteIsRelation(b, p, v1);
    RewriteIsRelation(o, p, v2);
    RewriteIsRelation(b, p, v2);
    var cs, ds := Analyse(b).value, Analyse(o).value;
    var es, fs := Analyse(ReecrireChaine(o, p, v2).value).value, Analyse(ReecrireChaine(b, p, v2).value).value;
    forall i | 0 <= i < |cs|
      ensures es[i] == fs[i]
    {
      FieldOverrides(cs[i], ds[i], es[i], fs[i], p, v1, v2);
    }
    LevelOverrides(cs, ds, es, fs, p, v1, v2);
  }

  lemma PresentAfter(cs: seq<Champ>, ds: seq<Champ>, p: seq<nat>, v: Octets)
    requires p != [] && Reecrits(cs, ds, p, v)
    ensures !Absent(ds, p[0])
  {
  }

  lemma LevelOverrides(cs: seq<Champ>, ds: seq<Champ>, es: seq<Champ>, fs: seq<Champ>, p: seq<nat>, v1: Octets, v2: Octets)
    requires p != [] && Reecrits(cs, ds, p, v1) && Reecrits(ds, es, p, v2) && Reecrits(cs, fs, p, v2)
    requires forall i :: 0 <= i < |cs| ==> es[i] == fs[i]
    ensures es == fs
  {
    PresentAfter(cs, ds, p, v1);
    if Absent(cs, p[0]) {
      AddedThenRewritten(ds[|cs|], es[|cs|], fs[|cs|], p, v1, v2);
    }
  }

  lemma AddedThenRewritten(d: Champ, e: Champ, f: Champ, p: seq<nat>, v1: Octets, v2: Octets)
    requires |p| == 1 && EstAjout(d, p[0], v1) && ChampReecrit(d, e, p, v2) && EstAjout(f, p[0], v2)
    ensures e == f
  {
  }

  // ---- host and port ----

  ghost predicate SansPort(cs: seq<Champ>) {
    forall i :: 0 <= i < |cs| ==> cs[i].num != 9 || cs[i].typ != 0
  }

  /** Same fields in the same order, but every host and every port; those missing come last. */
  ghost predicate AdresseReecrite(cs: seq<Champ>, ds: seq<Champ>, hote: Octets, port: nat) {
    && |ds| >= |cs|
    && (forall i :: 0 <= i < |cs| ==>
          ds[i] == if cs[i].num == 8 && cs[i].typ == 2 then ChampOctets(8, hote)
                   else if cs[i].num == 9 && cs[i].typ == 0 then ChampVarint(9, port)
                   else cs[i])
    && ds[|cs|..] == (if Absent(cs, CHAMP_HOTE) then [ChampOctets(CHAMP_HOTE, hote)] else [])
                   + (if SansPort(cs) then [ChampVarint(CHAMP_PORT, port)] else [])
  }

  lemma PortsOf(b: Octets)
    requires Analyse(b).Some?
    ensures PortePort(b) <==> !SansPort(Analyse(b).value)
  {
    var cs := Analyse(b).value;
    if i :| 0 <= i < |cs| && cs[i].num == 9 && cs[i].typ == 0 {
      assert cs[i] in cs && EstPort(cs[i]);
    }
    if c :| c in cs && EstPort(c) {
      var i :| 0 <= i < |cs| && cs[i] == c;
      assert cs[i].num == 9 && cs[i].typ == 0;
    }
  }

  /** The fields a rewritten GameSession is written from. */
  function QueueHotePort(gs: Octets, hote: Octets, port: nat): seq<Champ> {
    (if Porte(gs, CHAMP_HOTE) then [] else [ChampOctets(CHAMP_HOTE, hote)])
    + (if PortePort(gs) then [] else [ChampVarint(CHAMP_PORT, port)])
  }

  lemma HotePortByFields(gs: Octets, hote: Octets, port: nat)
    requires HotePort(gs, hote, port).Some?
    ensures Analyse(gs).Some? && Change(Analyse(gs).value, RegleHotePort(hote, port)).Some?
    ensures HotePort(gs, hote, port) ==
            Some(EcritTous(Change(Analyse(gs).value, RegleHotePort(hote, port)).value + QueueHotePort(gs, hote, port)))
  {
    var ds := Change(Analyse(gs).value, RegleHotePort(hote, port)).value;
    var h, p := ChampOctets(CHAMP_HOTE, hote), ChampVarint(CHAMP_PORT, port);
    var q := if Porte(gs, CHAMP_HOTE) then [] else [h];
    EcritTousConcat(ds, q);
    EcritTousConcat(ds + q, if PortePort(gs) then [] else [p]);
    Associe(ds, q, if PortePort(gs) then [] else [p]);
    OneField(h);
    OneField(p);
    assert EcritTous(ds) + [] == EcritTous(ds) && EcritTous(ds + q) + [] == EcritTous(ds + q);
  }

  lemma HotePortWritable(c: Champ, hote: Octets, port: nat)
    requires Valide(c) && port < 0x1_0000_0000
    ensures Ecrivable(RegleHotePort(hote, port)(c).value)
    ensures Ecrivable(ChampVarint(CHAMP_PORT, port))
  {
  }

  /** A rewritten GameSession parses; only its hosts and ports change, and it has at least one of each. */
  lemma OnlyAddressChanges(gs: Octets, hote: Octets, port: nat)
    requires port < 0x1_0000_0000 && HotePort(gs, hote, port).Some? && |HotePort(gs, hote, port).value| < DEUX64
    ensures var o := HotePort(gs, hote, port).value;
            && Analyse(gs).Some? && Analyse(o).Some? && o == EcritTous(Analyse(o).value)
            && AdresseReecrite(Analyse(gs).value, Analyse(o).value, hote, port)
            && forall d :: d in Analyse(o).value ==> Valide(d) && |d.brut| < DEUX64
  {
    HotePortByFields(gs, hote, port);
    ReadFieldsAreValid(gs);
    var cs := Analyse(gs).value;
    var ds := Change(cs, RegleHotePort(hote, port)).value;
    forall i | 0 <= i < |ds|
      ensures Ecrivable(ds[i])
    {
      HotePortWritable(cs[i], hote, port);
    }
    forall d | d in QueueHotePort(gs, hote, port)
      ensures Ecrivable(d)
    {
      NewFieldIsWritable(CHAMP_HOTE, hote);
      assert Ecrite(CHAMP_PORT, ChampVarint(CHAMP_PORT, port));
    }
    WrittenMessageParses(ds + QueueHotePort(gs, hote, port));
    Portes(gs, CHAMP_HOTE);
    PortsOf(gs);
    assert (ds + QueueHotePort(gs, hote, port))[|cs|..] == QueueHotePort(gs, hote, port);
  }

  lemma EveryAddressIsNew(cs: seq<Champ>, ds: seq<Champ>, hote: Octets, port: nat)
    requires AdresseReecrite(cs, ds, hote, port)
    ensures forall i :: 0 <= i < |ds| && Vise(ds[i], CHAMP_HOTE) ==> ds[i] == ChampOctets(CHAMP_HOTE, hote)
    ensures forall i :: 0 <= i < |ds| && EstPort(ds[i]) ==> ds[i] == ChampVarint(CHAMP_PORT, port)
  {
  }

  lemma AddressIsThere(cs: seq<Champ>, ds: seq<Champ>, hote: Octets, port: nat)
    requires AdresseReecrite(cs, ds, hote, port)
    ensures !Absent(ds, CHAMP_HOTE) && !SansPort(ds)
  {
    if Absent(cs, CHAMP_HOTE) {
      assert ds[|cs|] == ds[|cs|..][0];
    } else {
      var i :| 0 <= i < |cs| && cs[i].num == CHAMP_HOTE && cs[i].typ == 2;
      assert ds[i] == ChampOctets(8, hote);
    }
    if SansPort(cs) {
      assert ds[|ds| - 1] == ds[|cs|..][|ds| - 1 - |cs|];
    } else {
      var i :| 0 <= i < |cs| && cs[i].num == 9 && cs[i].typ == 0;
      assert ds[i] == ChampVarint(9, port);
    }
  }

  /** Host and port as a client reads them: at least one of each, and no other than these. */
  ghost predicate AdresseLue(ds: seq<Champ>, hote: Octets, port: nat) {
    && !Absent(ds, CHAMP_HOTE) && (forall i :: 0 <= i < |ds| && Vise(ds[i], CHAMP_HOTE) ==> Contenu(ds[i]) == hote)
    && !SansPort(ds) && (forall i :: 0 <= i < |ds| && EstPort(ds[i]) ==> PortLu(ds[i]) == Some(port))
  }

  function PortLu(c: Champ): Option<nat> {
    match ConsumeVarint(c.brut, 0)
    case None => None
    case Some(l) => Some(l.v)
  }

  lemma HostFits(ds: seq<Champ>, hote: Octets)
    requires !Absent(ds, CHAMP_HOTE) && (forall d :: d in ds ==> |d.brut| < DEUX64)
    requires forall i :: 0 <= i < |ds| && Vise(ds[i], CHAMP_HOTE) ==> ds[i] == ChampOctets(CHAMP_HOTE, hote)
    ensures |hote| < DEUX64
  {
  }

  /** Reading a rewritten GameSession gives the new host and the new port, and no other. */
  lemma AddressReadsBack(gs: Octets, hote: Octets, port: nat)
    requires port < 0x1_0000_0000 && HotePort(gs, hote, port).Some? && |HotePort(gs, hote, port).value| < DEUX64
    ensures var r := Analyse(HotePort(gs, hote, port).value);
            r.Some? && AdresseLue(r.value, hote, port)
  {
    OnlyAddressChanges(gs, hote, port);
    var cs, ds := Analyse(gs).value, Analyse(HotePort(gs, hote, port).value).value;
    EveryAddressIsNew(cs, ds, hote, port);
    AddressIsThere(cs, ds, hote, port);
    HostFits(ds, hote);
    ContentBack(CHAMP_HOTE, hote);
    VarintFieldBack(CHAMP_PORT, port);
  }

  /** One field of the answer: a GameSession gets the new address, anything else is kept. */
  ghost predicate SessionReecrite(c: Champ, d: Champ, hote: Octets, port: nat) {
    if c.num == 6 && c.typ == 2 then
      d.num == 6 && d.typ == 2 && HotePort(Contenu(c), hote, port) == Some(Contenu(d)) && |Contenu(d)| < DEUX64
    else d == c
  }

  function RegleSession(hote: Octets, port: nat): Regle {
    RegleChamp(CHAMP_GAME_SESSION, MuterAdresse(hote, port))
  }

  lemma SessionFieldWritable(c: Champ, hote: Octets, port: nat)
    requires Valide(c) && RegleSession(hote, port)(c).Some?
    ensures Ecrivable(RegleSession(hote, port)(c).value)
  {
    if Vise(c, CHAMP_GAME_SESSION) {
      NewFieldIsWritable(CHAMP_GAME_SESSION, HotePort(Contenu(c), hote, port).value);
    }
  }

  lemma SessionFieldRewritten(c: Champ, hote: Octets, port: nat)
    requires RegleSession(hote, port)(c).Some? && |RegleSession(hote, port)(c).value.brut| < DEUX64
    ensures SessionReecrite(c, RegleSession(hote, port)(c).value, hote, port)
  {
    if Vise(c, CHAMP_GAME_SESSION) {
      ContentBack(CHAMP_GAME_SESSION, HotePort(Contenu(c), hote, port).value);
    }
  }

  /** The rewritten answer parses; its other fields are what they were, and it has a GameSession at the new address. */
  lemma SessionAddressRewritten(msg: Octets, hote: Octets, port: nat)
    requires ReecrireAdresseSession(msg, hote, port).Some? && |ReecrireAdresseSession(msg, hote, port).value| < DEUX64
    ensures Analyse(msg).Some? && Analyse(ReecrireAdresseSession(msg, hote, port).value).Some?
    ensures var cs, ds := Analyse(msg).value, Analyse(ReecrireAdresseSession(msg, hote, port).value).value;
            && |ds| == |cs| && !Absent(ds, CHAMP_GAME_SESSION)
            && forall i :: 0 <= i < |cs| ==> SessionReecrite(cs[i], ds[i], hote, port)
  {
    var g := RegleSession(hote, port);
    var cs := Analyse(msg).value;
    var ds := Change(cs, g).value;
    ReadFieldsAreValid(msg);
    forall i | 0 <= i < |cs|
      ensures Ecrivable(ds[i])
    {
      SessionFieldWritable(cs[i], hote, port);
    }
    WrittenMessageParses(ds);
    forall i | 0 <= i < |cs|
      ensures SessionReecrite(cs[i], ds[i], hote, port)
    {
      assert g(cs[i]) == Some(ds[i]) && ds[i] in ds;
      SessionFieldRewritten(cs[i], hote, port);
    }
    Portes(msg, CHAMP_GAME_SESSION);
    var k :| 0 <= k < |cs| && Vise(cs[k], CHAMP_GAME_SESSION);
    assert Vise(ds[k], CHAMP_GAME_SESSION);
  }
}
