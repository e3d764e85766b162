/**
 Messages on the wire: a run of fields, each a tag and a raw value (protowire's ConsumeTag,
 ConsumeFieldValue, AppendTag). Groups (wire types 3 and 4) are refused here.
 */
module ProtoMessage {
  import opened Wrappers
  import opened Protobuf

  const NUM_MAX := 0x7fff_ffff

  const VARINT := 0
  const FIXED64 := 1
  const BYTES := 2
  const FIXED32 := 5

  datatype Etiquette = Etiquette(num: nat, typ: nat, n: nat)

  function ConsumeTag(b: Octets): (r: Option<Etiquette>)
    ensures r.Some? ==> 1 <= r.value.n <= |b| && 1 <= r.value.num <= NUM_MAX && r.value.typ < 8
  {
    match ConsumeVarint(b, 0)
    case None => None
    case Some(l) => if 1 <= l.v / 8 <= NUM_MAX then Some(Etiquette(l.v / 8, l.v % 8, l.n)) else None
  }

  /** Where the content of a length-delimited value lies. */
  datatype Bout = Bout(debut: nat, fin: nat)

  function ConsumeBytes(b: Octets): (r: Option<Bout>)
    ensures r.Some? ==> 1 <= r.value.debut <= r.value.fin <= |b|
  {
    match ConsumeVarint(b, 0)
    case None => None
    case Some(l) => if l.n + l.v <= |b| then Some(Bout(l.n, l.n + l.v)) else None
  }

  /** How many bytes the value takes. */
  function ConsumeFieldValue(typ: nat, b: Octets): (r: Option<nat>)
    ensures r.Some? ==> r.value <= |b|
  {
    if typ == VARINT then (match ConsumeVarint(b, 0) case None => None case Some(l) => Some(l.n))
    else if typ == FIXED64 then (if |b| >= 8 then Some(8) else None)
    else if typ == BYTES then (match ConsumeBytes(b) case None => None case Some(x) => Some(x.fin))
    else if typ == FIXED32 then (if |b| >= 4 then Some(4) else None)
    else None
  }

  lemma ValueStays(typ: nat, b: Octets, c: Octets)
    requires ConsumeFieldValue(typ, b).Some?
    requires var n := ConsumeFieldValue(typ, b).value; n <= |c| && c[..n] == b[..n]
    ensures ConsumeFieldValue(typ, c) == ConsumeFieldValue(typ, b)
    ensures typ == BYTES ==> ConsumeBytes(c) == ConsumeBytes(b)
  {
    if typ == VARINT || typ == BYTES {
      var n, m := ConsumeFieldValue(typ, b).value, ConsumeVarint(b, 0).value.n;
      assert c[..m] == c[..n][..m] == b[..n][..m] == b[..m];
      VarintStays(b, c, 0);
    }
  }

  /** A field as the rewriters copy it: its value keeps its raw bytes. */
  datatype Champ = Champ(num: nat, typ: nat, brut: Octets)

  ghost predicate Valide(c: Champ) {
    1 <= c.num <= NUM_MAX && c.typ < 8 && ConsumeFieldValue(c.typ, c.brut) == Some(|c.brut|)
  }

  /** What the four wire types are made of: a varint, eight bytes, a length and as many bytes, four bytes. */
  lemma ValidFieldIff(c: Champ)
    requires 1 <= c.num <= NUM_MAX && c.typ < 8
    ensures c.typ == 0 ==> (Valide(c) <==> EstVarint(c.brut, |c.brut|, 0))
    ensures c.typ == 1 ==> (Valide(c) <==> |c.brut| == 8)
    ensures c.typ == 5 ==> (Valide(c) <==> |c.brut| == 4)
    ensures c.typ == 2 ==> (Valide(c) <==> exists n: nat :: EstVarint(c.brut, n, 0) && n + Valeur128(c.brut[..n]) == |c.brut|)
    ensures c.typ !in {0, 1, 2, 5} ==> !Valide(c)
  {
    forall n: nat
      ensures ConsumeVarint(c.brut, 0).Some? && ConsumeVarint(c.brut, 0).value.n == n <==> EstVarint(c.brut, n, 0)
      ensures EstVarint(c.brut, n, 0) ==> ConsumeVarint(c.brut, 0) == Some(Lu(Valeur128(c.brut[..n]), n))
    {
      ReadIff(c.brut, 0, n);
    }
    if c.typ == 2 && ConsumeVarint(c.brut, 0).Some? {
      var n := ConsumeVarint(c.brut, 0).value.n;
      assert EstVarint(c.brut, n, 0);
    }
  }

  datatype Tete = Tete(champ: Champ, suite: Octets)

  function LireChamp(b: Octets): (r: Option<Tete>)
    ensures r.Some? ==> |r.value.suite| < |b|
  {
    match ConsumeTag(b)
    case None => None
    case Some(e) =>
      match ConsumeFieldValue(e.typ, b[e.n..])
      case None => None
      case Some(m) => Some(Tete(Champ(e.num, e.typ, b[e.n..][..m]), b[e.n..][m..]))
  }

  function Analyse(b: Octets): Option<seq<Champ>>
    decreases |b|
  {
    if b == [] then Some([])
    else
      match LireChamp(b)
      case None => None
      case Some(t) =>
        match Analyse(t.suite)
        case None => None
        case Some(cs) => Some([t.champ] + cs)
  }

  function EcritChamp(c: Champ): Octets {
    Varint(c.num * 8 + c.typ) + c.brut
  }

  function EcritTous(cs: seq<Champ>): Octets {
    if cs == [] then [] else EcritChamp(cs[0]) + EcritTous(cs[1..])
  }

  lemma TagBack(num: nat, typ: nat, suite: Octets)
    requires 1 <= num <= NUM_MAX && typ < 8
    ensures ConsumeTag(Varint(num * 8 + typ) + suite) == Some(Etiquette(num, typ, |Varint(num * 8 + typ)|))
  {
    VarintRoundTrip(num * 8 + typ, suite);
  }

  lemma FieldBack(c: Champ, suite: Octets)
    requires Valide(c)
    ensures LireChamp(EcritChamp(c) + suite) == Some(Tete(c, suite))
  {
    var e := Varint(c.num * 8 + c.typ);
    Associe(e, c.brut, suite);
    TagBack(c.num, c.typ, c.brut + suite);
    ValueStays(c.typ, c.brut, c.brut + suite);
    assert (e + (c.brut + suite))[|e|..] == c.brut + suite;
  }

  /** A written run of fields is read back as that run. */
  lemma {:induction false} MessageRoundTrip(cs: seq<Champ>)
    requires forall c :: c in cs ==> Valide(c)
    ensures Analyse(EcritTous(cs)) == Some(cs)
  {
    if cs != [] {
      FieldBack(cs[0], EcritTous(cs[1..]));
      MessageRoundTrip(cs[1..]);
      assert [cs[0]] + cs[1..] == cs;
    }
  }

  lemma ReadFieldIsValid(b: Octets)
    requires LireChamp(b).Some?
    ensures Valide(LireChamp(b).value.champ)
  {
    var e := ConsumeTag(b).value;
    var reste := b[e.n..];
    var m := ConsumeFieldValue(e.typ, reste).value;
    ValueStays(e.typ, reste, reste[..m]);
  }

  lemma {:induction false} ReadFieldsAreValid(b: Octets)
    requires Analyse(b).Some?
    ensures forall c :: c in Analyse(b).value ==> Valide(c)
    decreases |b|
  {
    if b != [] {
      ReadFieldIsValid(b);
      ReadFieldsAreValid(LireChamp(b).value.suite);
    }
  }

  // ---- length-delimited fields ----

  function ChampOctets(num: nat, x: Octets): Champ {
    Champ(num, BYTES, Varint(|x|) + x)
  }

  /** What a length-delimited field carries. */
  function Contenu(c: Champ): Octets {
    match ConsumeBytes(c.brut)
    case None => []
    case Some(x) => c.brut[x.debut..x.fin]
  }

  lemma ContentBack(num: nat, x: Octets)
    requires 1 <= num <= NUM_MAX && |x| < DEUX64
    ensures Valide(ChampOctets(num, x)) && Contenu(ChampOctets(num, x)) == x
  {
    VarintRoundTrip(|x|, x);
  }

  /** Two messages of the encoding specification: field 1 holding 150, and field 2 holding a text of seven letters. */
  lemma SpecificationExamples(texte: Octets)
    requires texte == [0x74, 0x65, 0x73, 0x74, 0x69, 0x6e, 0x67]
    ensures EcritChamp(ChampVarint(1, 150)) == [0x08, 0x96, 0x01]
    ensures EcritChamp(ChampOctets(2, texte)) == [0x12, 0x07] + texte
  {
    OneHundredFifty();
    assert Varint(8) == [8] && Varint(18) == [18] && Varint(7) == [7];
    assert [0x12] + ([0x07] + texte) == [0x12, 0x07] + texte;
  }

  function ChampVarint(num: nat, v: nat): Champ {
    Champ(num, VARINT, Varint(v))
  }

  lemma VarintFieldBack(num: nat, v: nat)
    requires 1 <= num <= NUM_MAX && v < DEUX64
    ensures Valide(ChampVarint(num, v)) && ConsumeVarint(ChampVarint(num, v).brut, 0) == Some(Lu(v, |Varint(v)|))
  {
    VarintRoundTrip(v, []);
    assert Varint(v) + [] == Varint(v);
  }

  lemma {:induction false} FieldFitsInMessage(cs: seq<Champ>, c: Champ)
    requires c in cs
    ensures |c.brut| < |EcritTous(cs)|
  {
    if c != cs[0] {
      FieldFitsInMessage(cs[1..], c);
    }
  }

  lemma {:induction false} EcritTousConcat(cs: seq<Champ>, ds: seq<Champ>)
    ensures EcritTous(cs + ds) == EcritTous(cs) + EcritTous(ds)
  {
    if cs == [] {
      assert cs + ds == ds;
    } else {
      EcritTousConcat(cs[1..], ds);
      assert (cs + ds)[1..] == cs[1..] + ds;
      Associe(EcritChamp(cs[0]), EcritTous(cs[1..]), EcritTous(ds));
    }
  }

  /** Two messages of valid fields are the same bytes only if they are the same fields. */
  lemma SameBytesSameFields(cs: seq<Champ>, ds: seq<Champ>)
    requires (forall c :: c in cs ==> Valide(c)) && (forall d :: d in ds ==> Valide(d))
    ensures EcritTous(cs) == EcritTous(ds) <==> cs == ds
  {
    MessageRoundTrip(cs);
    MessageRoundTrip(ds);
  }
}
