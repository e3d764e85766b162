/**
 The HTTP/2 frame splitter of a traced connection (frames_diag.go), against the one-pass reader of recorded
 streams (cmd/dumpflux/main.go). Frame layout: section 4.1 of RFC 9113. Connection preface: section 3.4.
 */
module Frames {
  import opened Wrappers
  import opened Framing

  const ENTETE := 9
  const TAILLE_MAX := 0x100_0000
  const FLUX_MAX := 0x8000_0000

  function BE3(x: int, y: int, z: int): int {
    x * 0x1_0000 + y * 0x100 + z
  }

  function BE4(w: int, x: int, y: int, z: int): int {
    w * 0x100_0000 + x * 0x1_0000 + y * 0x100 + z
  }

  /** The 24-bit length of a frame header. */
  function Taille(h: Octets): (n: nat)
    ensures n < TAILLE_MAX
  {
    if |h| < 3 then 0 else BE3(h[0], h[1], h[2])
  }

  /** The stream identifier of a frame header: 31 bits, the reserved bit ignored. */
  function Flux(h: Octets): (id: nat)
    requires |h| == ENTETE
    ensures id < FLUX_MAX
  {
    BE4(h[5], h[6], h[7], h[8]) % FLUX_MAX
  }

  function H2(): Format {
    Format(ENTETE, Taille)
  }

  datatype Trame = Trame(typ: Octet, flags: Octet, id: nat, corps: Octets)

  function TrameDe(x: Bloc): Trame
    requires |x.entete| == ENTETE
  {
    Trame(x.entete[3], x.entete[4], Flux(x.entete), x.corps)
  }

  function TramesDe(xs: seq<Bloc>): (ts: seq<Trame>)
    requires forall x :: x in xs ==> |x.entete| == ENTETE
    ensures |ts| == |xs|
  {
    seq(|xs|, i requires 0 <= i < |xs| => TrameDe(xs[i]))
  }

  lemma {:induction false} HeadersOfNine(b: Octets, f: Format)
    requires f.n == ENTETE
    ensures forall x :: x in Decoupe(b, f).blocs ==> |x.entete| == ENTETE
    decreases |b|
  {
    if Complet(b, f) {
      HeadersOfNine(Suite(b, f), f);
    }
  }

  /** What is noted of a stream: its complete frames. */
  function Notees(b: Octets): seq<Trame> {
    HeadersOfNine(b, H2());
    TramesDe(Decoupe(b, H2()).blocs)
  }

  function Reste(b: Octets): Octets {
    Decoupe(b, H2()).reste
  }

  /** However a stream is cut in two, the frames noted and the remainder are those of one pass over it. */
  lemma CutStream(a: Octets, b: Octets)
    ensures Notees(a + b) == Notees(a) + Notees(Reste(a) + b)
    ensures Reste(a + b) == Reste(Reste(a) + b)
  {
    CutAnywhere(a, b, H2());
  }

  /** What waits for its end is never longer than one frame of the largest size, short of a byte. */
  lemma RemainderIsBounded(b: Octets)
    ensures |Reste(b)| < ENTETE + TAILLE_MAX - 1
  {
  }

  // ---- writing frames ----

  function Octets3(n: nat): Octets
    requires n < TAILLE_MAX
  {
    [n / 0x1_0000, n / 0x100 % 0x100, n % 0x100]
  }

  function Octets4(n: nat): Octets
    requires n < 0x1_0000_0000
  {
    [n / 0x100_0000, n / 0x1_0000 % 0x100, n / 0x100 % 0x100, n % 0x100]
  }

  lemma BE3Back(n: nat)
    requires n < TAILLE_MAX
    ensures BE3(n / 0x1_0000, n / 0x100 % 0x100, n % 0x100) == n
  {
  }

  lemma BE4Back(n: nat)
    requires n < 0x1_0000_0000
    ensures BE4(n / 0x100_0000, n / 0x1_0000 % 0x100, n / 0x100 % 0x100, n % 0x100) == n
  {
  }

  lemma BE3Digits(x: int, y: int, z: int)
    requires 0 <= x < 256 && 0 <= y < 256 && 0 <= z < 256
    ensures var n := BE3(x, y, z);
            0 <= n < TAILLE_MAX && n / 0x1_0000 == x && n / 0x100 % 0x100 == y && n % 0x100 == z
  {
  }

  lemma BE4Digits(w: int, x: int, y: int, z: int)
    requires 0 <= w < 256 && 0 <= x < 256 && 0 <= y < 256 && 0 <= z < 256
    ensures var n := BE4(w, x, y, z);
            && 0 <= n < 0x1_0000_0000 && n / 0x100_0000 == w && n / 0x1_0000 % 0x100 == x
            && n / 0x100 % 0x100 == y && n % 0x100 == z
  {
    var n := BE4(w, x, y, z);
    assert n / 0x1_0000 == w * 0x100 + x;
    assert n / 0x100 == (w * 0x100 + x) * 0x100 + y;
  }

  ghost predicate Ecrivable(t: Trame) {
    |t.corps| < TAILLE_MAX && t.id < FLUX_MAX
  }

  function EnteteDe(t: Trame): Octets
    requires Ecrivable(t)
  {
    Octets3(|t.corps|) + [t.typ, t.flags] + Octets4(t.id)
  }

  function BlocDe(t: Trame): Bloc
    requires Ecrivable(t)
  {
    Bloc(EnteteDe(t), t.corps)
  }

  lemma FrameBack(t: Trame)
    requires Ecrivable(t)
    ensures BienForme(BlocDe(t), H2()) && TrameDe(BlocDe(t)) == t
  {
    BE3Back(|t.corps|);
    BE4Back(t.id);
  }

  function BlocsDe(ts: seq<Trame>): (xs: seq<Bloc>)
    requires forall t :: t in ts ==> Ecrivable(t)
    ensures |xs| == |ts| && forall i :: 0 <= i < |ts| ==> xs[i] == BlocDe(ts[i])
  {
    seq(|ts|, i requires 0 <= i < |ts| => BlocDe(ts[i]))
  }

  function Serialise(ts: seq<Trame>): Octets
    requires forall t :: t in ts ==> Ecrivable(t)
  {
    Colle(BlocsDe(ts))
  }

  /** Reading back a written list of frames, followed by the beginning of another. */
  lemma FramesRoundTrip(ts: seq<Trame>, reste: Octets)
    requires (forall t :: t in ts ==> Ecrivable(t)) && !Complet(reste, H2())
    ensures Notees(Serialise(ts) + reste) == ts && Reste(Serialise(ts) + reste) == reste
  {
    forall i | 0 <= i < |ts|
      ensures BienForme(BlocsDe(ts)[i], H2()) && TrameDe(BlocsDe(ts)[i]) == ts[i]
    {
      FrameBack(ts[i]);
    }
    BlocksRoundTrip(BlocsDe(ts), reste, H2());
  }

  lemma LengthBytesBack(h: Octets)
    requires |h| == ENTETE
    ensures Octets3(Taille(h)) == h[..3]
  {
    BE3Digits(h[0], h[1], h[2]);
  }

  lemma ReservedBitDropped(w: int, x: int, y: int, z: int)
    requires 0 <= w < 256 && 0 <= x < 256 && 0 <= y < 256 && 0 <= z < 256
    ensures BE4(w, x, y, z) % FLUX_MAX == w % 128 * 16777216 + x * 65536 + y * 256 + z
  {
    assert BE4(w, x, y, z) == (w / 128) * FLUX_MAX + BE4(w % 128, x, y, z);
  }

  lemma StreamBytesBack(h: Octets)
    requires |h| == ENTETE
    ensures Octets4(Flux(h)) == [h[5] % 0x80] + h[6..]
  {
    ReservedBitDropped(h[5], h[6], h[7], h[8]);
    BE4Digits(h[5] % 0x80, h[6], h[7], h[8]);
    FourBytes(Flux(h), h[5] % 0x80, h[6], h[7], h[8]);
    assert h[6..] == [h[6], h[7], h[8]];
  }

  lemma FourBytes(n: nat, w: Octet, x: Octet, y: Octet, z: Octet)
    requires n < 0x1_0000_0000 && n / 0x100_0000 == w && n / 0x1_0000 % 0x100 == x && n / 0x100 % 0x100 == y && n % 0x100 == z
    ensures Octets4(n) == [w, x, y, z]
  {
  }


  lemma HeaderRewritten(h: Octets, corps: Octets)
    requires |h| == ENTETE && Taille(h) == |corps|
    ensures var t := TrameDe(Bloc(h, corps));
            Ecrivable(t) && (EnteteDe(t) == h <==> h[5] < 0x80)
  {
    LengthBytesBack(h);
    StreamBytesBack(h);
    var e := h[..3] + [h[3], h[4]] + ([h[5] % 0x80] + h[6..]);
    assert EnteteDe(TrameDe(Bloc(h, corps))) == e;
    assert e[5] == h[5] % 0x80;
    if h[5] < 0x80 {
      assert e == h;
    }
  }

  /** Writing the noted frames again gives the stream back exactly when its senders left every reserved bit at zero. */
  lemma RewriteIsTheStream(b: Octets)
    ensures forall t :: t in Notees(b) ==> Ecrivable(t)
    ensures Serialise(Notees(b)) + Reste(b) == b <==>
            forall i :: 0 <= i < |Decoupe(b, H2()).blocs| ==> BitReserve(Decoupe(b, H2()).blocs[i])
  {
    var xs := Decoupe(b, H2()).blocs;
    StreamConserved(b, H2());
    forall i | 0 <= i < |xs|
      ensures Ecrivable(Notees(b)[i]) && (BlocDe(Notees(b)[i]) == xs[i] <==> BitReserve(xs[i]))
    {
      assert BienForme(xs[i], H2());
      HeaderRewritten(xs[i].entete, xs[i].corps);
    }
    var ys := BlocsDe(Notees(b));
    if Colle(ys) + Reste(b) == b {
      forall i | 0 <= i < |ys|
        ensures BienForme(ys[i], H2())
      {
        FrameBack(Notees(b)[i]);
      }
      assert BienFormes(ys, H2());
      BlocksRoundTrip(ys, Reste(b), H2());
    }
    if forall i :: 0 <= i < |xs| ==> BitReserve(xs[i]) {
      assert ys == xs;
    }
  }

  /** The reserved bit of section 4.1 is zero. */
  predicate BitReserve(x: Bloc) {
    |x.entete| == ENTETE && x.entete[5] < 0x80
  }

  /**
   One frame on the wire, as section 4.1 lays it out: three bytes of length, the most significant first, one of type,
   one of flags, and four of stream identifier, whose highest bit is not part of it.
   */
  lemma OneFrameOnTheWire(h: Octets, corps: Octets)
    requires |h| == 9 && |corps| == (h[0] as int) * 65536 + (h[1] as int) * 256 + (h[2] as int)
    ensures var id := (h[5] as int) % 128 * 16777216 + (h[6] as int) * 65536 + (h[7] as int) * 256 + (h[8] as int);
            Notees(h + corps) == [Trame(h[3], h[4], id, corps)] && Reste(h + corps) == []
  {
    var b := h + corps;
    assert Taille(h) == |corps|;
    assert b[..9] == h && b[9..] == corps;
    OneMoreNoted(b);
    assert b[9 + Taille(h)..] == [] && b[9..9 + Taille(h)] == corps;
    assert !Complet([], H2()) && Notees([]) == [] && Reste([]) == [];
    ReservedBitDropped(h[5], h[6], h[7], h[8]);
  }

  // ---- the traced connection ----

  function PREFACE(): Octets {
    [0x50, 0x52, 0x49, 0x20, 0x2a, 0x20, 0x48, 0x54, 0x54, 0x50, 0x2f, 0x32,
     0x2e, 0x30, 0x0d, 0x0a, 0x0d, 0x0a, 0x53, 0x4d, 0x0d, 0x0a, 0x0d, 0x0a]
  }

  /** The text a client sends first. */
  lemma PrefaceText(texte: string)
    requires texte == "PRI * HTTP/2.0\r\n\r\nSM\r\n\r\n"
    ensures |PREFACE()| == |texte| == 24 && forall i :: 0 <= i < 24 ==> PREFACE()[i] == texte[i] as int
  {
  }

  const PREFACE_LEN := 24

  /** What follows the first 24 bytes. */
  function ApresPreface(b: Octets): Octets {
    if |b| <= PREFACE_LEN then [] else b[PREFACE_LEN..]
  }

  lemma PastThePreface(b: Octets, lu: Octets)
    ensures var restant := if |b| < PREFACE_LEN then PREFACE_LEN - |b| else 0;
            var saute := if restant < |lu| then restant else |lu|;
            && ApresPreface(b + lu) == ApresPreface(b) + lu[saute..]
            && (saute == |lu| ==> ApresPreface(b + lu) == ApresPreface(b))
  {
  }

  lemma OneMoreNoted(flux: Octets)
    requires |flux| >= ENTETE && ENTETE + Taille(flux[..ENTETE]) <= |flux|
    ensures var fin := ENTETE + Taille(flux[..ENTETE]);
            && Notees(flux) == [Trame(flux[3], flux[4], Flux(flux[..ENTETE]), flux[ENTETE..fin])] + Notees(flux[fin..])
            && Reste(flux) == Reste(flux[fin..])
  {
    assert Complet(flux, H2());
    HeadersOfNine(flux, H2());
  }

  method Decouper(reste: Octets, buf: Octets) returns (notees: seq<Trame>, r: Octets)
    ensures notees == Notees(reste + buf) && r == Reste(reste + buf)
  {
    var flux := reste + buf;
    notees := [];
    while |flux| >= ENTETE
      invariant notees + Notees(flux) == Notees(reste + buf) && Reste(flux) == Reste(reste + buf)
      decreases |flux|
    {
      var taille := Taille(flux[..ENTETE]);
      if ENTETE + taille > |flux| {
        break;
      }
      OneMoreNoted(flux);
      var t := Trame(flux[3], flux[4], Flux(flux[..ENTETE]), flux[ENTETE..ENTETE + taille]);
      Associe(notees, [t], Notees(flux[ENTETE + taille..]));
      notees := notees + [t];
      flux := flux[ENTETE + taille..];
    }
    assert !Complet(flux, H2());
    RemainderIsBounded(reste + buf);
    if |flux| > TAILLE_MAX + ENTETE {
      assert false;
    }
    r := flux;
  }

  /** What one more read adds to what is noted, and leaves waiting. */
  lemma OneMoreRead(flux: Octets, lu: Octets)
    ensures var restant := if |flux| < PREFACE_LEN then PREFACE_LEN - |flux| else 0;
            var vu := lu[if restant < |lu| then restant else |lu|..];
            && Notees(ApresPreface(flux + lu)) == Notees(ApresPreface(flux)) + Notees(Reste(ApresPreface(flux)) + vu)
            && Reste(ApresPreface(flux + lu)) == Reste(Reste(ApresPreface(flux)) + vu)
            && (vu == [] ==> ApresPreface(flux + lu) == ApresPreface(flux))
  {
    var restant := if |flux| < PREFACE_LEN then PREFACE_LEN - |flux| else 0;
    PastThePreface(flux, lu);
    CutStream(ApresPreface(flux), lu[if restant < |lu| then restant else |lu|..]);
  }

  class ConnTracee {
    var resteRecu: Octets
    var resteEmis: Octets
    var prefaceRestant: nat
    var recues: seq<Trame>         // what was noted, in each direction
    var emises: seq<Trame>
    ghost var fluxRecu: Octets     // every byte that went through
    ghost var fluxEmis: Octets

    ghost predicate Valid()
      reads this
    {
      && prefaceRestant == (if |fluxRecu| < PREFACE_LEN then PREFACE_LEN - |fluxRecu| else 0)
      && recues == Notees(ApresPreface(fluxRecu)) && resteRecu == Reste(ApresPreface(fluxRecu))
      && emises == Notees(fluxEmis) && resteEmis == Reste(fluxEmis)
    }

    constructor ()
      ensures Valid() && fluxRecu == [] && fluxEmis == []
    {
      resteRecu, resteEmis, recues, emises := [], [], [], [];
      prefaceRestant := PREFACE_LEN;
      fluxRecu, fluxEmis := [], [];
    }

    /**
     However the network cuts the stream, the frames noted are those of one pass over all of it, and so is
     what waits.
     */
    method Read(lu: Octets)
      requires Valid()
      modifies this
      ensures Valid() && fluxRecu == old(fluxRecu) + lu && fluxEmis == old(fluxEmis)
    {
      if |lu| == 0 {
        assert fluxRecu + lu == fluxRecu;
        return;
      }
      var vu := lu;
      if prefaceRestant > 0 {
        var saute := if prefaceRestant < |vu| then prefaceRestant else |vu|;
        prefaceRestant := prefaceRestant - saute;
        vu := vu[saute..];
      }
      OneMoreRead(fluxRecu, lu);
      fluxRecu := fluxRecu + lu;
      if |vu| > 0 {
        var notees, r := Decouper(resteRecu, vu);
        recues, resteRecu := recues + notees, r;
      }
    }

    method Write(ecrit: Octets)
      requires Valid()
      modifies this
      ensures Valid() && fluxEmis == old(fluxEmis) + ecrit && fluxRecu == old(fluxRecu)
    {
      if |ecrit| > 0 {
        CutStream(fluxEmis, ecrit);
        var notees, r := Decouper(resteEmis, ecrit);
        emises, resteEmis := emises + notees, r;
      }
      fluxEmis := fluxEmis + ecrit;
      assert |ecrit| == 0 ==> old(fluxEmis) + ecrit == old(fluxEmis);
    }
  }

  // ---- the one-pass reader of recordings ----

  /** A frame as the recording reader keeps it: without its flags. */
  datatype TrameLue = TrameLue(typ: Octet, flux: nat, corps: Octets)

  function SansDrapeaux(ts: seq<Trame>): seq<TrameLue> {
    seq(|ts|, i requires 0 <= i < |ts| => TrameLue(ts[i].typ, ts[i].id, ts[i].corps))
  }

  /** What a recording holds once a leading preface, if there is one, is skipped. */
  function Enregistrement(b: Octets): Octets {
    if PREFACE() <= b then b[PREFACE_LEN..] else b
  }

  lemma NotedAt(b: Octets, i: nat)
    requires i + ENTETE <= |b|
    ensures var h := b[i..i + ENTETE];
            var fin := i + ENTETE + Taille(h);
            Notees(b[i..]) == if fin > |b| then [] else [TrameDe(Bloc(h, b[i + ENTETE..fin]))] + Notees(b[fin..])
  {
    BlockAt(b, i, H2());
    var fin := i + ENTETE + Taille(b[i..i + ENTETE]);
    if fin <= |b| {
      HeadersOfNine(b[fin..], H2());
      FirstFrame(Bloc(b[i..i + ENTETE], b[i + ENTETE..fin]), Decoupe(b[fin..], H2()).blocs);
    }
  }

  lemma FirstFrame(x: Bloc, xs: seq<Bloc>)
    requires |x.entete| == ENTETE && forall y :: y in xs ==> |y.entete| == ENTETE
    ensures TramesDe([x] + xs) == [TrameDe(x)] + TramesDe(xs)
  {
    var tous := [x] + xs;
    var ts := TramesDe(tous);
    assert ts[0] == TrameDe(x);
    forall i | 0 <= i < |xs|
      ensures ts[i + 1] == TramesDe(xs)[i]
    {
      assert tous[i + 1] == xs[i];
    }
  }

  lemma FirstWithoutFlags(t: Trame, ts: seq<Trame>)
    ensures SansDrapeaux([t] + ts) == [TrameLue(t.typ, t.id, t.corps)] + SansDrapeaux(ts)
  {
  }

  /** The frame at index i, if it is complete. */
  lemma FrameAt(b: Octets, i: nat)
    requires i + ENTETE <= |b|
    ensures var h := b[i..i + ENTETE];
            var fin := i + ENTETE + Taille(h);
            if fin > |b| then SansDrapeaux(Notees(b[i..])) == []
            else SansDrapeaux(Notees(b[i..])) == [TrameLue(h[3], Flux(h), b[i + ENTETE..fin])] + SansDrapeaux(Notees(b[fin..]))
  {
    NotedAt(b, i);
    var h := b[i..i + ENTETE];
    var fin := i + ENTETE + Taille(h);
    if fin <= |b| {
      FirstWithoutFlags(TrameDe(Bloc(h, b[i + ENTETE..fin])), Notees(b[fin..]));
    }
  }

  lemma NoFrameAt(b: Octets, i: nat)
    requires i <= |b|
    ensures i + ENTETE > |b| ==> Notees(b[i..]) == []
  {
  }

  /** Where the frames of a recording start. */
  method PremiereTrame(b: Octets) returns (i: nat)
    ensures i <= |b| && b[i..] == Enregistrement(b)
  {
    i := 0;
    if |b| >= |PREFACE()| && b[..|PREFACE()|] == PREFACE() {
      i := |PREFACE()|;
    }
  }

  /** The frames read so far, and those from i on, are all of them. */
  ghost predicate Lues(b: Octets, i: nat, out: seq<TrameLue>, tout: seq<TrameLue>) {
    i <= |b| && out + SansDrapeaux(Notees(b[i..])) == tout
  }

  lemma OneMoreFrameRead(b: Octets, i: nat, out: seq<TrameLue>, tout: seq<TrameLue>)
    requires i + ENTETE <= |b| && Lues(b, i, out, tout)
    ensures var h := b[i..i + ENTETE];
            var fin := i + ENTETE + Taille(h);
            if fin > |b| then out == tout
            else Lues(b, fin, out + [TrameLue(h[3], Flux(h), b[i + ENTETE..fin])], tout)
  {
    FrameAt(b, i);
    var h := b[i..i + ENTETE];
    var fin := i + ENTETE + Taille(h);
    if fin <= |b| {
      Associe(out, [TrameLue(h[3], Flux(h), b[i + ENTETE..fin])], SansDrapeaux(Notees(b[fin..])));
    }
  }

  method Trames(b: Octets) returns (out: seq<TrameLue>)
    ensures out == SansDrapeaux(Notees(Enregistrement(b)))
  {
    var i := PremiereTrame(b);
    out := TramesDepuis(b, i);
  }

  method TramesDepuis(b: Octets, debut: nat) returns (out: seq<TrameLue>)
    requires debut <= |b|
    ensures out == SansDrapeaux(Notees(b[debut..]))
  {
    var i := debut;
    ghost var tout := SansDrapeaux(Notees(b[i..]));
    out := [];
    while i + ENTETE <= |b|
      invariant Lues(b, i, out, tout)
    {
      var h := b[i..i + ENTETE];
      var fin := i + ENTETE + Taille(h);
      OneMoreFrameRead(b, i, out, tout);
      if fin > |b| {
        return;
      }
      out := out + [TrameLue(h[3], Flux(h), b[i + ENTETE..fin])];
      i := fin;
    }
    NoFrameAt(b, i);
  }

  /** On what a client sends, preface first, the connection notes exactly what the recording reader finds. */
  lemma AgreeAfterPreface(b: Octets)
    requires PREFACE() <= b
    ensures Notees(ApresPreface(b)) == Notees(Enregistrement(b))
  {
  }

  /**
   In general the connection skips 24 bytes whatever they are: it notes what the recording reader finds once
   those bytes are made a preface.
   */
  lemma SkipsBlindly(b: Octets)
    ensures Notees(ApresPreface(b)) == Notees(Enregistrement(PREFACE() + ApresPreface(b)))
  {
  }

  /** The bytes the connection skips. */
  function Debut(b: Octets): Octets {
    if |b| <= PREFACE_LEN then b else b[..PREFACE_LEN]
  }

  lemma SomethingNoted(b: Octets)
    requires b != [] && Reste(b) == []
    ensures Notees(b) != []
  {
  }

  /**
   On a stream of any length without a preface, the one-pass reader finds the frames of the first 24 bytes, then
   those of what they leave unfinished and of the rest; the connection notes only the frames of the rest.
   */
  lemma OnePassWithoutPreface(b: Octets)
    requires !(PREFACE() <= b)
    ensures Notees(Enregistrement(b)) == Notees(Debut(b)) + Notees(Reste(Debut(b)) + ApresPreface(b))
  {
    assert Debut(b) + ApresPreface(b) == b;
    CutStream(Debut(b), ApresPreface(b));
  }

  /**
   Without a preface, when the first 24 bytes are whole frames, the connection misses exactly those; on a stream no
   longer than that it notes nothing, so the two readers agree exactly when there is no whole frame.
   */
  lemma DifferWithoutPreface(b: Octets)
    requires !(PREFACE() <= b)
    ensures Reste(Debut(b)) == [] ==>
              && Notees(Enregistrement(b)) == Notees(Debut(b)) + Notees(ApresPreface(b))
              && (Notees(ApresPreface(b)) == Notees(Enregistrement(b)) <==> b == [])
    ensures |b| <= PREFACE_LEN ==>
              Notees(ApresPreface(b)) == [] && (Notees(ApresPreface(b)) == Notees(Enregistrement(b)) <==> !Complet(b, H2()))
  {
    OnePassWithoutPreface(b);
    assert !Complet([], H2());
    if Reste(Debut(b)) == [] {
      assert [] + ApresPreface(b) == ApresPreface(b);
      if b != [] {
        SomethingNoted(Debut(b));
        assert |Notees(Enregistrement(b))| > |Notees(ApresPreface(b))|;
      }
    }
  }

  /** A message's length, after the compression byte. */
  function Longueur(h: Octets): nat {
    if |h| < 5 then 0 else BE4(h[1], h[2], h[3], h[4])
  }

  function GRPC(): Format {
    Format(5, Longueur)
  }

  function CorpsDe(xs: seq<Bloc>): seq<Octets> {
    seq(|xs|, i requires 0 <= i < |xs| => xs[i].corps)
  }

  function MessagesDe(c: Octets): seq<Octets> {
    CorpsDe(Decoupe(c, GRPC()).blocs)
  }

  lemma MessageAt(c: Octets, p: nat)
    requires p + 5 <= |c|
    ensures var fin := p + 5 + Longueur(c[p..p + 5]);
            MessagesDe(c[p..]) == if fin > |c| then [] else [c[p + 5..fin]] + MessagesDe(c[fin..])
  {
    BlockAt(c, p, GRPC());
    var fin := p + 5 + Longueur(c[p..p + 5]);
    if fin <= |c| {
      FirstBody(Bloc(c[p..p + 5], c[p + 5..fin]), Decoupe(c[fin..], GRPC()).blocs);
    }
  }

  lemma FirstBody(x: Bloc, xs: seq<Bloc>)
    ensures CorpsDe([x] + xs) == [x.corps] + CorpsDe(xs)
  {
  }

  lemma NoMessageAt(c: Octets, p: nat)
    requires p <= |c|
    ensures p + 5 > |c| ==> MessagesDe(c[p..]) == []
  {
  }

  /** One message on the wire: a compression byte, four bytes of length, the most significant first, and the message. */
  lemma OneMessageOnTheWire(h: Octets, corps: Octets)
    requires |h| == 5 && |corps| == (h[1] as int) * 16777216 + (h[2] as int) * 65536 + (h[3] as int) * 256 + (h[4] as int)
    ensures MessagesDe(h + corps) == [corps]
  {
    var b := h + corps;
    assert b[0..] == b && b[0..5] == h && b[5..5 + |corps|] == corps;
    MessageAt(b, 0);
    assert b[5 + |corps|..] == [];
    assert !Complet([], GRPC());
  }

  method Messages(charge: Octets) returns (out: seq<Octets>)
    ensures out == MessagesDe(charge)
  {
    out := [];
    var p := 0;
    assert charge[0..] == charge;
    while p + 5 <= |charge|
      invariant p <= |charge|
      invariant out + MessagesDe(charge[p..]) == MessagesDe(charge)
    {
      var n := Longueur(charge[p..p + 5]);
      MessageAt(charge, p);
      if p + 5 + n > |charge| {
        break;
      }
      var m := charge[p + 5..p + 5 + n];
      Associe(out, [m], MessagesDe(charge[p + 5 + n..]));
      out := out + [m];
      p := p + 5 + n;
    }
    NoMessageAt(charge, p);
  }

  function Emballe(ms: seq<Octets>): (xs: seq<Bloc>)
    requires forall m :: m in ms ==> |m| < 0x1_0000_0000
    ensures |xs| == |ms|
  {
    seq(|ms|, i requires 0 <= i < |ms| => Bloc([0] + Octets4(|ms[i]|), ms[i]))
  }

  lemma MessagesRoundTrip(ms: seq<Octets>)
    requires forall m :: m in ms ==> |m| < 0x1_0000_0000
    ensures MessagesDe(Colle(Emballe(ms))) == ms
  {
    forall i | 0 <= i < |ms|
      ensures BienForme(Emballe(ms)[i], GRPC())
    {
      BE4Back(|ms[i]|);
    }
    BlocksRoundTrip(Emballe(ms), [], GRPC());
    assert Colle(Emballe(ms)) + [] == Colle(Emballe(ms));
  }

  /** The payload of one stream: its DATA frames, put end to end. */
  function ChargeDe(ts: seq<Trame>, id: nat): Octets {
    if ts == [] then []
    else (if ts[0].typ == 0 && ts[0].id == id then ts[0].corps else []) + ChargeDe(ts[1..], id)
  }

  /**
   Messages sent on a stream come back whole: however they are spread over DATA frames, whatever frames come
   between, and however the network cuts the bytes.
   */
  lemma MessagesSurviveTheStream(ms: seq<Octets>, ts: seq<Trame>, id: nat, reste: Octets)
    requires (forall m :: m in ms ==> |m| < 0x1_0000_0000) && (forall t :: t in ts ==> Ecrivable(t)) && !Complet(reste, H2())
    requires ChargeDe(ts, id) == Colle(Emballe(ms))
    ensures MessagesDe(ChargeDe(Notees(ApresPreface(PREFACE() + Serialise(ts) + reste)), id)) == ms
  {
    var p := PREFACE();
    assert |p| == PREFACE_LEN;
    assert ApresPreface(p + Serialise(ts) + reste) == Serialise(ts) + reste;
    FramesRoundTrip(ts, reste);
    MessagesRoundTrip(ms);
  }
}
