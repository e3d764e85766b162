/**
 Streams of length-prefixed blocks: a header of fixed size that tells how many bytes follow it. HTTP/2 frames
 and gRPC messages are both cut out of a byte stream this way.
 */
module Framing {
  import opened Wrappers

  datatype Bloc = Bloc(entete: Octets, corps: Octets)

  /** The size of a header, and the length it announces. */
  datatype Format = Format(n: nat, taille: Octets -> nat)

  /** The blocks of a stream, and the beginning of the next one. */
  datatype Lecture = Lecture(blocs: seq<Bloc>, reste: Octets)

  predicate Complet(b: Octets, f: Format) {
    |b| >= f.n && f.n + f.taille(b[..f.n]) <= |b|
  }

  function Premier(b: Octets, f: Format): Bloc
    requires Complet(b, f)
  {
    Bloc(b[..f.n], b[f.n..f.n + f.taille(b[..f.n])])
  }

  function Suite(b: Octets, f: Format): (s: Octets)
    requires Complet(b, f)
    ensures f.n > 0 ==> |s| < |b|
  {
    b[f.n + f.taille(b[..f.n])..]
  }

  /** One pass over the whole stream. */
  function Decoupe(b: Octets, f: Format): (l: Lecture)
    requires f.n > 0
    ensures !Complet(l.reste, f) && |l.reste| <= |b|
    decreases |b|
  {
    if !Complet(b, f) then Lecture([], b)
    else
      var l := Decoupe(Suite(b, f), f);
      Lecture([Premier(b, f)] + l.blocs, l.reste)
  }

  lemma FirstBlockStays(a: Octets, b: Octets, f: Format)
    requires Complet(a, f)
    ensures Complet(a + b, f) && Premier(a + b, f) == Premier(a, f) && Suite(a + b, f) == Suite(a, f) + b
  {
    assert (a + b)[..f.n] == a[..f.n];
  }

  /** Feeding a then b is feeding them at once: a cut may fall anywhere, inside a header included. */
  lemma {:induction false} CutAnywhere(a: Octets, b: Octets, f: Format)
    requires f.n > 0
    ensures var l := Decoupe(a, f);
            var m := Decoupe(l.reste + b, f);
            Decoupe(a + b, f) == Lecture(l.blocs + m.blocs, m.reste)
    decreases |a|
  {
    if Complet(a, f) {
      CutAnywhere(Suite(a, f), b, f);
      FirstBlockStays(a, b, f);
    }
  }

  // ---- writing blocks ----

  ghost predicate BienForme(x: Bloc, f: Format) {
    |x.entete| == f.n && f.taille(x.entete) == |x.corps|
  }

  ghost predicate BienFormes(xs: seq<Bloc>, f: Format) {
    forall x :: x in xs ==> BienForme(x, f)
  }

  function Ecrit(x: Bloc): Octets {
    x.entete + x.corps
  }

  function Colle(xs: seq<Bloc>): Octets {
    if xs == [] then [] else Ecrit(xs[0]) + Colle(xs[1..])
  }

  lemma FirstBlockBack(x: Bloc, suite: Octets, f: Format)
    requires BienForme(x, f)
    ensures var b := Ecrit(x) + suite;
            Complet(b, f) && Premier(b, f) == x && Suite(b, f) == suite
  {
    var b := Ecrit(x) + suite;
    assert b[..f.n] == x.entete;
  }

  /** Reading back a written list of blocks, followed by the beginning of another. */
  lemma {:induction false} BlocksRoundTrip(xs: seq<Bloc>, reste: Octets, f: Format)
    requires f.n > 0 && BienFormes(xs, f) && !Complet(reste, f)
    ensures Decoupe(Colle(xs) + reste, f) == Lecture(xs, reste)
  {
    if xs == [] {
      assert Colle(xs) + reste == reste;
    } else {
      var b := Colle(xs[1..]) + reste;
      BlocksRoundTrip(xs[1..], reste, f);
      FirstBlockBack(xs[0], b, f);
      Associe(Ecrit(xs[0]), Colle(xs[1..]), reste);
    }
  }

  lemma FirstBlockCutsOff(b: Octets, f: Format)
    requires Complet(b, f)
    ensures BienForme(Premier(b, f), f) && Ecrit(Premier(b, f)) + Suite(b, f) == b
  {
  }

  /** Nothing is lost or invented: the blocks and the remainder are the stream. */
  lemma {:induction false} StreamConserved(b: Octets, f: Format)
    requires f.n > 0
    ensures BienFormes(Decoupe(b, f).blocs, f) && Colle(Decoupe(b, f).blocs) + Decoupe(b, f).reste == b
    decreases |b|
  {
    if Complet(b, f) {
      StreamConserved(Suite(b, f), f);
      var l := Decoupe(Suite(b, f), f);
      Associe(Ecrit(Premier(b, f)), Colle(l.blocs), l.reste);
      FirstBlockCutsOff(b, f);
    }
  }

  // ---- reading at an index ----

  /** The block that starts at i, for a reader that moves an index instead of shrinking its slice. */
  lemma BlockAt(b: Octets, i: nat, f: Format)
    requires f.n > 0 && i + f.n <= |b|
    ensures var fin := i + f.n + f.taille(b[i..i + f.n]);
            if fin > |b| then Decoupe(b[i..], f) == Lecture([], b[i..])
            else Decoupe(b[i..], f) ==
                 Lecture([Bloc(b[i..i + f.n], b[i + f.n..fin])] + Decoupe(b[fin..], f).blocs, Decoupe(b[fin..], f).reste)
  {
    assert b[i..][..f.n] == b[i..i + f.n];
    var fin := i + f.n + f.taille(b[i..i + f.n]);
    if fin <= |b| {
      assert b[i..][f.n..fin - i] == b[i + f.n..fin] && b[i..][fin - i..] == b[fin..];
    }
  }
}
