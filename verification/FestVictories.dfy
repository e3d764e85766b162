/**
 The battles a festival's scoring counts (fest_intermede.go): each verdict adds one victory to a camp, for the
 festival and for the mode it was fought in.
 */
module FestVictories {
  import opened Wrappers
  import opened Sommes
  import opened FestScoring

  datatype Bataille = Bataille(fete: string, camp: string, mode: string)

  /** The battles counted for a festival: in one mode, or in all of them. */
  predicate Comptee(b: Bataille, fete: string, mode: Option<string>) {
    fete != "" && b.fete == fete && b.camp != "" && (mode.None? || (mode.value != "" && b.mode == mode.value))
  }

  function UneDePlus(v: Victoires, camp: string): Victoires {
    v[camp := if camp in v then v[camp] + 1 else 1]
  }

  /** The victories these battles recorded. */
  function VictoiresDes(bs: seq<Bataille>, fete: string, mode: Option<string>): Victoires {
    if bs == [] then map[]
    else
      var v := VictoiresDes(bs[..|bs| - 1], fete, mode);
      if Comptee(bs[|bs| - 1], fete, mode) then UneDePlus(v, bs[|bs| - 1].camp) else v
  }

  /** How many battles were counted, for one camp or in all. */
  function Gagnees(bs: seq<Bataille>, fete: string, mode: Option<string>, camp: string): nat {
    if bs == [] then 0
    else
      Gagnees(bs[..|bs| - 1], fete, mode, camp)
      + (if Comptee(bs[|bs| - 1], fete, mode) && bs[|bs| - 1].camp == camp then 1 else 0)
  }

  function Jouees(bs: seq<Bataille>, fete: string, mode: Option<string>): nat {
    if bs == [] then 0 else Jouees(bs[..|bs| - 1], fete, mode) + (if Comptee(bs[|bs| - 1], fete, mode) then 1 else 0)
  }

  lemma OneMoreVictory(v: Victoires, camp: string)
    ensures TotalVictoires(UneDePlus(v, camp)) == TotalVictoires(v) + 1
  {
    var w := UneDePlus(v, camp);
    var f, g := (c: string) => VictoiresDe(v, c), (c: string) => VictoiresDe(w, c);
    TakeOut(w.Keys, g, camp);
    SameTerms(w.Keys - {camp}, f, g);
    if camp in v {
      TakeOut(v.Keys, f, camp);
      assert w.Keys == v.Keys;
    } else {
      assert w.Keys - {camp} == v.Keys;
    }
  }

  /** The table recorded holds each camp's battles, and its total is the battles counted. */
  lemma {:induction false} RecordedVictories(bs: seq<Bataille>, fete: string, mode: Option<string>, camp: string)
    ensures VictoiresDe(VictoiresDes(bs, fete, mode), camp) == Gagnees(bs, fete, mode, camp)
    ensures TotalVictoires(VictoiresDes(bs, fete, mode)) == Jouees(bs, fete, mode)
    ensures VictoiresDes(bs, fete, mode) == map[] <==> Jouees(bs, fete, mode) == 0
  {
    if bs != [] {
      RecordedVictories(bs[..|bs| - 1], fete, mode, camp);
      OneMoreVictory(VictoiresDes(bs[..|bs| - 1], fete, mode), bs[|bs| - 1].camp);
    }
  }

  /** The battles of this festival that this camp won, in this mode or in any. */
  ghost function Victorieuses(bs: seq<Bataille>, fete: string, mode: Option<string>, camp: string): set<int> {
    set i | 0 <= i < |bs| && Remportee(bs[i], fete, mode, camp)
  }

  ghost predicate Remportee(b: Bataille, fete: string, mode: Option<string>, camp: string) {
    b.fete == fete && b.camp == camp && (mode == None || mode == Some(b.mode))
  }

  /**
   What is recorded, in terms of the battles: a camp's victories are the battles of the festival it won, in the mode asked
   for. A battle without a festival or without a camp is nobody's, and one without a mode is in no mode's table.
   */
  lemma {:induction false} VictoriesAreBattlesWon(bs: seq<Bataille>, fete: string, mode: Option<string>, camp: string)
    ensures VictoiresDe(VictoiresDes(bs, fete, mode), camp) ==
            if fete == "" || camp == "" || mode == Some("") then 0 else |Victorieuses(bs, fete, mode, camp)|
  {
    RecordedVictories(bs, fete, mode, camp);
    WonIsACount(bs, fete, mode, camp);
  }

  lemma {:induction false} WonIsACount(bs: seq<Bataille>, fete: string, mode: Option<string>, camp: string)
    ensures Gagnees(bs, fete, mode, camp) ==
            if fete == "" || camp == "" || mode == Some("") then 0 else |Victorieuses(bs, fete, mode, camp)|
  {
    if bs == [] {
      assert Victorieuses(bs, fete, mode, camp) == {};
    } else {
      WonIsACount(bs[..|bs| - 1], fete, mode, camp);
      OneMoreWon(bs, fete, mode, camp);
    }
  }

  lemma OneMoreWon(bs: seq<Bataille>, fete: string, mode: Option<string>, camp: string)
    requires bs != []
    ensures var n, b := |bs| - 1, bs[|bs| - 1];
            |Victorieuses(bs, fete, mode, camp)| == |Victorieuses(bs[..n], fete, mode, camp)|
              + (if Remportee(b, fete, mode, camp) then 1 else 0)
  {
    var n := |bs| - 1;
    var avant, apres := Victorieuses(bs[..n], fete, mode, camp), Victorieuses(bs, fete, mode, camp);
    forall i | 0 <= i < n
      ensures i in apres <==> i in avant
    {
      assert bs[..n][i] == bs[i];
    }
    OneMoreIndex(avant, apres, n, Remportee(bs[n], fete, mode, camp));
  }

  lemma OneMoreIndex(avant: set<int>, apres: set<int>, n: int, dedans: bool)
    requires (forall i :: i in avant ==> 0 <= i < n) && (forall i :: i in apres ==> 0 <= i <= n)
    requires (forall i :: 0 <= i < n ==> (i in apres <==> i in avant)) && (n in apres <==> dedans)
    ensures |apres| == |avant| + (if dedans then 1 else 0)
  {
    forall x
      ensures x in apres <==> x in (if dedans then avant + {n} else avant)
    {
      assert x in apres || x in avant ==> 0 <= x < n || x == n;
    }
    assert n !in avant && apres == if dedans then avant + {n} else avant;
  }

  /**
   On a criterion whose battles were recorded, a place counts the camps that won at least as many; on one without
   any battle, those the vote put at least as high. No recorded table is without a victory.
   */
  lemma RecordedPlaceIsACount(bs: seq<Bataille>, fete: string, mode: string, parts: Parts, camp: string)
    requires camp in parts
    ensures Jouees(bs, fete, Some(mode)) > 0 ==>
              PlaceCritere(VictoiresDes(bs, fete, Some(mode)), parts, camp) + 1 ==
              |set c | c in parts && Gagnees(bs, fete, Some(mode), c) >= Gagnees(bs, fete, Some(mode), camp)|
    ensures Jouees(bs, fete, Some(mode)) == 0 ==>
              PlaceCritere(VictoiresDes(bs, fete, Some(mode)), parts, camp) + 1 == |set c | c in parts && parts[c] >= parts[camp]|
  {
    RecordedVictories(bs, fete, Some(mode), camp);
    if Jouees(bs, fete, Some(mode)) > 0 {
      MeasuredPlaceIsACount(VictoiresDes(bs, fete, Some(mode)), parts, camp);
      SameCount(bs, fete, Some(mode), parts, camp);
    } else {
      assert AuMoins(parts, parts[camp]) == set c | c in parts && parts[c] >= parts[camp];
    }
  }

  lemma SameCount(bs: seq<Bataille>, fete: string, mode: Option<string>, parts: Parts, camp: string)
    ensures (set c | c in parts && VictoiresDe(VictoiresDes(bs, fete, mode), c) >= VictoiresDe(VictoiresDes(bs, fete, mode), camp))
         == (set c | c in parts && Gagnees(bs, fete, mode, c) >= Gagnees(bs, fete, mode, camp))
  {
    RecordedVictories(bs, fete, mode, camp);
    forall c | c in parts
      ensures VictoiresDe(VictoiresDes(bs, fete, mode), c) == Gagnees(bs, fete, mode, c)
    {
      RecordedVictories(bs, fete, mode, c);
    }
  }

  /** comptageFest */
  datatype Comptage = Comptage(victoires: Victoires, parMode: map<string, Victoires>)

  class VictoiresFest {
    var m: map<string, Comptage>
    ghost var batailles: seq<Bataille>    // every battle handed in

    ghost predicate Valid()
      reads this
    {
      && (forall fete :: TableDe(m, fete, None) == VictoiresDes(batailles, fete, None))
      && (forall fete, mode :: TableDe(m, fete, Some(mode)) == VictoiresDes(batailles, fete, Some(mode)))
    }

    constructor ()
      ensures Valid() && batailles == []
    {
      m, batailles := map[], [];
    }

    method EnregistrerVictoireDeFete(festID: string, camp: string, mode: string)
      requires Valid()
      modifies this
      ensures Valid() && batailles == old(batailles) + [Bataille(festID, camp, mode)]
    {
      var b := Bataille(festID, camp, mode);
      assert (batailles + [b])[..|batailles|] == batailles;
      batailles := batailles + [b];
      if festID == "" || camp == "" {
        return;
      }
      var c := if festID in m then m[festID] else Comptage(map[], map[]);
      c := c.(victoires := UneDePlus(c.victoires, camp));
      if mode != "" {
        var dans := if mode in c.parMode then c.parMode[mode] else map[];
        c := c.(parMode := c.parMode[mode := UneDePlus(dans, camp)]);
      }
      m := m[festID := c];
    }

    method VictoiresDuMode(festID: string, mode: string) returns (v: Victoires)
      requires Valid()
      ensures v == VictoiresDes(batailles, festID, Some(mode))
    {
      if festID == "" || mode == "" {
        NothingCounted(batailles, festID, Some(mode));
        return map[];
      }
      if festID !in m || mode !in m[festID].parMode {
        return map[];
      }
      return m[festID].parMode[mode];
    }
  }

  lemma {:induction false} NothingCounted(bs: seq<Bataille>, fete: string, mode: Option<string>)
    requires fete == "" || mode == Some("")
    ensures VictoiresDes(bs, fete, mode) == map[]
  {
    if bs != [] {
      NothingCounted(bs[..|bs| - 1], fete, mode);
    }
  }

  ghost function TableDe(m: map<string, Comptage>, fete: string, mode: Option<string>): Victoires {
    if fete !in m then map[]
    else if mode.None? then m[fete].victoires
    else if mode.value in m[fete].parMode then m[fete].parMode[mode.value] else map[]
  }
}
