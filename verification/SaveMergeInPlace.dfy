/**
 The merge as the server runs it (cloudsave_nextendo.go): the record's maps are objects updated in place,
 the delta is a second tree of such objects, and its keys are visited in no particular order.
 Arrays are never reached into by the merge, so they stay values.
 */
module SaveMergeInPlace {
  import opened Wrappers
  import opened Valeurs
  import opened SaveMerge

  datatype Noeud = Feuille(v: Valeur) | Branche(c: CarteEnMemoire)

  /** A MapValue object. */
  class CarteEnMemoire {
    var fields: map<string, Noeud>
    ghost var contenu: Champs
    ghost var repr: set<CarteEnMemoire>

    ghost predicate Valid()
      reads this, repr
      decreases repr
    {
      && this in repr && contenu.Keys == fields.Keys
      && (forall k :: k in fields && fields[k].Feuille? ==> !fields[k].v.Carte? && contenu[k] == fields[k].v)
      && (forall k :: k in fields && fields[k].Branche? ==>
            var c := fields[k].c;
            c in repr && c.repr <= repr && this !in c.repr && c.Valid() && contenu[k] == Carte(c.contenu))
      && (forall k, l :: k in fields && l in fields && k != l && fields[k].Branche? && fields[l].Branche? ==>
            fields[k].c.repr !! fields[l].c.repr)
    }

    /** Everything but the map at k is in order, and rests on these objects only. */
    ghost predicate ValideSauf(k: string, reste: set<CarteEnMemoire>)
      reads this, reste
    {
      && this in reste && k in fields && contenu.Keys == fields.Keys
      && (forall l :: l in fields && l != k && fields[l].Feuille? ==> !fields[l].v.Carte? && contenu[l] == fields[l].v)
      && (forall l :: l in fields && l != k && fields[l].Branche? ==>
            var c := fields[l].c;
            c in reste && c.repr <= reste && this !in c.repr && c.Valid() && contenu[l] == Carte(c.contenu))
      && (forall l, m :: l in fields && m in fields && l != m && l != k && m != k && fields[l].Branche? && fields[m].Branche? ==>
            fields[l].c.repr !! fields[m].c.repr)
    }

    lemma MapApart(k: string)
      requires Valid() && k in fields && fields[k].Branche?
      ensures ValideSauf(k, repr - fields[k].c.repr)
    {
    }

    /** Puts the record of this map back together around the map at k, grown on its own. */
    ghost method Rattacher(k: string, reste: set<CarteEnMemoire>)
      requires ValideSauf(k, reste) && fields[k].Branche? && fields[k].c.Valid() && reste !! fields[k].c.repr
      modifies this`contenu, this`repr
      ensures Valid() && repr == reste + fields[k].c.repr
      ensures contenu == old(contenu)[k := Carte(fields[k].c.contenu)]
    {
      ghost var dm := fields[k].c;
      contenu := contenu[k := Carte(dm.contenu)];
      repr := reste + dm.repr;
      forall l | l in fields && fields[l].Branche?
        ensures var c := fields[l].c; c in repr && c.repr <= repr && this !in c.repr && c.Valid() && contenu[l] == Carte(c.contenu)
      {
      }
      forall l, m | l in fields && m in fields && l != m && fields[l].Branche? && fields[m].Branche?
        ensures fields[l].c.repr !! fields[m].c.repr
      {
      }
    }

    constructor ()
      ensures Valid() && contenu == map[] && repr == {this}
    {
      fields, contenu, repr := map[], map[], {this};
    }

    method Oter(k: string)
      requires Valid()
      modifies this
      ensures Valid() && repr == old(repr) && fields == old(fields) - {k} && contenu == old(contenu) - {k}
    {
      fields := fields - {k};
      contenu := contenu - {k};
    }

    method PoserFeuille(k: string, v: Valeur)
      requires Valid() && !v.Carte?
      modifies this
      ensures Valid() && repr == old(repr) && fields == old(fields)[k := Feuille(v)] && contenu == old(contenu)[k := v]
    {
      fields := fields[k := Feuille(v)];
      contenu := contenu[k := v];
    }

    method PoserBranche(k: string, c: CarteEnMemoire)
      requires Valid() && c.Valid() && repr !! c.repr
      modifies this
      ensures Valid() && c.Valid() && repr == old(repr) + c.repr
      ensures contenu == old(contenu)[k := Carte(c.contenu)]
    {
      fields := fields[k := Branche(c)];
      contenu := contenu[k := Carte(c.contenu)];
      repr := repr + c.repr;
    }

    /** Stores a normalised copy of one field in another map. */
    method CopierChamp(k: string, c: CarteEnMemoire)
      requires Valid() && c.Valid() && repr !! c.repr && k in fields
      modifies c
      ensures c.Valid() && fresh(c.repr - old(c.repr)) && c.contenu == old(c.contenu)[k := NormStored(contenu[k])]
      decreases repr, 0
    {
      match fields[k] {
        case Feuille(v) => c.PoserFeuille(k, NormStored(v));
        case Branche(m) =>
          var copie := m.NormStoredCopie();
          c.PoserBranche(k, copie);
      }
    }

    /** normStored on a map: a fresh tree, sharing nothing with the original. */
    method NormStoredCopie() returns (c: CarteEnMemoire)
      requires Valid()
      ensures c.Valid() && fresh(c.repr) && c.contenu == NormChamps(contenu)
      decreases repr, 1
    {
      c := new CarteEnMemoire();
      var restants := fields.Keys;
      while restants != {}
        invariant restants <= fields.Keys && c.Valid() && fresh(c.repr)
        invariant Copiees(contenu, c.contenu, restants)
        decreases restants
      {
        var k :| k in restants;
        ghost var avant := c.contenu;
        CopierChamp(k, c);
        OneMoreCopied(contenu, avant, c.contenu, restants, k);
        restants := restants - {k};
      }
      AllCopied(contenu, c.contenu);
    }

    /** The merge of one map of the delta into the map at the same key, in place. */
    method FusionnerBranche(k: string, sm: CarteEnMemoire)
      requires Valid() && sm.Valid() && repr !! sm.repr && k in fields && fields[k].Branche?
      modifies repr
      ensures Valid() && fresh(repr - old(repr)) && repr !! sm.repr
      ensures contenu == old(contenu)[k := Carte(Fusion(old(fields[k].c.contenu), sm.contenu))]
      decreases sm.repr, 2
    {
      var dm := fields[k].c;
      ghost var reste := repr - dm.repr;
      MapApart(k);
      dm.Fusionner(sm);
      Rattacher(k, reste);
    }

    method AppliquerBranche(k: string, sm: CarteEnMemoire)
      requires Valid() && sm.Valid() && repr !! sm.repr
      modifies repr
      ensures Valid() && fresh(repr - old(repr)) && repr !! sm.repr
      ensures contenu == old(contenu)[k := FusionCle(old(Lu(contenu, k)), Carte(sm.contenu)).value]
      decreases sm.repr, 3
    {
      if k in fields && fields[k].Branche? {
        FusionnerBranche(k, sm);
      } else {
        var copie := sm.NormStoredCopie();
        PoserBranche(k, copie);
      }
    }

    method AppliquerFeuille(k: string, sv: Valeur)
      requires Valid() && !sv.Carte?
      modifies this
      ensures Valid() && repr == old(repr)
      ensures contenu == if sv.Nul? then old(contenu) - {k} else old(contenu)[k := NormStored(sv)]
    {
      if sv.Nul? {
        Oter(k);
      } else {
        PoserFeuille(k, NormStored(sv));
      }
    }

    method AppliquerCle(k: string, src: CarteEnMemoire)
      requires Valid() && src.Valid() && repr !! src.repr && k in src.fields
      modifies repr
      ensures Valid() && fresh(repr - old(repr)) && repr !! src.repr
      ensures contenu == ApresCle(old(contenu), k, src.contenu[k])
      decreases src.repr, 0
    {
      match src.fields[k] {
        case Feuille(sv) => AppliquerFeuille(k, sv);
        case Branche(sm) => AppliquerBranche(k, sm);
      }
    }

    /** mergeSaveData: whatever the order of the keys, the record becomes the merge; the delta is untouched. */
    method Fusionner(src: CarteEnMemoire)
      requires Valid() && src.Valid() && repr !! src.repr
      modifies repr
      ensures Valid() && fresh(repr - old(repr)) && repr !! src.repr
      ensures contenu == Fusion(old(contenu), src.contenu)
      decreases src.repr, 1
    {
      var restants := src.fields.Keys;
      ghost var d, sd := contenu, src.contenu;
      while restants != {}
        invariant restants <= src.fields.Keys && src.contenu == sd && sd.Keys == src.fields.Keys
        invariant Valid() && src.Valid() && fresh(repr - old(repr)) && repr !! src.repr
        invariant Appliquees(d, sd, contenu, sd.Keys - restants)
        decreases restants
      {
        var k :| k in restants;
        ghost var avant := contenu;
        AppliquerCle(k, src);
        OneMoreApplied(d, sd, avant, contenu, sd.Keys - restants, k);
        assert sd.Keys - (restants - {k}) == (sd.Keys - restants) + {k};
        restants := restants - {k};
      }
      AllKeysApplied(d, sd, contenu);
    }
  }

  /** Every field but these has been copied, normalised. */
  ghost predicate Copiees(m: Champs, r: Champs, restants: set<string>) {
    r.Keys == m.Keys - restants && forall k :: k in r ==> r[k] == NormStored(m[k])
  }

  lemma OneMoreCopied(m: Champs, r: Champs, r': Champs, restants: set<string>, k: string)
    requires Copiees(m, r, restants) && k in m && r' == r[k := NormStored(m[k])]
    ensures Copiees(m, r', restants - {k})
  {
  }

  lemma AllCopied(m: Champs, r: Champs)
    requires Copiees(m, r, {})
    ensures r == NormChamps(m)
  {
  }

  /** The keys handled so far read as in the merge, the others as before. */
  ghost predicate Appliquees(d: Champs, s: Champs, r: Champs, faites: set<string>) {
    && (forall k :: k in faites && k in s ==> Lu(r, k) == FusionCle(Lu(d, k), s[k]))
    && (forall k :: k !in faites ==> Lu(r, k) == Lu(d, k))
  }

  ghost function ApresCle(m: Champs, k: string, sv: Valeur): Champs {
    var r := FusionCle(Lu(m, k), sv);
    if r.None? then m - {k} else m[k := r.value]
  }

  lemma OneMoreApplied(d: Champs, s: Champs, r: Champs, r': Champs, faites: set<string>, k: string)
    requires Appliquees(d, s, r, faites) && k in s && k !in faites && r' == ApresCle(r, k, s[k])
    ensures Appliquees(d, s, r', faites + {k})
  {
  }

  lemma AllKeysApplied(d: Champs, s: Champs, r: Champs)
    requires Appliquees(d, s, r, s.Keys)
    ensures r == Fusion(d, s)
  {
    forall k
      ensures Lu(r, k) == Lu(Fusion(d, s), k)
    {
      FusionAt(d, s, k);
    }
    SameReads(r, Fusion(d, s));
  }
}
