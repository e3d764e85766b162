/**
 Merging a cloud-save delta into a record (cloudsave_nextendo.go): maps merge key by key, anything else
 replaces, an empty array is stored as null, and an explicit null deletes.
 */
module SaveMerge {
  import opened Wrappers
  import opened Valeurs

  function NormStored(v: Valeur): Valeur
    decreases v, 1
  {
    match v
    case Tableau(vs) => if vs == [] then Nul else Tableau(seq(|vs|, i requires 0 <= i < |vs| => NormStored(vs[i])))
    case Carte(m) => Carte(NormChamps(m))
    case _ => v
  }

  function NormChamps(m: Champs): Champs
    decreases Carte(m), 0
  {
    map k | k in m :: assert k in Carte(m).champs; NormStored(m[k])
  }

  function Lu(m: Champs, k: string): Option<Valeur> {
    if k in m then Some(m[k]) else None
  }

  /** What one key of the delta does to what the record holds there. */
  function FusionCle(o: Option<Valeur>, sv: Valeur): (r: Option<Valeur>)
    ensures r.None? <==> sv.Nul?
    decreases sv, 1
  {
    if sv.Nul? then None
    else if sv.Carte? && o.Some? && o.value.Carte? then Some(Carte(Fusion(o.value.champs, sv.champs)))
    else Some(NormStored(sv))
  }

  /** The merged record, key by key: no order of the keys enters into it. */
  function Fusion(d: Champs, s: Champs): Champs
    decreases Carte(s), 0
  {
    map k | k in d.Keys + s.Keys && (k in s ==> !s[k].Nul?) ::
      if k in s then assert k in Carte(s).champs; FusionCle(Lu(d, k), s[k]).value else d[k]
  }

  lemma FusionAt(d: Champs, s: Champs, k: string)
    ensures Lu(Fusion(d, s), k) == if k in s then FusionCle(Lu(d, k), s[k]) else Lu(d, k)
  {
  }

  lemma SameReads(a: Champs, b: Champs)
    requires forall k :: Lu(a, k) == Lu(b, k)
    ensures a == b
  {
    forall k
      ensures k in a <==> k in b
      ensures k in a ==> a[k] == b[k]
    {
      assert Lu(a, k) == Lu(b, k);
    }
  }

  // ---- storage normalisation ----

  lemma {:induction false} NormStoredIdempotent(v: Valeur)
    ensures NormStored(NormStored(v)) == NormStored(v)
    decreases v
  {
    match v
    case Tableau(vs) =>
      if vs != [] {
        forall i | 0 <= i < |vs|
          ensures NormStored(NormStored(vs[i])) == NormStored(vs[i])
        {
          NormStoredIdempotent(vs[i]);
        }
        assert NormStored(NormStored(v)).vs == NormStored(v).vs;
      }
    case Carte(m) =>
      forall k | k in m
        ensures NormStored(NormStored(m[k])) == NormStored(m[k])
      {
        NormStoredIdempotent(m[k]);
      }
      assert NormChamps(NormChamps(m)) == NormChamps(m);
    case _ =>
  }

  /** No empty array at any depth. */
  ghost predicate SansTableauVide(v: Valeur) {
    match v
    case Tableau(vs) => vs != [] && forall i :: 0 <= i < |vs| ==> SansTableauVide(vs[i])
    case Carte(m) => forall k :: k in m ==> SansTableauVide(m[k])
    case _ => true
  }

  lemma {:induction false} NormStoredHasNoEmptyArray(v: Valeur)
    ensures SansTableauVide(NormStored(v))
    decreases v
  {
    match v
    case Tableau(vs) =>
      forall i | 0 <= i < |vs|
        ensures SansTableauVide(NormStored(vs[i]))
      {
        NormStoredHasNoEmptyArray(vs[i]);
      }
    case Carte(m) =>
      forall k | k in m
        ensures SansTableauVide(NormStored(m[k]))
      {
        NormStoredHasNoEmptyArray(m[k]);
      }
    case _ =>
  }

  /** Storing changes a value exactly when it holds an empty array somewhere. */
  lemma {:induction false} StoredAsIsIff(v: Valeur)
    ensures NormStored(v) == v <==> SansTableauVide(v)
    decreases v
  {
    NormStoredHasNoEmptyArray(v);
    match v
    case Tableau(vs) =>
      if SansTableauVide(v) {
        forall i | 0 <= i < |vs|
          ensures NormStored(vs[i]) == vs[i]
        {
          StoredAsIsIff(vs[i]);
        }
        assert NormStored(v).vs == vs;
      }
    case Carte(m) =>
      if SansTableauVide(v) {
        forall k | k in m
          ensures NormStored(m[k]) == m[k]
        {
          StoredAsIsIff(m[k]);
        }
        assert NormStored(v).champs == m;
      }
    case _ =>
  }

  /** An empty array became null; anything else kept its kind: a leaf its value, an array its length, a map its keys. */
  predicate Rangee(v: Valeur, w: Valeur) {
    match v
    case Tableau(vs) => if vs == [] then w == Nul else w.Tableau? && |w.vs| == |vs|
    case Carte(m) => w.Carte? && w.champs.Keys == m.Keys
    case _ => w == v
  }

  /** At any depth, through maps and arrays: a stored value has the same places, and each holds what was given there. */
  lemma {:induction false} StoredAtEveryPath(v: Valeur, acces: seq<Acces>)
    ensures LuEn(NormStored(v), acces).Some? <==> LuEn(v, acces).Some?
    ensures LuEn(v, acces).Some? ==> Rangee(LuEn(v, acces).value, LuEn(NormStored(v), acces).value)
    decreases |acces|
  {
    if acces != [] {
      match acces[0]
      case Cle(k) =>
        if v.Carte? && k in v.champs {
          StoredAtEveryPath(v.champs[k], acces[1..]);
        }
      case Indice(i) =>
        if v.Tableau? && i < |v.vs| {
          StoredAtEveryPath(v.vs[i], acces[1..]);
        }
    }
  }

  /** A record without empty arrays never gains one, whatever the delta holds. */
  lemma {:induction false} MergeStoresNoEmptyArray(d: Champs, s: Champs)
    requires SansTableauVide(Carte(d))
    ensures SansTableauVide(Carte(Fusion(d, s)))
    decreases Carte(s)
  {
    forall k | k in Fusion(d, s)
      ensures SansTableauVide(Fusion(d, s)[k])
    {
      if k in s {
        assert k in Carte(s).champs;
        if s[k].Carte? && k in d && d[k].Carte? {
          MergeStoresNoEmptyArray(d[k].champs, s[k].champs);
        } else {
          NormStoredHasNoEmptyArray(s[k]);
        }
      } else {
        assert k in Carte(d).champs;
      }
    }
  }

  // ---- applying the same delta again ----

  ghost predicate CopieStable(s: Champs) {
    Fusion(Fusion(NormChamps(s), s), s) == Fusion(NormChamps(s), s)
  }

  /** Applying a delta to its own freshly stored copy settles at once. */
  lemma {:induction false} StoredCopySettles(s: Champs)
    ensures CopieStable(s)
    decreases Carte(s)
  {
    forall k
      ensures Lu(Fusion(Fusion(NormChamps(s), s), s), k) == Lu(Fusion(NormChamps(s), s), k)
    {
      if k in s && s[k].Carte? {
        assert k in Carte(s).champs;
        StoredCopySettles(s[k].champs);
      }
    }
    SameReads(Fusion(Fusion(NormChamps(s), s), s), Fusion(NormChamps(s), s));
  }

  ghost predicate SeStabilise(d: Champs, s: Champs) {
    Fusion(Fusion(Fusion(d, s), s), s) == Fusion(Fusion(d, s), s)
  }

  lemma KeySettles(o: Option<Valeur>, sv: Valeur)
    requires sv.Carte? && o.Some? && o.value.Carte? ==> SeStabilise(o.value.champs, sv.champs)
    ensures FusionCle(FusionCle(FusionCle(o, sv), sv), sv) == FusionCle(FusionCle(o, sv), sv)
  {
    if sv.Carte? {
      if o.Some? && o.value.Carte? {
      } else {
        StoredCopySettles(sv.champs);
      }
    }
  }

  lemma SettlesAt(d: Champs, s: Champs, k: string)
    requires k in s && s[k].Carte? && k in d && d[k].Carte? ==> SeStabilise(d[k].champs, s[k].champs)
    ensures Lu(Fusion(Fusion(Fusion(d, s), s), s), k) == Lu(Fusion(Fusion(d, s), s), k)
  {
    FusionAt(d, s, k);
    FusionAt(Fusion(d, s), s, k);
    FusionAt(Fusion(Fusion(d, s), s), s, k);
    if k in s {
      KeySettles(Lu(d, k), s[k]);
    }
  }

  /** The third application of a delta never changes anything. */
  lemma {:induction false} TwoApplicationsSettle(d: Champs, s: Champs)
    ensures Fusion(Fusion(Fusion(d, s), s), s) == Fusion(Fusion(d, s), s)
    decreases Carte(s)
  {
    forall k
      ensures Lu(Fusion(Fusion(Fusion(d, s), s), s), k) == Lu(Fusion(Fusion(d, s), s), k)
    {
      if k in s && s[k].Carte? && k in d && d[k].Carte? {
        assert k in Carte(s).champs;
        TwoApplicationsSettle(d[k].champs, s[k].champs);
      }
      SettlesAt(d, s, k);
    }
    SameReads(Fusion(Fusion(Fusion(d, s), s), s), Fusion(Fusion(d, s), s));
  }

  /** No explicit null at any depth reached through maps. */
  ghost predicate SansNul(s: Champs)
    decreases Carte(s)
  {
    forall k :: k in s ==> !s[k].Nul? && (s[k].Carte? ==> assert k in Carte(s).champs; SansNul(s[k].champs))
  }

  /** Every map of the delta that holds a null lands on a map the record already has. */
  ghost predicate NulsRecus(d: Champs, s: Champs)
    decreases Carte(s)
  {
    forall k :: k in s && s[k].Carte? ==>
      assert k in Carte(s).champs;
      if k in d && d[k].Carte? then NulsRecus(d[k].champs, s[k].champs) else SansNul(s[k].champs)
  }

  lemma {:induction false} StoredCopyStableIff(s: Champs)
    ensures Fusion(NormChamps(s), s) == NormChamps(s) <==> SansNul(s)
    decreases Carte(s)
  {
    var n := NormChamps(s);
    forall k | k in s
      ensures Lu(Fusion(n, s), k) == Lu(n, k) <==> !s[k].Nul? && (s[k].Carte? ==> SansNul(s[k].champs))
    {
      FusionAt(n, s, k);
      assert n[k] == NormStored(s[k]);
      if s[k].Carte? {
        assert k in Carte(s).champs;
        StoredCopyStableIff(s[k].champs);
      }
    }
    if SansNul(s) {
      forall k
        ensures Lu(Fusion(n, s), k) == Lu(n, k)
      {
        FusionAt(n, s, k);
      }
      SameReads(Fusion(n, s), n);
    }
  }

  ghost predicate UneFoisSuffit(d: Champs, s: Champs) {
    Fusion(Fusion(d, s), s) == Fusion(d, s)
  }

  ghost predicate NulRecu(d: Champs, s: Champs, k: string) {
    k in s && s[k].Carte? ==>
      if k in d && d[k].Carte? then NulsRecus(d[k].champs, s[k].champs) else SansNul(s[k].champs)
  }

  lemma EachKeyReceived(d: Champs, s: Champs)
    ensures NulsRecus(d, s) <==> forall k :: NulRecu(d, s, k)
  {
    if forall k :: NulRecu(d, s, k) {
      forall k | k in s
        ensures NulRecu(d, s, k)
      {
      }
    }
  }

  lemma OnceEnoughAt(d: Champs, s: Champs, k: string)
    requires k in s && s[k].Carte? && k in d && d[k].Carte? ==>
               (UneFoisSuffit(d[k].champs, s[k].champs) <==> NulsRecus(d[k].champs, s[k].champs))
    ensures Lu(Fusion(Fusion(d, s), s), k) == Lu(Fusion(d, s), k) <==> NulRecu(d, s, k)
  {
    FusionAt(d, s, k);
    FusionAt(Fusion(d, s), s, k);
    if k in s && s[k].Carte? {
      if k in d && d[k].Carte? {
      } else {
        StoredCopyStableIff(s[k].champs);
      }
    }
  }

  /** One application is enough exactly when no null of the delta is stored with a map the record lacked. */
  lemma {:induction false} IdempotentIff(d: Champs, s: Champs)
    ensures Fusion(Fusion(d, s), s) == Fusion(d, s) <==> NulsRecus(d, s)
    decreases Carte(s)
  {
    forall k
      ensures Lu(Fusion(Fusion(d, s), s), k) == Lu(Fusion(d, s), k) <==> NulRecu(d, s, k)
    {
      if k in s && s[k].Carte? && k in d && d[k].Carte? {
        assert k in Carte(s).champs;
        IdempotentIff(d[k].champs, s[k].champs);
      }
      OnceEnoughAt(d, s, k);
    }
    EachKeyReceived(d, s);
    if NulsRecus(d, s) {
      SameReads(Fusion(Fusion(d, s), s), Fusion(d, s));
    }
  }

  lemma {:induction false} NullFreeIsReceived(d: Champs, s: Champs)
    requires SansNul(s)
    ensures NulsRecus(d, s)
    decreases Carte(s)
  {
    forall k | k in s && s[k].Carte? && k in d && d[k].Carte?
      ensures NulsRecus(d[k].champs, s[k].champs)
    {
      assert k in Carte(s).champs;
      NullFreeIsReceived(d[k].champs, s[k].champs);
    }
  }

  lemma NullFreeIsIdempotent(d: Champs, s: Champs)
    requires SansNul(s)
    ensures Fusion(Fusion(d, s), s) == Fusion(d, s)
  {
    NullFreeIsReceived(d, s);
    IdempotentIff(d, s);
  }

  /** A reward list cleared before it exists: the null is stored first, and deleted by the second application. */
  lemma StoredNullNeedsTwo()
    ensures var s := map["RewardAry" := Carte(map["0" := Nul])];
            Fusion(map[], s) == s && Fusion(Fusion(map[], s), s) == map["RewardAry" := Carte(map[])]
  {
    var m: Champs := map["0" := Nul];
    var s := map["RewardAry" := Carte(m)];
    assert NormChamps(m) == m;
    assert Fusion(map[], s) == s;
    assert Fusion(m, m) == map[];
    assert Fusion(s, s) == map["RewardAry" := Carte(map[])];
  }

  // ---- commuting deltas ----

  /** Every common key is a map on both sides, recursively. */
  ghost predicate SansConflit(s: Champs, t: Champs)
    decreases Carte(s)
  {
    forall k :: k in s && k in t ==>
      assert k in Carte(s).champs;
      s[k].Carte? && t[k].Carte? && SansConflit(s[k].champs, t[k].champs)
  }

  /** No null on a key that only one of the two mentions, wherever both are maps. */
  ghost predicate NulsCommuns(s: Champs, t: Champs)
    decreases Carte(s)
  {
    && (forall k :: k in s && k !in t ==> !s[k].Nul?)
    && (forall k :: k in t && k !in s ==> !t[k].Nul?)
    && (forall k :: k in s && k in t && s[k].Carte? && t[k].Carte? ==>
          assert k in Carte(s).champs; NulsCommuns(s[k].champs, t[k].champs))
  }

  /** Maps that both deltas bring where the record has none must not disagree about a null. */
  ghost predicate Commutent(d: Champs, s: Champs, t: Champs)
    decreases Carte(s)
  {
    forall k :: k in s && k in t && s[k].Carte? && t[k].Carte? ==>
      assert k in Carte(s).champs;
      if k in d && d[k].Carte? then Commutent(d[k].champs, s[k].champs, t[k].champs)
      else NulsCommuns(s[k].champs, t[k].champs)
  }

  ghost predicate CopiesCommutent(s: Champs, t: Champs) {
    Fusion(NormChamps(s), t) == Fusion(NormChamps(t), s)
  }

  ghost predicate NulCommun(s: Champs, t: Champs, k: string) {
    && (k in s && k !in t ==> !s[k].Nul?) && (k in t && k !in s ==> !t[k].Nul?)
    && (k in s && k in t && s[k].Carte? && t[k].Carte? ==> NulsCommuns(s[k].champs, t[k].champs))
  }

  lemma StoredCopiesAt(s: Champs, t: Champs, k: string)
    requires k in s && k in t ==>
               s[k].Carte? && t[k].Carte? && (CopiesCommutent(s[k].champs, t[k].champs) <==> NulsCommuns(s[k].champs, t[k].champs))
    ensures Lu(Fusion(NormChamps(s), t), k) == Lu(Fusion(NormChamps(t), s), k) <==> NulCommun(s, t, k)
  {
    FusionAt(NormChamps(s), t, k);
    FusionAt(NormChamps(t), s, k);
    if k in s && k in t {
      assert NormChamps(s)[k] == Carte(NormChamps(s[k].champs)) && NormChamps(t)[k] == Carte(NormChamps(t[k].champs));
    }
  }

  lemma {:induction false} StoredCopiesCommuteIff(s: Champs, t: Champs)
    requires SansConflit(s, t)
    ensures CopiesCommutent(s, t) <==> NulsCommuns(s, t)
    decreases Carte(s)
  {
    forall k
      ensures Lu(Fusion(NormChamps(s), t), k) == Lu(Fusion(NormChamps(t), s), k) <==> NulCommun(s, t, k)
    {
      if k in s && k in t {
        assert k in Carte(s).champs;
        StoredCopiesCommuteIff(s[k].champs, t[k].champs);
      }
      StoredCopiesAt(s, t, k);
    }
    EachNull(s, t);
    if NulsCommuns(s, t) {
      SameReads(Fusion(NormChamps(s), t), Fusion(NormChamps(t), s));
    }
  }

  lemma EachNull(s: Champs, t: Champs)
    ensures NulsCommuns(s, t) <==> forall k :: NulCommun(s, t, k)
  {
    if forall k :: NulCommun(s, t, k) {
      forall k | k in s || k in t
        ensures NulCommun(s, t, k)
      {
      }
    }
  }

  ghost predicate EchangeEgal(d: Champs, s: Champs, t: Champs) {
    Fusion(Fusion(d, s), t) == Fusion(Fusion(d, t), s)
  }

  ghost predicate CommuteEn(d: Champs, s: Champs, t: Champs, k: string) {
    k in s && k in t && s[k].Carte? && t[k].Carte? ==>
      if k in d && d[k].Carte? then Commutent(d[k].champs, s[k].champs, t[k].champs)
      else NulsCommuns(s[k].champs, t[k].champs)
  }

  lemma EachKeyCommutes(d: Champs, s: Champs, t: Champs)
    ensures Commutent(d, s, t) <==> forall k :: CommuteEn(d, s, t, k)
  {
    if forall k :: CommuteEn(d, s, t, k) {
      forall k | k in s && k in t
        ensures CommuteEn(d, s, t, k)
      {
      }
    }
  }

  lemma CommonMapCommutes(o: Option<Valeur>, sm: Champs, tm: Champs)
    ensures FusionCle(FusionCle(o, Carte(sm)), Carte(tm)) == FusionCle(FusionCle(o, Carte(tm)), Carte(sm)) <==>
            if o.Some? && o.value.Carte? then EchangeEgal(o.value.champs, sm, tm) else CopiesCommutent(sm, tm)
  {
    if o.Some? && o.value.Carte? {
      var dm := o.value.champs;
    } else {
      TwiceOnOther(o, sm, tm);
      TwiceOnOther(o, tm, sm);
    }
  }

  lemma TwiceOnOther(o: Option<Valeur>, sm: Champs, tm: Champs)
    requires o.None? || !o.value.Carte?
    ensures FusionCle(FusionCle(o, Carte(sm)), Carte(tm)) == Some(Carte(Fusion(NormChamps(sm), tm)))
  {
  }

  ghost predicate EchangeEgalEn(d: Champs, s: Champs, t: Champs, k: string) {
    k in s && k in t && s[k].Carte? && t[k].Carte? ==>
      if k in d && d[k].Carte? then EchangeEgal(d[k].champs, s[k].champs, t[k].champs)
      else CopiesCommutent(s[k].champs, t[k].champs)
  }

  lemma DeltasCommuteAt(d: Champs, s: Champs, t: Champs, k: string)
    requires k in s && k in t ==> s[k].Carte? && t[k].Carte?
    ensures Lu(Fusion(Fusion(d, s), t), k) == Lu(Fusion(Fusion(d, t), s), k) <==> EchangeEgalEn(d, s, t, k)
  {
    FusionAt(d, s, k);
    FusionAt(d, t, k);
    FusionAt(Fusion(d, s), t, k);
    FusionAt(Fusion(d, t), s, k);
    if k in s && k in t {
      CommonMapCommutes(Lu(d, k), s[k].champs, t[k].champs);
    }
  }

  lemma EqualIffEachKey(d: Champs, s: Champs, t: Champs)
    requires SansConflit(s, t)
    ensures EchangeEgal(d, s, t) <==> forall k :: EchangeEgalEn(d, s, t, k)
  {
    forall k
      ensures Lu(Fusion(Fusion(d, s), t), k) == Lu(Fusion(Fusion(d, t), s), k) <==> EchangeEgalEn(d, s, t, k)
    {
      DeltasCommuteAt(d, s, t, k);
    }
    if forall k :: EchangeEgalEn(d, s, t, k) {
      SameReads(Fusion(Fusion(d, s), t), Fusion(Fusion(d, t), s));
    }
  }

  /** Two conflict-free deltas give the same record in either order, exactly under this condition. */
  lemma {:induction false} DeltasCommuteIff(d: Champs, s: Champs, t: Champs)
    requires SansConflit(s, t)
    ensures Fusion(Fusion(d, s), t) == Fusion(Fusion(d, t), s) <==> Commutent(d, s, t)
    decreases Carte(s)
  {
    forall k
      ensures EchangeEgalEn(d, s, t, k) <==> CommuteEn(d, s, t, k)
    {
      if k in s && k in t {
        assert k in Carte(s).champs;
        StoredCopiesCommuteIff(s[k].champs, t[k].champs);
        if k in d && d[k].Carte? {
          DeltasCommuteIff(d[k].champs, s[k].champs, t[k].champs);
        }
      }
    }
    EqualIffEachKey(d, s, t);
    EachKeyCommutes(d, s, t);
  }

  lemma {:induction false} NullFreeShares(s: Champs, t: Champs)
    requires SansNul(s) && SansNul(t)
    ensures NulsCommuns(s, t)
    decreases Carte(s)
  {
    forall k | k in s && k in t && s[k].Carte? && t[k].Carte?
      ensures NulsCommuns(s[k].champs, t[k].champs)
    {
      assert k in Carte(s).champs;
      NullFreeShares(s[k].champs, t[k].champs);
    }
  }

  lemma {:induction false} NullFreeCommutes(d: Champs, s: Champs, t: Champs)
    requires SansNul(s) && SansNul(t)
    ensures Commutent(d, s, t)
    decreases Carte(s)
  {
    forall k | k in s && k in t && s[k].Carte? && t[k].Carte?
      ensures if k in d && d[k].Carte? then Commutent(d[k].champs, s[k].champs, t[k].champs)
              else NulsCommuns(s[k].champs, t[k].champs)
    {
      assert k in Carte(s).champs;
      if k in d && d[k].Carte? {
        NullFreeCommutes(d[k].champs, s[k].champs, t[k].champs);
      } else {
        NullFreeShares(s[k].champs, t[k].champs);
      }
    }
  }

  lemma NullFreeDeltasCommute(d: Champs, s: Champs, t: Champs)
    requires SansConflit(s, t) && SansNul(s) && SansNul(t)
    ensures Fusion(Fusion(d, s), t) == Fusion(Fusion(d, t), s)
  {
    NullFreeCommutes(d, s, t);
    DeltasCommuteIff(d, s, t);
  }

  // ---- what a reader finds at a path ----

  function LuChemin(m: Champs, chemin: seq<string>): Option<Valeur>
    requires chemin != []
    decreases |chemin|
  {
    if chemin[0] !in m then None
    else if |chemin| == 1 then Some(m[chemin[0]])
    else if m[chemin[0]].Carte? then LuChemin(m[chemin[0]].champs, chemin[1..])
    else None
  }

  /** The delta's maps lead along the path up to a key they do not mention. */
  ghost predicate PasMentionne(s: Champs, chemin: seq<string>)
    requires chemin != []
    decreases |chemin|
  {
    chemin[0] !in s || (|chemin| > 1 && s[chemin[0]].Carte? && PasMentionne(s[chemin[0]].champs, chemin[1..]))
  }

  lemma {:induction false} MissingInStoredCopy(s: Champs, chemin: seq<string>)
    requires chemin != [] && PasMentionne(s, chemin)
    ensures LuChemin(NormChamps(s), chemin) == None
    decreases |chemin|
  {
    if chemin[0] in s {
      MissingInStoredCopy(s[chemin[0]].champs, chemin[1..]);
    }
  }

  /** Whatever the delta does not mention, at any depth, reads the same after the merge. */
  lemma {:induction false} UnmentionedPathsUnchanged(d: Champs, s: Champs, chemin: seq<string>)
    requires chemin != [] && PasMentionne(s, chemin)
    ensures LuChemin(Fusion(d, s), chemin) == LuChemin(d, chemin)
    decreases |chemin|
  {
    var k := chemin[0];
    FusionAt(d, s, k);
    if k in s {
      if k in d && d[k].Carte? {
        UnmentionedPathsUnchanged(d[k].champs, s[k].champs, chemin[1..]);
      } else {
        MissingInStoredCopy(s[k].champs, chemin[1..]);
      }
    }
  }

  lemma {:induction false} WrittenInStoredCopy(s: Champs, chemin: seq<string>)
    requires chemin != [] && LuChemin(s, chemin).Some?
    ensures LuChemin(NormChamps(s), chemin) == Some(NormStored(LuChemin(s, chemin).value))
    decreases |chemin|
  {
    if |chemin| > 1 {
      WrittenInStoredCopy(s[chemin[0]].champs, chemin[1..]);
    }
  }

  /** What the delta says about a path, other than a map or a null, is what the record then holds there. */
  lemma {:induction false} WrittenPathsReadBack(d: Champs, s: Champs, chemin: seq<string>)
    requires chemin != [] && LuChemin(s, chemin).Some?
    requires !LuChemin(s, chemin).value.Carte? && !LuChemin(s, chemin).value.Nul?
    ensures LuChemin(Fusion(d, s), chemin) == Some(NormStored(LuChemin(s, chemin).value))
    decreases |chemin|
  {
    var k := chemin[0];
    FusionAt(d, s, k);
    if |chemin| > 1 {
      if k in d && d[k].Carte? {
        WrittenPathsReadBack(d[k].champs, s[k].champs, chemin[1..]);
      } else {
        WrittenInStoredCopy(s[k].champs, chemin[1..]);
      }
    }
  }

  /** So an array, a text or a number given by the delta is in the record as given, but for empty arrays, at any depth. */
  lemma WrittenValuesAreKept(d: Champs, s: Champs, chemin: seq<string>, acces: seq<Acces>)
    requires chemin != [] && LuChemin(s, chemin).Some?
    requires !LuChemin(s, chemin).value.Carte? && !LuChemin(s, chemin).value.Nul?
    ensures LuChemin(Fusion(d, s), chemin).Some?
    ensures var donne, range := LuChemin(s, chemin).value, LuChemin(Fusion(d, s), chemin).value;
            && (LuEn(range, acces).Some? <==> LuEn(donne, acces).Some?)
            && (LuEn(donne, acces).Some? ==> Rangee(LuEn(donne, acces).value, LuEn(range, acces).value))
            && (SansTableauVide(donne) ==> range == donne)
  {
    WrittenPathsReadBack(d, s, chemin);
    StoredAtEveryPath(LuChemin(s, chemin).value, acces);
    StoredAsIsIff(LuChemin(s, chemin).value);
  }

  /** The record has maps all along the path, its last step excepted. */
  predicate CartesJusque(d: Champs, chemin: seq<string>)
    requires chemin != []
    decreases |chemin|
  {
    |chemin| == 1 || (chemin[0] in d && d[chemin[0]].Carte? && CartesJusque(d[chemin[0]].champs, chemin[1..]))
  }

  /** A null of the delta deletes what the record holds there; in a map the record lacked it is stored. */
  lemma {:induction false} NullDeletesIff(d: Champs, s: Champs, chemin: seq<string>)
    requires chemin != [] && LuChemin(s, chemin) == Some(Nul)
    ensures LuChemin(Fusion(d, s), chemin) == if CartesJusque(d, chemin) then None else Some(Nul)
    decreases |chemin|
  {
    var k := chemin[0];
    FusionAt(d, s, k);
    if |chemin| > 1 {
      if k in d && d[k].Carte? {
        NullDeletesIff(d[k].champs, s[k].champs, chemin[1..]);
      } else {
        WrittenInStoredCopy(s[k].champs, chemin[1..]);
      }
    }
  }

  /** Where the delta has a map the record then has one. */
  lemma {:induction false} MapsStayMaps(d: Champs, s: Champs, chemin: seq<string>)
    requires chemin != [] && LuChemin(s, chemin).Some? && LuChemin(s, chemin).value.Carte?
    ensures LuChemin(Fusion(d, s), chemin).Some? && LuChemin(Fusion(d, s), chemin).value.Carte?
    decreases |chemin|
  {
    var k := chemin[0];
    FusionAt(d, s, k);
    if |chemin| > 1 {
      if k in d && d[k].Carte? {
        MapsStayMaps(d[k].champs, s[k].champs, chemin[1..]);
      } else {
        WrittenInStoredCopy(s[k].champs, chemin[1..]);
      }
    }
  }
}
