/**
 The matchmaker object (matchmaking.go): its list of waiters filtered in place, its channels, and the
 methods that run under its lock. Each method takes exactly the step of `MatchQueue` it is named after.
 */
module Matchmaker {
  import opened Wrappers
  import opened Texte
  import opened CampSplit
  import opened MatchConfig
  import opened MatchQueue

  lemma OthersDiffer(a: seq<Attente>, w: Attente, b: seq<Attente>)
    requires IdsDistincts(a + [w] + b)
    ensures IdsDe(a) !! {w.id} && IdsDe(b) !! {w.id}
  {
    var l := a + [w] + b;
    assert l[|a|] == w;
    assert forall i :: 0 <= i < |a| ==> l[i] == a[i];
    assert forall i :: 0 <= i < |b| ==> l[|a| + 1 + i] == b[i];
  }

  /** Taking one waiter out of a list leaves the others where they are. */
  lemma TakeOneOut(a: seq<Attente>, w: Attente, b: seq<Attente>)
    requires IdsDistincts(a + [w] + b)
    ensures Restants(a + [w] + b, {w.id}) == a + b
  {
    OthersDiffer(a, w, b);
    RestantsConcat(a + [w], b, {w.id});
    RestantsAjout(a, w, {w.id});
    RestantsRien(a, {w.id});
    RestantsRien(b, {w.id});
    assert a + [] == a;
  }

  lemma {:induction false} RestantsConcat(a: seq<Attente>, b: seq<Attente>, sortis: set<nat>)
    ensures Restants(a + b, sortis) == Restants(a, sortis) + Restants(b, sortis)
  {
    if b == [] {
      assert a + b == a;
    } else {
      RestantsConcat(a, b[..|b| - 1], sortis);
      assert (a + b)[..|a + b| - 1] == a + b[..|b| - 1];
    }
  }

  lemma SplitIsNeverEmpty(d: seq<Attente>, cfg: string, g: Reglages, r: Repartition)
    requires Scission(d, cfg, g, r) && Seuil(cfg, g) >= 2
    ensures r.choisis != []
  {
  }

  function SessionDe(players: seq<Attente>, creneau: map<nat, string>, g: Reglages): Session
    requires players != []
  {
    Session(g.mode(players[0].config), players, g.capacite(players[0].config, |players|), creneau)
  }

  lemma FestivalComposes(ws: seq<Attente>, cfg: string, g: Reglages, r: Repartition)
    requires PeutFormer(ws, cfg, g) && g.festival(cfg) && Scission(Distincts(ws, cfg, g), cfg, g, r)
    ensures var l := Coupe(r.choisis, Seuil(cfg, g));
            l != [] && Compose(ws, cfg, g, SessionDe(l, r.creneau, g))
  {
    SplitIsNeverEmpty(Distincts(ws, cfg, g), cfg, g, r);
    var l := Coupe(r.choisis, Seuil(cfg, g));
    var s := SessionDe(l, r.creneau, g);
    assert Scission(Distincts(ws, cfg, g), cfg, g, r) && s.joueurs == l && s.creneau == r.creneau;
  }

  lemma OrdinaryComposes(ws: seq<Attente>, cfg: string, g: Reglages)
    requires PeutFormer(ws, cfg, g) && !g.festival(cfg)
    ensures var l := Coupe(Distincts(ws, cfg, g), Seuil(cfg, g));
            l != [] && Compose(ws, cfg, g, SessionDe(l, map[], g))
  {
  }

  /** The state once the first i of these cancelled waiters have been told. */
  ghost function ApresConclusions(f: File, autres: seq<Attente>, annules: seq<Attente>, i: nat): File
    requires i <= |annules|
  {
    Remplis(f, IdsDe(annules[..i]), Annule).(annules := autres + annules[i..])
  }

  lemma ConcludeOne(f: File, autres: seq<Attente>, annules: seq<Attente>, i: nat, g: Reglages)
    requires i < |annules| && Inv(ApresConclusions(f, autres, annules, i))
    ensures var a := ApresConclusions(f, autres, annules, i);
            var b := ApresConclusions(f, autres, annules, i + 1);
            && annules[i].id !in a.canaux && b == Envoie(a, annules[i].id, Annule).(annules := b.annules)
            && Suivant(a, b, ConclureAnnulation(annules[i]), g)
  {
    var a := ApresConclusions(f, autres, annules, i);
    var w := annules[i];
    assert a.annules == autres + [w] + annules[i + 1..];
    assert a.annules[|autres|] == w;
    assert w in a.annules && w.id in IdsDe(a.annules);
    TakeOneOut(autres, w, annules[i + 1..]);
    IdsAjout(annules[..i], w);
    assert annules[..i + 1] == annules[..i] + [w];
    ToldOnce(f, annules, i);
  }

  lemma ToldOnce(f: File, annules: seq<Attente>, i: nat)
    requires i < |annules| && IdsDe(annules[..i + 1]) == IdsDe(annules[..i]) + {annules[i].id}
    requires annules[i].id !in Remplis(f, IdsDe(annules[..i]), Annule).canaux
    ensures Envoie(Remplis(f, IdsDe(annules[..i]), Annule), annules[i].id, Annule)
         == Remplis(f, IdsDe(annules[..i + 1]), Annule)
  {
    OneMoreSend(f, IdsDe(annules[..i]), annules[i].id, Annule);
  }

  lemma NoConclusionYet(f: File, autres: seq<Attente>, annules: seq<Attente>)
    requires f.annules == autres + annules
    ensures ApresConclusions(f, autres, annules, 0) == f
  {
  }

  lemma ConclusionKeepsInv(f: File, autres: seq<Attente>, annules: seq<Attente>, i: nat, g: Reglages)
    requires i < |annules| && Inv(ApresConclusions(f, autres, annules, i))
    ensures Inv(ApresConclusions(f, autres, annules, i + 1))
  {
    ConcludeOne(f, autres, annules, i, g);
    ConclureKeepsInv(ApresConclusions(f, autres, annules, i), ApresConclusions(f, autres, annules, i + 1), annules[i], g);
  }

  lemma {:induction false} ConclusionsKeepInv(f: File, autres: seq<Attente>, annules: seq<Attente>, i: nat, g: Reglages)
    requires i <= |annules| && Inv(ApresConclusions(f, autres, annules, 0))
    ensures Inv(ApresConclusions(f, autres, annules, i))
  {
    if i > 0 {
      ConclusionsKeepInv(f, autres, annules, i - 1, g);
      ConclusionKeepsInv(f, autres, annules, i - 1, g);
    }
  }

  lemma ConclusionSteps(f: File, autres: seq<Attente>, annules: seq<Attente>, i: nat, g: Reglages)
    requires i < |annules| && Inv(f) && f.annules == autres + annules
    ensures var a := ApresConclusions(f, autres, annules, i);
            var b := ApresConclusions(f, autres, annules, i + 1);
            && annules[i].id !in a.canaux && b.canaux == a.canaux[annules[i].id := Annule]
            && Suivant(a, b, ConclureAnnulation(annules[i]), g)
  {
    NoConclusionYet(f, autres, annules);
    ConclusionsKeepInv(f, autres, annules, i, g);
    ConcludeOne(f, autres, annules, i, g);
  }

  /** Telling every cancelled waiter is one step each, and sends each exactly its CANCELLED ticket. */
  lemma ConclusionRun(f: File, autres: seq<Attente>, annules: seq<Attente>, g: Reglages) returns (fs: seq<File>)
    requires Inv(f) && f.annules == autres + annules
    ensures |fs| == |annules| + 1 && fs[0] == f
    ensures fs[|annules|] == Remplis(f, IdsDe(annules), Annule).(annules := autres) && Inv(fs[|annules|])
    ensures forall i :: 0 <= i < |annules| ==> Suivant(fs[i], fs[i + 1], ConclureAnnulation(annules[i]), g)
  {
    fs := seq(|annules| + 1, i requires 0 <= i <= |annules| => ApresConclusions(f, autres, annules, i));
    forall i | 0 <= i < |annules|
      ensures Suivant(fs[i], fs[i + 1], ConclureAnnulation(annules[i]), g)
    {
      ConclusionSteps(f, autres, annules, i, g);
    }
    NoConclusionYet(f, autres, annules);
    ConclusionsKeepInv(f, autres, annules, |annules|, g);
    assert annules[..|annules|] == annules && autres + annules[|annules|..] == autres;
  }

  lemma ServingKeepsInv(f: File, cfg: string, s: Session, g: Reglages)
    requires Inv(f) && Compose(f.waiting, cfg, g, s)
    ensures Inv(Sert(f, s))
  {
    RestantsDistincts(f.inscrits, f.issues.Keys);
    RosterOf(f.waiting, cfg, g, s);
    SertKeepsInv(f, s);
  }

  lemma QuitterSplices(f: File, i: nat, g: Reglages)
    requires Inv(f) && i < |f.waiting|
    ensures var w := f.waiting[i];
            var f' := f.(waiting := f.waiting[..i] + f.waiting[i + 1..], issues := f.issues[w.id := Abandonne]);
            Suivant(f, f', Quitter(w), g) && Inv(f')
  {
    var w := f.waiting[i];
    RestantsDistincts(f.inscrits, f.issues.Keys);
    assert f.waiting == f.waiting[..i] + [w] + f.waiting[i + 1..];
    TakeOneOut(f.waiting[..i], w, f.waiting[i + 1..]);
    QuitterKeepsInv(f, f.(waiting := Restants(f.waiting, {w.id}), issues := f.issues[w.id := Abandonne]), w, g);
  }

  class Apparieur {
    const g: Reglages
    var waiting: seq<Attente>
    var canaux: map<nat, Message>
    ghost var vue: File

    ghost predicate Valid()
      reads this
    {
      && vue.waiting == waiting && vue.canaux == canaux && Inv(vue)
      && (forall c :: g.tricolore(c) == EstTricolore(c, g.fete))
    }

    constructor (repli: nat, fete: Fete)
      ensures Valid() && vue == VIDE && g == ReglagesDuServeur(repli, fete)
    {
      g := ReglagesDuServeur(repli, fete);
      waiting, canaux := [], map[];
      vue := VIDE;
    }

    /** The distinct players waiting for this mode, in arrival order. */
    method WaitersForConfigLocked(cfg: string) returns (out: seq<Attente>)
      ensures out == Distincts(waiting, cfg, g)
    {
      var seen: set<string> := {};
      out := [];
      for i := 0 to |waiting|
        invariant out == Distincts(waiting[..i], cfg, g)
        invariant forall u :: u in seen <==> exists v :: v in out && v.uid == u
      {
        var w := waiting[i];
        OneMoreDistinct(waiting[..i], w, cfg, g);
        assert waiting[..i + 1] == waiting[..i] + [w] && (waiting[..i] + [w])[..i] == waiting[..i];
        if g.mode(w.config) != cfg {
          continue;
        }
        if w.uid != "" && w.uid in seen {
          continue;
        }
        seen := seen + {w.uid};
        out := out + [w];
      }
      assert waiting[..|waiting|] == waiting;
    }

    /** The modes present in the queue, in order of first arrival. */
    method ConfigsEnAttenteLocked() returns (out: seq<string>)
      ensures forall i, j :: 0 <= i < j < |out| ==> out[i] != out[j]
      ensures forall c :: c in out <==> exists w :: w in waiting && ModeDe(w, g) == c
      ensures forall w :: w in waiting ==> ModeDe(w, g) in out
    {
      out := [];
      for i := 0 to |waiting|
        invariant forall j, k :: 0 <= j < k < |out| ==> out[j] != out[k]
        invariant forall c :: c in out ==> exists w :: w in waiting && ModeDe(w, g) == c
        invariant forall j :: 0 <= j < i ==> ModeDe(waiting[j], g) in out
      {
        var cfg := g.mode(waiting[i].config);
        assert waiting[i] in waiting && ModeDe(waiting[i], g) == cfg;
        if cfg !in out {
          out := out + [cfg];
        }
      }
    }

    /** Whom a session of this mode would take now, and in which slot; nobody if it cannot be formed. */
    method ChoisirJoueurs(cfg: string) returns (players: seq<Attente>, creneau: map<nat, string>)
      requires IdsDistincts(waiting) && forall c :: g.tricolore(c) == EstTricolore(c, g.fete)
      ensures players != [] <==> PeutFormer(waiting, cfg, g)
      ensures players != [] ==> Compose(waiting, cfg, g, SessionDe(players, creneau, g))
    {
      players := WaitersForConfigLocked(cfg);
      creneau := map[];
      DistinctsDistincts(waiting, cfg, g);
      var seuil := g.capacite(cfg, g.repli);
      if |players| < seuil {
        return [], map[];
      }
      if g.festival(cfg) {
        var r := Scinder(players, cfg);
        if r.None? {
          return [], map[];
        }
        FestivalComposes(waiting, cfg, g, r.value);
        players, creneau := r.value.choisis, r.value.creneau;
      } else if seuil > 0 {
        OrdinaryComposes(waiting, cfg, g);
      }
      if |players| > seuil {
        players := players[..seuil];
      }
    }

    method Scinder(d: seq<Attente>, cfg: string) returns (r: Option<Repartition>)
      requires IdsDistincts(d) && forall c :: g.tricolore(c) == EstTricolore(c, g.fete)
      ensures r.Some? <==> ScissionPossible(d, cfg, g)
      ensures r.Some? ==> Scission(d, cfg, g, r.value)
    {
      r := RepartirParCamp(d, g.capacite(cfg, g.repli), cfg, g.fete);
    }

    /** Forms one session of this mode if a complete roster is available, and nothing otherwise. */
    method FormMatchLocked(cfg: string)
      requires Valid()
      modifies this
      ensures Valid() && Forme(old(vue), vue, cfg, g)
    {
      RestantsDistincts(vue.inscrits, vue.issues.Keys);
      var players, creneau := ChoisirJoueurs(cfg);
      if players == [] {
        return;
      }
      ServingKeepsInv(vue, cfg, SessionDe(players, creneau, g), g);
      Servir(SessionDe(players, creneau, g), vue);
      vue := Sert(vue, SessionDe(players, creneau, g));
    }

    /** Puts each player's finalized ticket in its channel, unless the slot is taken. */
    method Distribuer(session: Session, ghost f: File)
      requires canaux == f.canaux
      modifies this`canaux
      ensures canaux == EnvoieTous(f, session.joueurs, Reussi(session)).canaux
    {
      var joueurs := session.joueurs;
      for i := 0 to |joueurs|
        invariant canaux == EnvoieTous(f, joueurs[..i], Reussi(session)).canaux
      {
        var w := joueurs[i];
        assert joueurs[..i + 1][..i] == joueurs[..i];
        if w.id !in canaux {
          canaux := canaux[w.id := Reussi(session)];
        }
      }
      assert joueurs[..|joueurs|] == joueurs;
    }

    /** Hands the tickets out and filters the served waiters out of the list, in place. */
    method Servir(session: Session, ghost f: File)
      requires waiting == f.waiting && canaux == f.canaux
      modifies this`waiting, this`canaux
      ensures waiting == Sert(f, session).waiting && canaux == Sert(f, session).canaux
    {
      Distribuer(session, f);
      var served := Identites(session.joueurs);
      waiting := Filtrer(served);
    }

    method Identites(ws: seq<Attente>) returns (ids: set<nat>)
      ensures ids == IdsDe(ws)
    {
      ids := {};
      for i := 0 to |ws|
        invariant ids == IdsDe(ws[..i])
      {
        IdsAjout(ws[..i], ws[i]);
        assert ws[..i + 1] == ws[..i] + [ws[i]];
        ids := ids + {ws[i].id};
      }
      assert ws[..|ws|] == ws;
    }

    /** `rest := m.waiting[:0]`: keeps, in order, the waiters that are not leaving. */
    method Filtrer(sortis: set<nat>) returns (rest: seq<Attente>)
      ensures rest == Restants(waiting, sortis)
    {
      rest := [];
      for i := 0 to |waiting|
        invariant rest == Restants(waiting[..i], sortis)
      {
        RestantsAjout(waiting[..i], waiting[i], sortis);
        assert waiting[..i + 1] == waiting[..i] + [waiting[i]];
        if waiting[i].id !in sortis {
          rest := rest + [waiting[i]];
        }
      }
      assert waiting[..|waiting|] == waiting;
    }

    /** The pooling part of TrackMatchmakingTicket. */
    method Rejoindre(w: Attente)
      requires Valid() && w.id !in IdsDe(vue.inscrits) && g.resolue(w.config)
      modifies this
      ensures Valid() && Suivant(old(vue), vue, MatchQueue.Rejoindre(w), g)
    {
      waiting := waiting + [w];
      vue := vue.(waiting := waiting, inscrits := vue.inscrits + [w]);
      FormMatchLocked(g.mode(w.config));
    }

    /** The periodic recheck: every mode present, one after the other, under one hold of the lock. */
    method Reviser() returns (modes: seq<string>, ghost fs: seq<File>)
      requires Valid()
      modifies this
      ensures Valid() && |fs| == |modes| + 1 && fs[0] == old(vue) && fs[|modes|] == vue
      ensures forall i :: 0 <= i < |modes| ==> Suivant(fs[i], fs[i + 1], MatchQueue.Reviser(modes[i]), g)
      ensures forall w :: w in old(waiting) ==> ModeDe(w, g) in modes
    {
      modes := ConfigsEnAttenteLocked();
      fs := [vue];
      for i := 0 to |modes|
        invariant Valid() && |fs| == i + 1 && fs[0] == old(vue) && fs[i] == vue
        invariant forall j :: 0 <= j < i ==> Suivant(fs[j], fs[j + 1], MatchQueue.Reviser(modes[j]), g)
      {
        FormMatchLocked(modes[i]);
        fs := fs + [vue];
      }
    }

    /**
     Removes the ticket's waiters under the lock, then concludes their streams: one removal step, followed
     by one conclusion for each waiter taken out.
     */
    method CancelMatchmakingTicket(id: string) returns (ghost fs: seq<File>)
      requires Valid()
      modifies this
      ensures Valid() && |fs| == |DuTicket(old(waiting), id)| + 1 && vue == fs[|fs| - 1]
      ensures Suivant(old(vue), fs[0], RetirerTicket(id), g)
      ensures forall i :: 0 <= i < |fs| - 1 ==>
                Suivant(fs[i], fs[i + 1], ConclureAnnulation(DuTicket(old(waiting), id)[i]), g)
      ensures vue == Remplis(old(vue), IdsDe(DuTicket(old(waiting), id)), Annule).(
                       waiting := Restants(old(waiting), IdsDe(DuTicket(old(waiting), id))),
                       issues := Marque(old(vue.issues), IdsDe(DuTicket(old(waiting), id)), Retire))
    {
      var rest, annules := RetirerTicketLocked(id);
      waiting := rest;
      ghost var avant := vue;
      vue := vue.(waiting := rest, annules := vue.annules + annules, issues := Marque(vue.issues, IdsDe(annules), Retire));
      RetirerKeepsInv(avant, vue, id, g);
      fs := ConclureTous(annules, avant.annules);
    }

    /** Each cancelled waiter is sent its CANCELLED ticket, after the lock is released. */
    method ConclureTous(annules: seq<Attente>, ghost autres: seq<Attente>) returns (ghost fs: seq<File>)
      requires Valid() && vue.annules == autres + annules
      modifies this
      ensures Valid() && |fs| == |annules| + 1 && fs[0] == old(vue) && fs[|annules|] == vue
      ensures forall i :: 0 <= i < |annules| ==> Suivant(fs[i], fs[i + 1], ConclureAnnulation(annules[i]), g)
      ensures vue == Remplis(old(vue), IdsDe(annules), Annule).(annules := autres)
    {
      EnvoyerAnnules(annules, vue, autres);
      fs := ConclusionRun(vue, autres, annules, g);
      vue := fs[|annules|];
    }

    method EnvoyerAnnules(annules: seq<Attente>, ghost f: File, ghost autres: seq<Attente>)
      requires Inv(f) && f.annules == autres + annules && canaux == f.canaux
      modifies this`canaux
      ensures canaux == f.canaux + (map id | id in IdsDe(annules) :: Annule)
    {
      NoConclusionYet(f, autres, annules);
      for i := 0 to |annules|
        invariant canaux == ApresConclusions(f, autres, annules, i).canaux
      {
        ConclusionSteps(f, autres, annules, i, g);
        if annules[i].id !in canaux {
          canaux := canaux[annules[i].id := Annule];
        }
      }
      assert annules[..|annules|] == annules;
    }

    method Position(w: Attente) returns (i: nat)
      ensures i <= |waiting| && (i < |waiting| ==> waiting[i] == w) && (i == |waiting| ==> w !in waiting)
    {
      i := 0;
      while i < |waiting| && waiting[i] != w
        invariant i <= |waiting| && w !in waiting[..i]
      {
        i := i + 1;
      }
    }

    /** The client's stream is gone: the waiter leaves the list, if it was still there. */
    method Quitter(w: Attente)
      requires Valid()
      modifies this
      ensures Valid() && Suivant(old(vue), vue, MatchQueue.Quitter(w), g)
    {
      var i := Position(w);
      if i < |waiting| {
        QuitterSplices(vue, i, g);
        waiting := waiting[..i] + waiting[i + 1..];
        vue := vue.(waiting := waiting, issues := vue.issues[w.id := Abandonne]);
      }
    }

    /** The waiter's stream takes its message out of the channel. */
    method Recevoir(id: nat) returns (m: Option<Message>)
      requires Valid()
      modifies this
      ensures Valid() && (m.Some? <==> id in old(canaux)) && (m.Some? ==> m.value == old(canaux)[id])
      ensures if m.Some? then Suivant(old(vue), vue, MatchQueue.Recevoir(id), g) else vue == old(vue)
    {
      if id !in canaux {
        return None;
      }
      m := Some(canaux[id]);
      canaux := canaux - {id};
      vue := vue.(canaux := canaux);
    }

    method RetirerTicketLocked(id: string) returns (rest: seq<Attente>, annules: seq<Attente>)
      ensures annules == DuTicket(waiting, id) && rest == Restants(waiting, IdsDe(annules))
    {
      annules := [];
      for i := 0 to |waiting|
        invariant annules == DuTicket(waiting[..i], id)
      {
        assert waiting[..i + 1][..i] == waiting[..i];
        if waiting[i].ticket == id {
          annules := annules + [waiting[i]];
        }
      }
      assert waiting[..|waiting|] == waiting;
      var ids := Identites(annules);
      rest := Filtrer(ids);
    }
  }
}
