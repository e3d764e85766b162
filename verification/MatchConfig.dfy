/**
 Matchmaking configurations and the room capacity each of them calls for (matchmaking.go).
 */
module MatchConfig {
  import opened Texte

  const SANS_CONFIGURATION := "sans_configuration"

  const PREFIXE := "tenants/t-dce9377b-lp1/matchmakingConfigs/"

  /** s3ConfigEcho for our tenant: the path a ticket carries once its alias is resolved. */
  function ConfigEcho(cfg: string): string {
    PREFIXE + DernierSegment(cfg)
  }

  /** A configuration path whose alias has been resolved; every queued ticket carries one. */
  predicate Resolue(chemin: string) {
    chemin == ConfigEcho(chemin)
  }

  function BaseConfigName(cfg: string): string {
    if cfg == "" then SANS_CONFIGURATION else DernierSegment(cfg)
  }

  predicate EstVersus(cfg: string) {
    Contient(cfg, "regular") || Contient(cfg, "bankara") || Contient(cfg, "league") || Contient(cfg, "x_match") || Contient(cfg, "fest")
  }

  function S3RoomCapacity(cfg: string, repli: nat): nat {
    if Contient(cfg, "coop") then 4
    else if Contient(cfg, "private_match") then 10
    else if EstVersus(cfg) then 8
    else repli
  }

  lemma DernierSegmentDe(p: string, s: string)
    requires p != "" && p[|p| - 1] == '/' && '/' !in s
    ensures DernierSegment(p + s) == s
    decreases |s|
  {
    if s == "" {
      assert p + s == p;
    } else {
      assert (p + s)[..|p + s| - 1] == p + s[..|s| - 1];
      DernierSegmentDe(p, s[..|s| - 1]);
    }
  }

  lemma OccurrenceDansPrefixe(p: string, s: string, mot: string, i: nat)
    requires p != "" && p[|p| - 1] == '/' && i < |p| && i <= |p + s| && mot <= (p + s)[i..]
    ensures if i + |mot| <= |p| then mot <= p[i..] else '/' in mot
  {
    if i + |mot| <= |p| {
      assert mot == (p + s)[i..][..|mot|] == p[i..][..|mot|];
    } else {
      assert mot[|p| - 1 - i] == (p + s)[i..][|p| - 1 - i];
    }
  }

  /** A keyword without '/' cannot straddle a path prefix that ends in '/'. */
  lemma ContientApresPrefixe(p: string, s: string, mot: string)
    requires p != "" && p[|p| - 1] == '/' && mot != "" && '/' !in mot && !Contient(p, mot)
    ensures Contient(p + s, mot) <==> Contient(s, mot)
  {
    ContientIff(p, mot);
    ContientIff(s, mot);
    ContientIff(p + s, mot);
    if i :| 0 <= i <= |s| && mot <= s[i..] {
      assert (p + s)[|p| + i..] == s[i..];
    }
    if Contient(p + s, mot) {
      var i :| 0 <= i <= |p + s| && mot <= (p + s)[i..];
      assert i >= |p| ==> (p + s)[i..] == s[i - |p|..];
      if i < |p| {
        OccurrenceDansPrefixe(p, s, mot, i);
      }
    }
  }

  lemma SansPaire(p: string, mot: string, k: nat)
    requires k + 1 < |mot|
    requires forall i :: 0 <= i < |p| - 1 ==> p[i] != mot[k] || p[i + 1] != mot[k + 1]
    ensures !Contient(p, mot)
  {
    ContientIff(p, mot);
    forall i | 0 <= i <= |p|
      ensures !(mot <= p[i..])
    {
      if i + |mot| <= |p| {
        assert p[i + k] != mot[k] || p[i + k + 1] != mot[k + 1];
        assert p[i..][k] == p[i + k] && p[i..][k + 1] == p[i + k + 1];
      }
    }
  }

  /** The keywords the capacity looks for. */
  ghost predicate SansMotCle(p: string) {
    && !Contient(p, "coop") && !Contient(p, "private_match") && !Contient(p, "regular") && !Contient(p, "bankara")
    && !Contient(p, "league") && !Contient(p, "x_match") && !Contient(p, "fest")
  }

  lemma PrefixeSans(p: string, c: char)
    requires p == PREFIXE && (c == 'r' || c == 'u' || c == 'x')
    ensures c !in p
  {
  }

  lemma SansLettre(p: string, mot: string, k: nat)
    requires k < |mot| && mot[k] !in p
    ensures !Contient(p, mot)
  {
    ContientIff(p, mot);
    forall i | 0 <= i <= |p|
      ensures !(mot <= p[i..])
    {
      if i + |mot| <= |p| {
        assert p[i..][k] == p[i + k] && p[i + k] in p;
      }
    }
  }

  lemma SansMotCleSi(p: string)
    requires 'r' !in p && 'u' !in p && 'x' !in p
    requires forall i :: 0 <= i < |p| - 1 ==> p[i] != 'o' || p[i + 1] != 'o'
    requires forall i :: 0 <= i < |p| - 1 ==> p[i] != 'f' || p[i + 1] != 'e'
    ensures SansMotCle(p)
  {
    SansPaire(p, "coop", 1);
    SansLettre(p, "private_match", 1);
    SansLettre(p, "regular", 0);
    SansLettre(p, "bankara", 5);
    SansLettre(p, "league", 4);
    SansLettre(p, "x_match", 0);
    SansPaire(p, "fest", 0);
  }

  lemma PrefixeSansMotCle(p: string)
    requires p == PREFIXE
    ensures SansMotCle(p)
  {
    PrefixeSans(p, 'r');
    PrefixeSans(p, 'u');
    PrefixeSans(p, 'x');
    SansMotCleSi(p);
  }

  lemma CapaciteApresPrefixe(p: string, base: string, repli: nat)
    requires p != "" && p[|p| - 1] == '/' && SansMotCle(p)
    ensures S3RoomCapacity(p + base, repli) == S3RoomCapacity(base, repli)
  {
    ContientApresPrefixe(p, base, "coop");
    ContientApresPrefixe(p, base, "private_match");
    ContientApresPrefixe(p, base, "regular");
    ContientApresPrefixe(p, base, "bankara");
    ContientApresPrefixe(p, base, "league");
    ContientApresPrefixe(p, base, "x_match");
    ContientApresPrefixe(p, base, "fest");
  }

  /** The capacity announced from the resolved path is the capacity of the mode's base name. */
  lemma CapacityOfPath(chemin: string, repli: nat)
    requires Resolue(chemin)
    ensures S3RoomCapacity(chemin, repli) == S3RoomCapacity(BaseConfigName(chemin), repli)
  {
    var p :| p == PREFIXE;
    PrefixeSansMotCle(p);
    CapaciteApresPrefixe(p, DernierSegment(chemin), repli);
  }
}
