/** User ids as the ban commands take them (ban.go): a path, a file name or the id itself. */
module BanIds {
  import opened Wrappers
  import opened Texte

  predicate EstBlanc(c: char) {
    c == ' ' || '\t' <= c <= '\r' || c == '\U{0085}' || c == '\U{00A0}' || c == '\U{1680}' || '\U{2000}' <= c <= '\U{200A}'
    || c == '\U{2028}' || c == '\U{2029}' || c == '\U{202F}' || c == '\U{205F}' || c == '\U{3000}'
  }

  function SansBlancGauche(s: string): string {
    if s != "" && EstBlanc(s[0]) then SansBlancGauche(s[1..]) else s
  }

  function SansBlancDroite(s: string): string {
    if s != "" && EstBlanc(s[|s| - 1]) then SansBlancDroite(s[..|s| - 1]) else s
  }

  /** strings.TrimSpace */
  function SansBlancs(s: string): string {
    SansBlancDroite(SansBlancGauche(s))
  }

  /** strings.TrimSuffix */
  function SansSuffixe(s: string, fin: string): string {
    if |fin| <= |s| && s[|s| - |fin|..] == fin then s[..|s| - |fin|] else s
  }

  const PREFIXE := "u-"

  function CleanBanUID(uid: string): string {
    var u := SansSuffixe(SansSuffixe(DernierSegment(SansBlancs(uid)), ".record.pb"), ".save");
    if u != "" && !(PREFIXE <= u) then PREFIXE + u else u
  }

  predicate CaractereSur(c: char) {
    'a' <= c <= 'z' || 'A' <= c <= 'Z' || '0' <= c <= '9' || c == '-' || c == '_'
  }

  predicate Sur(s: string) {
    forall i :: 0 <= i < |s| ==> CaractereSur(s[i])
  }

  predicate ValidBanUID(uid: string) {
    var u := CleanBanUID(uid);
    1 <= |u| <= 128 && Sur(u)
  }

  // ---- account numbers ----

  const DEUX64 := 0x1_0000_0000_0000_0000

  predicate Chiffres(s: string) {
    forall i :: 0 <= i < |s| ==> '0' <= s[i] <= '9'
  }

  function Decimal(s: string): nat
    requires Chiffres(s)
  {
    if s == "" then 0 else Decimal(s[..|s| - 1]) * 10 + (s[|s| - 1] as int - '0' as int)
  }

  /** strconv.ParseUint(s, 10, 64) */
  function ParseUint(s: string): Option<nat> {
    if s != "" && Chiffres(s) && Decimal(s) < DEUX64 then Some(Decimal(s)) else None
  }

  lemma NoBlankToTrim(s: string)
    requires Sur(s)
    ensures SansBlancs(s) == s
  {
  }

  lemma {:induction false} NoSlashToCut(s: string)
    requires Sur(s)
    ensures DernierSegment(s) == s
  {
  }

  lemma NoSuffixToCut(s: string, fin: string)
    requires Sur(s) && fin != "" && fin[0] == '.'
    ensures SansSuffixe(s, fin) == s
  {
  }

  lemma NothingToClean(s: string)
    requires s == ""
    ensures CleanBanUID(s) == s
  {
    assert SansSuffixe(s, ".record.pb") == s && SansSuffixe(s, ".save") == s;
  }

  /** A valid id is clean once cleaned, although cleaning in general is not done in one pass. */
  lemma ValidIsCleanOnce(uid: string)
    requires ValidBanUID(uid)
    ensures CleanBanUID(uid) != ""
    ensures CleanBanUID(CleanBanUID(uid)) == CleanBanUID(uid) && ValidBanUID(CleanBanUID(uid))
  {
    var u := CleanBanUID(uid);
    NoBlankToTrim(u);
    NoSlashToCut(u);
    NoSuffixToCut(u, ".record.pb");
    NoSuffixToCut(u, ".save");
    assert PREFIXE <= u;
  }

  /** Cleaning once may not be enough: two suffixes in the unusual order leave one behind. */
  lemma CleaningOnceMayNotBeEnough(u: string, v: string, w: string)
    requires u == "u-x" && v == ".record.pb" && w == ".save"
    ensures CleanBanUID(u + v + w) == u + v && CleanBanUID(u + v) == u
  {
    CleanOfPlain(u + v + w);
    NotSuffix(u + v + w, v);
    SuffixOff(u + v, w);
    CleanOfPlain(u + v);
    SuffixOff(u, v);
    NotSuffix(u, w);
    assert PREFIXE <= u;
  }

  lemma SuffixOff(s: string, fin: string)
    ensures SansSuffixe(s + fin, fin) == s
  {
    assert (s + fin)[|s|..] == fin && (s + fin)[..|s|] == s;
  }

  lemma NotSuffix(s: string, fin: string)
    requires |fin| > |s| || (fin != "" && s[|s| - 1] != fin[|fin| - 1])
    ensures SansSuffixe(s, fin) == s
  {
  }

  /** Neither blanks nor slashes to take away. */
  lemma CleanOfPlain(s: string)
    requires '/' !in s && (forall i :: 0 <= i < |s| ==> !EstBlanc(s[i])) && |s| > 0
    ensures SansBlancs(s) == s && DernierSegment(s) == s
  {
  }

  // ---- what the spellings of one id have in common ----

  ghost predicate Blancs(s: string) {
    forall i :: 0 <= i < |s| ==> EstBlanc(s[i])
  }

  lemma {:induction false} BlanksOffLeft(g: string, s: string)
    requires Blancs(g) && (s == "" || !EstBlanc(s[0]))
    ensures SansBlancGauche(g + s) == s
    decreases |g|
  {
    if g == "" {
      assert g + s == s;
    } else {
      assert (g + s)[1..] == g[1..] + s;
      BlanksOffLeft(g[1..], s);
    }
  }

  lemma {:induction false} BlanksOffRight(s: string, h: string)
    requires Blancs(h) && (s == "" || !EstBlanc(s[|s| - 1]))
    ensures SansBlancDroite(s + h) == s
    decreases |h|
  {
    if h == "" {
      assert s + h == s;
    } else {
      assert (s + h)[..|s + h| - 1] == s + h[..|h| - 1];
      BlanksOffRight(s, h[..|h| - 1]);
    }
  }

  /** Blanks around a text are dropped, and nothing else of it. */
  lemma BlanksOff(g: string, s: string, h: string)
    requires Blancs(g) && Blancs(h) && s != "" && !EstBlanc(s[0]) && !EstBlanc(s[|s| - 1])
    ensures SansBlancs(g + s + h) == s
  {
    assert g + s + h == g + (s + h);
    BlanksOffLeft(g, s + h);
    BlanksOffRight(s, h);
  }

  lemma {:induction false} LastOfPath(d: string, s: string)
    requires (d == "" || d[|d| - 1] == '/') && '/' !in s
    ensures DernierSegment(d + s) == s
    decreases |s|
  {
    if s == "" {
      assert d + s == d;
    } else {
      assert (d + s)[..|d + s| - 1] == d + s[..|s| - 1];
      LastOfPath(d, s[..|s| - 1]);
    }
  }

  /** The ends of the server's own file names. */
  ghost predicate FinDeFichier(fin: string) {
    fin == "" || fin == ".record.pb" || fin == ".save" || fin == ".save.record.pb"
  }

  /** The suffixes of a plain name come off, in the order of the server's file names. */
  lemma NameOfFile(x: string, fin: string, v: string, w: string)
    requires Sur(x) && x != "" && FinDeFichier(fin) && v == ".record.pb" && w == ".save"
    ensures SansSuffixe(SansSuffixe(x + fin, v), w) == x
  {
    NoSuffixToCut(x, v);
    NoSuffixToCut(x, w);
    assert x + "" == x;
    if fin == v {
      SuffixOff(x, v);
    } else if fin == w {
      NotSuffix(x + w, v);
      SuffixOff(x, w);
    } else if fin != "" {
      assert x + fin == (x + w) + v;
      SuffixOff(x + w, v);
      SuffixOff(x, w);
    }
  }

  /**
   However a player's id is given, as a path, as the name of its file, with or without the prefix, with blanks around it,
   cleaning finds the one id.
   */
  lemma SpellingsOfOneId(g: string, d: string, x: string, fin: string, h: string)
    requires Blancs(g) && Blancs(h) && Sur(x) && x != "" && FinDeFichier(fin)
    requires d == "" || (!EstBlanc(d[0]) && d[|d| - 1] == '/')
    ensures CleanBanUID(g + (d + (x + fin)) + h) == if "u-" <= x then x else "u-" + x
  {
    var s := d + (x + fin);
    var u := x + fin;
    FileNameEnds(x, fin);
    assert s[|s| - 1] == u[|u| - 1] && s[0] == if d == "" then x[0] else d[0];
    BlanksOff(g, s, h);
    LastOfPath(d, u);
    NameOfFile(x, fin, ".record.pb", ".save");
  }

  lemma FileNameEnds(x: string, fin: string)
    requires Sur(x) && x != "" && FinDeFichier(fin)
    ensures '/' !in x + fin && !EstBlanc((x + fin)[|x + fin| - 1]) && !EstBlanc(x[0])
  {
    assert '/' !in ".record.pb" && '/' !in ".save" && '/' !in ".save.record.pb";
  }

  /** Of ids that carry the prefix and no blank, slash or dot, the valid ones are those of at most 128 characters. */
  lemma ValidIffShort(x: string)
    requires Sur(x) && "u-" <= x
    ensures ValidBanUID(x) <==> |x| <= 128
  {
    assert "" + ("" + (x + "")) + "" == x;
    SpellingsOfOneId("", "", x, "", "");
  }

  /** Any other character in the id, and it is refused. */
  lemma UnsafeIsRefused(x: string, i: nat)
    requires i < |CleanBanUID(x)| && !CaractereSur(CleanBanUID(x)[i])
    ensures !ValidBanUID(x)
  {
  }

  /** Where the ranges of safe and of blank characters end. */
  lemma EdgesOfTheRanges(c: char)
    ensures c in "azAZ09-_" ==> CaractereSur(c)
    ensures c in "@[`{/:.,^ " ==> !CaractereSur(c)
    ensures c in {'\t', '\n', '\r', ' ', '\U{2000}', '\U{200A}'} ==> EstBlanc(c)
    ensures c in {'\U{0008}', '\U{000E}', '!', '\U{1FFF}', '\U{200B}'} || CaractereSur(c) ==> !EstBlanc(c)
  {
  }

  // ---- numbers ----

  function Chiffre(d: nat): char
    requires d < 10
  {
    ('0' as int + d) as char
  }

  /** A number in decimal, without a leading zero. */
  function EcritDecimal(n: nat): (s: string)
    ensures s != "" && Chiffres(s)
  {
    if n < 10 then [Chiffre(n)] else EcritDecimal(n / 10) + [Chiffre(n % 10)]
  }

  lemma {:induction false} DecimalBack(n: nat)
    ensures Decimal(EcritDecimal(n)) == n
  {
    if n >= 10 {
      DecimalBack(n / 10);
      var s := EcritDecimal(n);
      assert s[..|s| - 1] == EcritDecimal(n / 10);
    } else {
      var s := EcritDecimal(n);
      assert s[..0] == "" && Decimal(s[..0]) == 0;
    }
  }

  /** A written number of 64 bits is read back; a larger one, or anything but digits, is no number. */
  lemma NumberRoundTrip(n: nat)
    ensures ParseUint(EcritDecimal(n)) == if n < DEUX64 then Some(n) else None
  {
    DecimalBack(n);
  }

  lemma DigitsAreNoBlanks(n: nat, g: string, h: string)
    requires Blancs(g) && Blancs(h)
    ensures SansBlancs(g + EcritDecimal(n) + h) == EcritDecimal(n)
  {
    BlanksOff(g, EcritDecimal(n), h);
  }
}
