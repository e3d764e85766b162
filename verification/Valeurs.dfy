/** The value tree of the game's documents and saves (common.Value in the protobuf schema). */
module Valeurs {
  import opened Wrappers

  /** `Vide` is a Value message whose oneof is not set. */
  datatype Valeur =
    | Vide
    | Nul
    | Booleen(b: bool)
    | Entier(i: int)
    | Flottant(r: real)
    | Chaine(s: string)
    | Binaire(o: Octets)
    | Tableau(vs: seq<Valeur>)
    | Carte(champs: map<string, Valeur>)

  type Champs = map<string, Valeur>

  /** One step into a value: a key of a map, or an index of an array. */
  datatype Acces = Cle(k: string) | Indice(i: nat)

  /** What a value holds at the end of these steps. */
  function LuEn(v: Valeur, acces: seq<Acces>): Option<Valeur>
    decreases |acces|
  {
    if acces == [] then Some(v)
    else
      match acces[0]
      case Cle(k) => if v.Carte? && k in v.champs then LuEn(v.champs[k], acces[1..]) else None
      case Indice(i) => if v.Tableau? && i < |v.vs| then LuEn(v.vs[i], acces[1..]) else None
  }
}
