/**
 * The two closed enumerations the loader validates against: the faction
 * names and the discovery states, each with its string form and the
 * membership test that turns an untrusted value into a member.
 */
module Enums {
  import opened Optional
  import opened Json

  /**
   * The faction names. The game's enumeration is longer; the proofs rely only
   * on the members' string values being distinct and none being a decimal
   * numeral, which also holds of the full enumeration.
   */
  datatype FactionName =
    | CyberSec | NiteSec | TheBlackHand | BitRunners
    | Sector12 | Aevum | Chongqing | NewTokyo | Ishima | Volhaven

  /** The string value of each member, which is also its key in a save. */
  function NameString(n: FactionName): string {
    match n
    case CyberSec => "CyberSec"
    case NiteSec => "NiteSec"
    case TheBlackHand => "The Black Hand"
    case BitRunners => "BitRunners"
    case Sector12 => "Sector-12"
    case Aevum => "Aevum"
    case Chongqing => "Chongqing"
    case NewTokyo => "New Tokyo"
    case Ishima => "Ishima"
    case Volhaven => "Volhaven"
  }

  /** The enumeration's values in their declared order. */
  const AllFactionNames: seq<FactionName> :=
    [CyberSec, NiteSec, TheBlackHand, BitRunners, Sector12, Aevum, Chongqing, NewTokyo, Ishima, Volhaven]

  lemma AllFactionNamesComplete()
    ensures forall n: FactionName :: n in AllFactionNames
  {
    forall n: FactionName ensures n in AllFactionNames {
      match n
      case CyberSec => assert AllFactionNames[0] == n;
      case NiteSec => assert AllFactionNames[1] == n;
      case TheBlackHand => assert AllFactionNames[2] == n;
      case BitRunners => assert AllFactionNames[3] == n;
      case Sector12 => assert AllFactionNames[4] == n;
      case Aevum => assert AllFactionNames[5] == n;
      case Chongqing => assert AllFactionNames[6] == n;
      case NewTokyo => assert AllFactionNames[7] == n;
      case Ishima => assert AllFactionNames[8] == n;
      case Volhaven => assert AllFactionNames[9] == n;
    }
  }

  lemma AllFactionNamesDistinct()
    ensures forall i, j :: 0 <= i < j < |AllFactionNames| ==> AllFactionNames[i] != AllFactionNames[j]
  {
  }

  /** Membership test of the faction enumeration: a string is a member when it equals a member's value. */
  function ParseFactionName(s: string): (r: Option<FactionName>)
    ensures r.Some? ==> NameString(r.value) == s
  {
    if s == "CyberSec" then Some(CyberSec)
    else if s == "NiteSec" then Some(NiteSec)
    else if s == "The Black Hand" then Some(TheBlackHand)
    else if s == "BitRunners" then Some(BitRunners)
    else if s == "Sector-12" then Some(Sector12)
    else if s == "Aevum" then Some(Aevum)
    else if s == "Chongqing" then Some(Chongqing)
    else if s == "New Tokyo" then Some(NewTokyo)
    else if s == "Ishima" then Some(Ishima)
    else if s == "Volhaven" then Some(Volhaven)
    else None
  }

  /** Every member's own value passes the test and names that member. */
  lemma ParseNameString(n: FactionName)
    ensures ParseFactionName(NameString(n)) == Some(n)
  {
  }

  /** A string names faction `n` exactly when it is `n`'s value. */
  lemma ParseIff(s: string, n: FactionName)
    ensures ParseFactionName(s) == Some(n) <==> s == NameString(n)
  {
    ParseNameString(n);
  }

  /** No faction is named by an array index, whose key starts with a digit. */
  lemma IndexKeyIsNoFaction(i: nat)
    ensures ParseFactionName(IndexKey(i)) == None
  {
  }

  /** How much the player knows about a faction. */
  datatype Discovery = Known | Rumored | Unknown

  function DiscoveryString(d: Discovery): string {
    match d
    case Known => "known"
    case Rumored => "rumored"
    case Unknown => "unknown"
  }

  /** Membership test of the discovery enumeration on a possibly absent, untyped value. */
  function ParseDiscovery(v: Option<Value>): (r: Option<Discovery>)
    ensures r.Some? ==> v == Some(Str(DiscoveryString(r.value)))
  {
    match v
    case Some(Str(s)) =>
      if s == "known" then Some(Known)
      else if s == "rumored" then Some(Rumored)
      else if s == "unknown" then Some(Unknown)
      else None
    case _ => None
  }

  lemma ParseDiscoveryString(d: Discovery)
    ensures ParseDiscovery(Some(Str(DiscoveryString(d)))) == Some(d)
  {
  }
}
