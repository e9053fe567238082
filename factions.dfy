/**
 * The faction registry as the program keeps it: one mutable `Faction` object
 * per faction name, built once at start-up, then updated in place by loading
 * and read by saving. Each operation is proved against the functions of
 * `RegistrySpec`, `LoadSpec` and `ExportSpec`.
 */
module Factions {
  import opened Optional
  import opened Json
  import opened Enums
  import opened FactionEntity
  import opened RegistrySpec
  import opened LoadSpec
  import opened ExportSpec

  class Registry {
    const factions: map<FactionName, Faction>

    /** Exactly one faction object per faction name, each named for its key (so no two keys share an object). */
    ghost predicate Valid() {
      forall n: FactionName :: n in factions && factions[n].name == n
    }

    /** The registry's state as a table. */
    function View(): (t: Table)
      requires Valid()
      reads factions.Values
      ensures Total(t)
    {
      map n | n in factions :: factions[n].State()
    }

    /** When only faction `k`'s object has changed, the table changes at `k` alone. */
    twostate lemma ViewAfterUpdate(k: FactionName)
      requires Valid()
      requires forall n | n != k :: unchanged(factions[n])
      ensures View() == old(View())[k := factions[k].State()]
    {
      var now, was := View(), old(View());
      forall n ensures now[n] == was[k := factions[k].State()][n] {
        if n != k {
          assert unchanged(factions[n]);
        }
      }
    }

    /** Start-up: a fresh faction per name, then every augmentation linked to the factions that offer it. */
    constructor (catalog: seq<Augmentation>)
      ensures Valid() && fresh(factions.Values)
      ensures View() == Bootstrap(catalog)
    {
      var m := NewFactions();
      factions := m;
      new;
      assert View() == DefaultTable();
      AddAugmentations(catalog);
    }

    /** The enum-keyed table of freshly constructed factions. */
    static method NewFactions() returns (m: map<FactionName, Faction>)
      ensures forall n: FactionName :: n in m && m[n].name == n && m[n].State() == DefaultState
      ensures fresh(m.Values)
    {
      m := map[];
      for i := 0 to |AllFactionNames|
        invariant forall n :: n in m <==> n in AllFactionNames[..i]
        invariant forall n | n in m :: fresh(m[n]) && m[n].name == n && m[n].State() == DefaultState
      {
        var f := new Faction(AllFactionNames[i]);
        m := m[AllFactionNames[i] := f];
      }
      assert AllFactionNames[..|AllFactionNames|] == AllFactionNames;
      AllFactionNamesComplete();
    }

    /** The outer bootstrap loop: every augmentation of the catalog, in order. */
    method AddAugmentations(catalog: seq<Augmentation>)
      requires Valid()
      modifies factions.Values
      ensures View() == Attach(old(View()), catalog)
    {
      for i := 0 to |catalog|
        invariant View() == Attach(old(View()), catalog[..i])
      {
        assert catalog[..i + 1][..i] == catalog[..i];
        AddAugmentation(catalog[i]);
      }
      assert catalog[..|catalog|] == catalog;
    }

    /** The inner bootstrap loop: the augmentation's name appended to each faction it lists. */
    method AddAugmentation(aug: Augmentation)
      requires Valid()
      modifies factions.Values
      ensures View() == Push(old(View()), aug.name, aug.factions)
    {
      for j := 0 to |aug.factions|
        invariant View() == Push(old(View()), aug.name, aug.factions[..j])
      {
        assert aug.factions[..j + 1][..j] == aug.factions[..j];
        label L:
        var faction := factions[aug.factions[j]];
        faction.augmentations := faction.augmentations + [aug.name];
        ViewAfterUpdate@L(aug.factions[j]);
      }
      assert aug.factions[..|aug.factions|] == aug.factions;
    }

    /**
     * Loads the saved factions `blob` and reconciles them with the player's
     * joined and invited lists; `enemies` gives each faction's enemies.
     */
    method LoadFactions(blob: Value, player: PlayerSave, enemies: FactionName -> seq<FactionName>)
      requires Valid()
      modifies factions.Values
      ensures View() == Load(old(View()), blob, player, enemies)
    {
      if !Truthy(blob) {
        return;
      }
      if !IsObjectType(blob) {
        return;
      }
      LoadRecords(Entries(blob));
      LoadJoined(player.factions, enemies);
      LoadInvited(player.factionInvitations);
    }

    /** The loop over the saved records: each entry whose key and record pass the guards is applied field by field. */
    method LoadRecords(entries: seq<(string, Value)>)
      requires Valid()
      modifies factions.Values
      ensures View() == ApplyEntries(old(View()), entries)
    {
      for i := 0 to |entries|
        invariant View() == ApplyEntries(old(View()), entries[..i])
      {
        assert entries[..i + 1][..i] == entries[..i];
        var (key, rec) := entries[i];
        var name := ParseFactionName(key);
        if name.None? {
          continue;
        }
        if !Truthy(rec) {
          assert View() == View()[name.value := factions[name.value].State()];
          continue;
        }
        label L:
        var faction := factions[name.value];
        if !IsObjectType(rec) {
          assert View() == View()[name.value := faction.State()];
          continue;
        }
        ApplySaved(faction, rec);
        ViewAfterUpdate@L(name.value);
      }
      assert entries[..|entries|] == entries;
    }

    /** The loop over the joined names: each faction name marks its faction joined, invited and known, and bans its enemies. */
    method LoadJoined(names: seq<string>, enemies: FactionName -> seq<FactionName>)
      requires Valid()
      modifies factions.Values
      ensures View() == JoinAll(old(View()), names, enemies)
    {
      for i := 0 to |names|
        invariant View() == JoinAll(old(View()), names[..i], enemies)
      {
        assert names[..i + 1][..i] == names[..i];
        var name := ParseFactionName(names[i]);
        if name.None? {
          continue;
        }
        label L:
        var faction := factions[name.value];
        faction.isMember := true;
        faction.alreadyInvited := true;
        faction.discovery := Known;
        ViewAfterUpdate@L(name.value);
        BanEnemies(enemies(name.value));
      }
      assert names[..|names|] == names;
    }

    /** The inner loop of the joined pass: every enemy of the joined faction becomes banned. */
    method BanEnemies(foes: seq<FactionName>)
      requires Valid()
      modifies factions.Values
      ensures View() == BanAll(old(View()), foes)
    {
      for j := 0 to |foes|
        invariant View() == BanAll(old(View()), foes[..j])
      {
        assert foes[..j + 1][..j] == foes[..j];
        label L:
        factions[foes[j]].isBanned := true;
        ViewAfterUpdate@L(foes[j]);
      }
      assert foes[..|foes|] == foes;
    }

    /** The loop over the invited names: each faction name marks its faction invited and known. */
    method LoadInvited(names: seq<string>)
      requires Valid()
      modifies factions.Values
      ensures View() == InviteAll(old(View()), names)
    {
      for i := 0 to |names|
        invariant View() == InviteAll(old(View()), names[..i])
      {
        assert names[..i + 1][..i] == names[..i];
        var name := ParseFactionName(names[i]);
        if name.None? {
          continue;
        }
        label L:
        factions[name.value].alreadyInvited := true;
        factions[name.value].discovery := Known;
        ViewAfterUpdate@L(name.value);
      }
      assert names[..|names|] == names;
    }

    /** The sparse save of the registry, filled in the enumeration's order. */
    method GetFactionsSave() returns (save: map<FactionName, SavedFaction>)
      requires Valid()
      ensures save == ExportTable(View())
    {
      ghost var t := View();
      save := map[];
      for i := 0 to |AllFactionNames|
        invariant forall n :: n in save <==> n in AllFactionNames[..i] && ExportFaction(t[n]).Some?
        invariant forall n | n in save :: save[n] == ExportFaction(t[n]).value
      {
        var name := AllFactionNames[i];
        assert AllFactionNames[..i + 1] == AllFactionNames[..i] + [name];
        var faction := factions[name];
        assert faction.State() == t[name];
        var discovery := if faction.discovery == Unknown then None else Some(faction.discovery);
        var favor, playerReputation := faction.favor, faction.playerReputation;
        if discovery.Some? || favor != 0.0 || playerReputation != 0.0 {
          save := save[name := SavedFaction(NonZero(favor), NonZero(playerReputation), discovery)];
        }
      }
      assert AllFactionNames[..|AllFactionNames|] == AllFactionNames;
      AllFactionNamesComplete();
      assert forall n :: n in save <==> n in ExportTable(t);
      assert forall n | n in save :: save[n] == ExportTable(t)[n];
    }
  }

  /**
   * Applies one saved record, already known to be truthy and of type object,
   * to its faction: each field that passes its guard is written, reputation
   * through the lower-bound clamp and favor through the favor setter.
   */
  method ApplySaved(faction: Faction, rec: Value)
    requires Truthy(rec) && IsObjectType(rec)
    modifies faction
    ensures faction.State() == ApplyRecord(old(faction.State()), rec)
  {
    var rep, favor, discovery := Field(rec, "playerReputation"), Field(rec, "favor"), Field(rec, "discovery");
    if rep.Some? && rep.value.Num? && rep.value.n >= 0.0 {
      faction.playerReputation := ClampNumber(rep.value.n, 0.0);
    }
    if favor.Some? && favor.value.Num? && favor.value.n >= 0.0 {
      faction.SetFavor(favor.value.n);
    }
    var d := ParseDiscovery(discovery);
    if d.Some? {
      faction.discovery := d.value;
    }
  }
}
