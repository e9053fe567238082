/**
 * The registry as a value: one faction state per faction name. The
 * bootstrap builds it at default and then appends, in catalog order, each
 * augmentation's name to every faction the augmentation lists.
 */
module RegistrySpec {
  import opened Enums
  import opened FactionEntity

  type Table = map<FactionName, FactionState>

  /** Every faction name has an entry. */
  ghost predicate Total(t: Table) {
    forall n: FactionName :: n in t
  }

  /** An augmentation of the catalog, with the factions that offer it. */
  datatype Augmentation = Augmentation(name: string, factions: seq<FactionName>)

  /** The table of freshly constructed factions. */
  function DefaultTable(): (t: Table)
    ensures Total(t)
    ensures forall n :: n in t && t[n] == DefaultState
  {
    AllFactionNamesComplete();
    map n | n in AllFactionNames :: DefaultState
  }

  /** Appends `aug` to the augmentations of each faction of `fs`, in order (the inner bootstrap loop). */
  function Push(t: Table, aug: string, fs: seq<FactionName>): (r: Table)
    requires Total(t)
    ensures Total(r)
    decreases |fs|
  {
    if fs == [] then t
    else
      var r := Push(t, aug, fs[..|fs| - 1]);
      var n := fs[|fs| - 1];
      r[n := r[n].(augmentations := r[n].augmentations + [aug])]
  }

  /** Runs the inner loop for every augmentation of the catalog, in order (the outer bootstrap loop). */
  function Attach(t: Table, catalog: seq<Augmentation>): (r: Table)
    requires Total(t)
    ensures Total(r)
    decreases |catalog|
  {
    if catalog == [] then t
    else
      var last := catalog[|catalog| - 1];
      Push(Attach(t, catalog[..|catalog| - 1]), last.name, last.factions)
  }

  /** The registry right after start-up. */
  function Bootstrap(catalog: seq<Augmentation>): (t: Table)
    ensures Total(t)
  {
    Attach(DefaultTable(), catalog)
  }

  // ---- Reference definition: which augmentations a faction offers ----

  /** The (augmentation, faction) links one augmentation declares. */
  function Links(a: Augmentation): seq<(string, FactionName)> {
    seq(|a.factions|, i requires 0 <= i < |a.factions| => (a.name, a.factions[i]))
  }

  /** All links of the catalog, in catalog order. */
  function CatalogLinks(catalog: seq<Augmentation>): seq<(string, FactionName)>
    decreases |catalog|
  {
    if catalog == [] then [] else Links(catalog[0]) + CatalogLinks(catalog[1..])
  }

  /** The augmentation names linked to faction `n`, in order, one per link. */
  function NamesFor(links: seq<(string, FactionName)>, n: FactionName): seq<string>
    decreases |links|
  {
    if links == [] then []
    else (if links[0].1 == n then [links[0].0] else []) + NamesFor(links[1..], n)
  }

  /** What faction `n` offers: the names of the augmentations listing it, in catalog order, duplicates kept. */
  function AugmentationsOf(catalog: seq<Augmentation>, n: FactionName): seq<string> {
    NamesFor(CatalogLinks(catalog), n)
  }

  lemma {:induction false} NamesForAppend(a: seq<(string, FactionName)>, b: seq<(string, FactionName)>, n: FactionName)
    ensures NamesFor(a + b, n) == NamesFor(a, n) + NamesFor(b, n)
    decreases |a|
  {
    if a == [] {
      assert a + b == b;
    } else {
      assert (a + b)[0] == a[0] && (a + b)[1..] == a[1..] + b;
      NamesForAppend(a[1..], b, n);
    }
  }

  lemma {:induction false} CatalogLinksSnoc(catalog: seq<Augmentation>, a: Augmentation)
    ensures CatalogLinks(catalog + [a]) == CatalogLinks(catalog) + Links(a)
    decreases |catalog|
  {
    if catalog == [] {
      assert [a][1..] == [];
    } else {
      assert (catalog + [a])[1..] == catalog[1..] + [a];
      CatalogLinksSnoc(catalog[1..], a);
    }
  }

  lemma CatalogLinksLast(catalog: seq<Augmentation>)
    requires catalog != []
    ensures CatalogLinks(catalog)
         == CatalogLinks(catalog[..|catalog| - 1]) + Links(catalog[|catalog| - 1])
  {
    var init, last := catalog[..|catalog| - 1], catalog[|catalog| - 1];
    assert catalog == init + [last];
    CatalogLinksSnoc(init, last);
  }

  /** The inner loop appends to `n` one copy of `aug` per occurrence of `n` in `fs`, and changes nothing else. */
  lemma {:induction false} PushAt(t: Table, aug: string, fs: seq<FactionName>, n: FactionName)
    requires Total(t)
    ensures Push(t, aug, fs)[n]
         == t[n].(augmentations := t[n].augmentations + NamesFor(Links(Augmentation(aug, fs)), n))
    decreases |fs|
  {
    if fs == [] {
      assert Links(Augmentation(aug, fs)) == [];
    } else {
      var init := fs[..|fs| - 1];
      PushAt(t, aug, init, n);
      assert Links(Augmentation(aug, fs)) == Links(Augmentation(aug, init)) + [(aug, fs[|fs| - 1])];
      NamesForAppend(Links(Augmentation(aug, init)), [(aug, fs[|fs| - 1])], n);
    }
  }

  lemma {:induction false} AttachAt(t: Table, catalog: seq<Augmentation>, n: FactionName)
    requires Total(t)
    ensures Attach(t, catalog)[n]
         == t[n].(augmentations := t[n].augmentations + NamesFor(CatalogLinks(catalog), n))
    decreases |catalog|
  {
    if catalog == [] {
      assert NamesFor(CatalogLinks(catalog), n) == [];
    } else {
      var init, last := catalog[..|catalog| - 1], catalog[|catalog| - 1];
      var before := Attach(t, init);
      var a, x, y := t[n].augmentations, NamesFor(CatalogLinks(init), n), NamesFor(Links(last), n);
      assert Attach(t, catalog) == Push(before, last.name, last.factions);
      AttachAt(t, init, n);
      PushAt(before, last.name, last.factions, n);
      assert Links(Augmentation(last.name, last.factions)) == Links(last);
      CatalogLinksLast(catalog);
      NamesForAppend(CatalogLinks(init), Links(last), n);
      assert a + x + y == a + (x + y);
    }
  }

  /**
   * After start-up every faction name has exactly one entry, at default
   * except for its augmentations, which are the catalog's links to it in order.
   */
  lemma BootstrapAt(catalog: seq<Augmentation>, n: FactionName)
    ensures n in Bootstrap(catalog)
    ensures Bootstrap(catalog)[n] == DefaultState.(augmentations := AugmentationsOf(catalog, n))
  {
    AttachAt(DefaultTable(), catalog, n);
  }
}
