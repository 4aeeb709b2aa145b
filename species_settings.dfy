/** Saving a species timeline from the settings screen. */
module SpeciesSettingsRules {

  import opened Text
  import opened Domain

  datatype SaveOutcome =
    | Saved(settings: SpeciesSettings)
    | EmptyName
    | AlreadyExists(name: string)

  /** Some timeline key names the species, ignoring case. */
  predicate HasTimeline(settings: SpeciesSettings, name: string) {
    exists k :: k in settings && SameIgnoringCase(k, name)
  }

  /** Some fish of the stock is of the species, ignoring case. */
  predicate InStock(stock: seq<Fish>, name: string) {
    exists f :: f in stock && SameIgnoringCase(f.species, name)
  }

  /** handleSaveSpeciesSettings(species, timeline). The name is trimmed; a
      blank name is refused; a name no timeline key matches (ignoring case) is
      being added, and is refused when a fish or a key of that species already
      exists; otherwise the timeline is stored under the trimmed name. */
  function SaveSpecies(settings: SpeciesSettings, stock: seq<Fish>, species: string, timeline: SpeciesTimeline): (r: SaveOutcome)
    ensures r == EmptyName <==> forall i :: 0 <= i < |species| ==> IsSpace(species[i])
    ensures r.AlreadyExists? <==> Trim(species) != "" && !HasTimeline(settings, Trim(species)) && InStock(stock, Trim(species))
    ensures r.AlreadyExists? ==> r.name == Trim(species)
    ensures r.Saved? ==> Trim(species) != "" && r.settings == settings[Trim(species) := timeline]
  {
    var name := Trim(species);
    if name == "" then EmptyName
    else
      var adding := !HasTimeline(settings, name);
      if adding && (InStock(stock, name) || HasTimeline(settings, name)) then AlreadyExists(name)
      else Saved(settings[name := timeline])
  }

  /** A saved timeline is found under its trimmed name, and every other species
      keeps its own timeline. */
  lemma SavedTimelineStored(settings: SpeciesSettings, stock: seq<Fish>, species: string, timeline: SpeciesTimeline, other: string)
    requires SaveSpecies(settings, stock, species, timeline).Saved?
    ensures Trim(species) in SaveSpecies(settings, stock, species, timeline).settings
    ensures SaveSpecies(settings, stock, species, timeline).settings[Trim(species)] == timeline
    ensures other != Trim(species) && other in settings ==>
              other in SaveSpecies(settings, stock, species, timeline).settings
              && SaveSpecies(settings, stock, species, timeline).settings[other] == settings[other]
  {
  }

  /** A species that has fish but no timeline of its own can never be given
      one: every save under its name is refused as already existing, also when
      it is reached through a stock list's edit button. */
  lemma StockOnlySpeciesRefused(settings: SpeciesSettings, stock: seq<Fish>, f: Fish, timeline: SpeciesTimeline)
    requires f in stock && Trim(f.species) == f.species && f.species != ""
    requires forall k :: k in settings ==> !SameIgnoringCase(k, f.species)
    ensures SaveSpecies(settings, stock, f.species, timeline) == AlreadyExists(f.species)
  {
  }

  /** Editing a species under a different spelling of its case adds a second
      key beside the first instead of replacing it. */
  lemma CaseVariantAddsKey(settings: SpeciesSettings, stock: seq<Fish>, key: string, species: string, timeline: SpeciesTimeline)
    requires key in settings && Trim(species) != "" && Trim(species) != key
    requires SameIgnoringCase(key, Trim(species))
    ensures SaveSpecies(settings, stock, species, timeline).Saved?
    ensures key in SaveSpecies(settings, stock, species, timeline).settings
    ensures Trim(species) in SaveSpecies(settings, stock, species, timeline).settings
  {
  }
}
