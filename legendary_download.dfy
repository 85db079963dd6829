/**
 * Starting a download from the Epic Games source: the gate that routes two
 * titles through an optional-content form (`Download`), the seeding of that
 * form's toggles from the title's tag catalog, and the resolution of the
 * toggles into install tags (`DownloadSDL`).
 */
module LegendaryDownload {
  import opened LegendaryModel

  /** The catalog key of the entry that is always installed. */
  const RequiredKey := "__required"

  /** The titles with optional content, and where their tag catalogs live. */
  const SdlCatalogUrls: map<string, string> := map[
    "Fortnite" := "https://legendary.gl/v1/sdl/Fortnite.json",
    "Ginger" := "https://legendary.gl/v1/sdl/Ginger.json"]

  /**
   * One entry of a decoded tag catalog, in the catalog's iteration order:
   * its key, its display name and the install tags it stands for.
   */
  datatype TagEntry = TagEntry(key: string, name: string, tags: seq<string>)

  /** A `Form.Toggle`: its label, its initial value and whether the user may change it. */
  datatype Toggle = Toggle(name: string, initial: bool, enabled: bool)

  /** What `Download` does next. */
  datatype DownloadStep =
    | ShowOptionalContent(catalogUrl: string, title: string, toggles: seq<Toggle>)
    | StartDownload(installTags: seq<string>)

  /** `Download` asks about optional content exactly for a known title that is not installed. */
  predicate OffersOptionalContent(g: LegendaryGame)
  {
    g.internalName in SdlCatalogUrls && !g.installed
  }

  lemma OptionalContentTitles(g: LegendaryGame)
    ensures OffersOptionalContent(g) <==> (g.internalName == "Fortnite" || g.internalName == "Ginger") && !g.installed
  {
  }

  /** The toggles are seeded from the catalog: one per entry, in order, on and locked exactly for the required key. */
  predicate SeededFrom(toggles: seq<Toggle>, catalog: seq<TagEntry>)
  {
    && |toggles| == |catalog|
    && forall i :: 0 <= i < |catalog| ==>
         && toggles[i].name == catalog[i].name
         && (toggles[i].initial <==> catalog[i].key == RequiredKey)
         && (toggles[i].enabled <==> catalog[i].key != RequiredKey)
  }

  /** The loop of `Download` that adds one toggle per catalog entry. */
  method SeedToggles(catalog: seq<TagEntry>) returns (toggles: seq<Toggle>)
    ensures SeededFrom(toggles, catalog)
  {
    toggles := [];
    for i := 0 to |catalog|
      invariant SeededFrom(toggles, catalog[..i])
    {
      var x := catalog[i];
      toggles := toggles + [Toggle(x.name, x.key == RequiredKey, x.key != RequiredKey)];
    }
    assert catalog[..|catalog|] == catalog;
  }

  /**
   * `Download`. `catalog` is what fetching and decoding the title's catalog
   * yields; it is consulted only on the optional-content path.
   */
  method Download(game: LegendaryGame, catalog: seq<TagEntry>) returns (step: DownloadStep)
    ensures step.ShowOptionalContent? <==> OffersOptionalContent(game)
    ensures step.ShowOptionalContent? ==>
              && step.catalogUrl == SdlCatalogUrls[game.internalName]
              && step.title == game.name + " Optional Content"
              && SeededFrom(step.toggles, catalog)
    ensures step.StartDownload? ==> step.installTags == []
  {
    if game.internalName in SdlCatalogUrls && !game.installed {
      var toggles := SeedToggles(catalog);
      return ShowOptionalContent(SdlCatalogUrls[game.internalName], game.name + " Optional Content", toggles);
    }
    return StartDownload([]);
  }

  /** The form reads back "1" for the toggle of this entry (looked up by its display name). */
  predicate Chosen(values: map<string, string>, e: TagEntry)
  {
    e.name in values && values[e.name] == "1"
  }

  /** The install tags the toggles choose: every chosen entry's tags, in catalog order, duplicates kept. */
  function ChosenTags(catalog: seq<TagEntry>, values: map<string, string>): seq<string>
  {
    if catalog == [] then []
    else (if Chosen(values, catalog[0]) then catalog[0].tags else []) + ChosenTags(catalog[1..], values)
  }

  /** Resolving a catalog in two parts resolves each part and concatenates. */
  lemma {:induction false} ChosenTagsAppend(a: seq<TagEntry>, b: seq<TagEntry>, values: map<string, string>)
    ensures ChosenTags(a + b, values) == ChosenTags(a, values) + ChosenTags(b, values)
  {
    if a == [] {
      assert a + b == b;
    } else {
      assert (a + b)[1..] == a[1..] + b;
      ChosenTagsAppend(a[1..], b, values);
    }
  }

  /** A tag is resolved exactly when some chosen entry lists it. */
  lemma {:induction false} ChosenTagsMembership(catalog: seq<TagEntry>, values: map<string, string>, t: string)
    ensures t in ChosenTags(catalog, values)
        <==> exists i :: 0 <= i < |catalog| && Chosen(values, catalog[i]) && t in catalog[i].tags
  {
    if catalog != [] {
      ChosenTagsMembership(catalog[1..], values, t);
      if exists i :: 0 <= i < |catalog| && Chosen(values, catalog[i]) && t in catalog[i].tags {
        var i :| 0 <= i < |catalog| && Chosen(values, catalog[i]) && t in catalog[i].tags;
        if i > 0 { assert catalog[1..][i - 1] == catalog[i]; }
      }
      if exists j :: 0 <= j < |catalog[1..]| && Chosen(values, catalog[1..][j]) && t in catalog[1..][j].tags {
        var j :| 0 <= j < |catalog[1..]| && Chosen(values, catalog[1..][j]) && t in catalog[1..][j].tags;
        assert catalog[j + 1] == catalog[1..][j];
      }
    }
  }

  /**
   * `DownloadSDL`'s loop: `values` is what the submitted form reads back per
   * toggle name; the result is the tag list handed to `StartDownload`.
   */
  method DownloadSDL(catalog: seq<TagEntry>, values: map<string, string>) returns (installTags: seq<string>)
    ensures installTags == ChosenTags(catalog, values)
  {
    installTags := [];
    for i := 0 to |catalog|
      invariant installTags == ChosenTags(catalog[..i], values)
    {
      var x := catalog[i];
      ChosenTagsAppend(catalog[..i], [x], values);
      assert catalog[..i + 1] == catalog[..i] + [x];
      if x.name in values && values[x.name] == "1" {
        installTags := installTags + x.tags;
      }
    }
    assert catalog[..|catalog|] == catalog;
  }

  /**
   * A locked toggle keeps the value it was seeded with: "1" when it started
   * on, so the form reads back "1" for every required entry.
   */
  predicate LockedTogglesKept(toggles: seq<Toggle>, values: map<string, string>)
  {
    forall i :: 0 <= i < |toggles| && !toggles[i].enabled && toggles[i].initial ==>
      toggles[i].name in values && values[toggles[i].name] == "1"
  }

  /** Whatever the user toggles, the required entry's tags are installed. */
  lemma RequiredContentInstalled(catalog: seq<TagEntry>, toggles: seq<Toggle>, values: map<string, string>, i: nat, t: string)
    requires SeededFrom(toggles, catalog) && LockedTogglesKept(toggles, values)
    requires i < |catalog| && catalog[i].key == RequiredKey && t in catalog[i].tags
    ensures t in ChosenTags(catalog, values)
  {
    assert Chosen(values, catalog[i]);
    ChosenTagsMembership(catalog, values, t);
  }

  /** The two-entry catalog of the worked example: the baseline "a" and the option "b". */
  lemma ResolutionExample()
    ensures var catalog := [TagEntry(RequiredKey, "Base", ["a"]), TagEntry("opt1", "Option 1", ["b"])];
            && ChosenTags(catalog, map["Base" := "1", "Option 1" := "0"]) == ["a"]
            && ChosenTags(catalog, map["Base" := "1", "Option 1" := "1"]) == ["a", "b"]
  {
    var catalog := [TagEntry(RequiredKey, "Base", ["a"]), TagEntry("opt1", "Option 1", ["b"])];
    assert "Base" != "Option 1";
    assert catalog[1..][1..] == [];
    assert ChosenTags(catalog[1..][1..], map["Base" := "1", "Option 1" := "0"]) == [];
    assert ChosenTags(catalog[1..][1..], map["Base" := "1", "Option 1" := "1"]) == [];
  }
}
