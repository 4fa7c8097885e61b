/** The fixed complaint and measure catalogs (COMPLAINT_OPTIONS and
    MEASURE_OPTIONS in app.js) and the id-to-label lookup the note uses. */
module Catalog {
  import opened Wrappers
  import opened Seqs

  /** One selectable chip: the id stored in a session and the German label shown. */
  datatype CatalogEntry = CatalogEntry(id: string, labelText: string)

  const ComplaintOptions: seq<CatalogEntry> := [
    CatalogEntry("pain", "Schmerz"),
    CatalogEntry("stiffness", "Steifigkeit"),
    CatalogEntry("weakness", "Schw\U{00E4}che"),
    CatalogEntry("numbness", "Taubheit / Kribbeln"),
    CatalogEntry("instability", "Instabilit\U{00E4}t"),
    CatalogEntry("limited_rom", "Beweglichkeit \U{2193}"),
    CatalogEntry("swelling", "Schwellung")
  ]

  const MeasureOptions: seq<CatalogEntry> := [
    CatalogEntry("mt", "Manuelle Therapie (MT)"),
    CatalogEntry("pt", "Krankengymnastik (KG)"),
    CatalogEntry("ml", "Lymphdrainage (MLD)"),
    CatalogEntry("exercise", "aktive \U{00DC}bungen"),
    CatalogEntry("edu", "Patienten\U{00AD}edukation"),
    CatalogEntry("taping", "Taping"),
    CatalogEntry("device", "Ger\U{00E4}tetraining")
  ]

  predicate DistinctIds(catalog: seq<CatalogEntry>) {
    forall i, j :: 0 <= i < j < |catalog| ==> catalog[i].id != catalog[j].id
  }

  predicate Known(catalog: seq<CatalogEntry>, id: string) {
    exists k :: 0 <= k < |catalog| && catalog[k].id == id
  }

  /** No two entries of either catalog share an id, so a lookup has one answer. */
  lemma CatalogIdsDistinct()
    ensures DistinctIds(ComplaintOptions)
    ensures DistinctIds(MeasureOptions)
  {
  }

  /** The label of the first entry with that id, or the id itself when the
      catalog has none: the lookup never fails. */
  function LabelFor(catalog: seq<CatalogEntry>, id: string): (r: string)
    ensures !Known(catalog, id) ==> r == id
  {
    match FirstIndex(catalog, (e: CatalogEntry) => e.id == id)
    case Some(k) => catalog[k].labelText
    case None => id
  }

  /** In a catalog without duplicate ids, a known id renders as its entry's label. */
  lemma KnownIdRendersLabel(catalog: seq<CatalogEntry>, k: nat)
    requires DistinctIds(catalog) && k < |catalog|
    ensures LabelFor(catalog, catalog[k].id) == catalog[k].labelText
  {
    var id := catalog[k].id;
    var found := FirstIndex(catalog, (e: CatalogEntry) => e.id == id);
  }

  /** The labels of a selection, one per id and in the selection's order. */
  function Labels(catalog: seq<CatalogEntry>, ids: seq<string>): (r: seq<string>)
    ensures |r| == |ids|
    ensures forall i :: 0 <= i < |ids| ==> r[i] == LabelFor(catalog, ids[i])
  {
    if ids == [] then [] else [LabelFor(catalog, ids[0])] + Labels(catalog, ids[1..])
  }

  /** Every label shown for a selection is either a catalog label or an id that
      the catalog does not know, rendered as it is. */
  lemma LabelsAreLabelsOrUnknownIds(catalog: seq<CatalogEntry>, ids: seq<string>, i: nat)
    requires DistinctIds(catalog) && i < |ids|
    ensures Known(catalog, ids[i]) ==>
      exists k :: 0 <= k < |catalog| && catalog[k].id == ids[i] && Labels(catalog, ids)[i] == catalog[k].labelText
    ensures !Known(catalog, ids[i]) ==> Labels(catalog, ids)[i] == ids[i]
  {
    if Known(catalog, ids[i]) {
      var k :| 0 <= k < |catalog| && catalog[k].id == ids[i];
      KnownIdRendersLabel(catalog, k);
    }
  }
}
