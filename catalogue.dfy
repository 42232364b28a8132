/** Lookups by id in a list of catalogue entries. The editor's own catalogue
    is the table in module NodeConfig; the store looks node types up with
    these. */
module Catalogue {
  import opened Seqs
  import opened Types

  /** No two entries share an id. */
  predicate IdsDistinct(catalogue: seq<NodeDefinition>)
  {
    forall i, j :: 0 <= i < j < |catalogue| ==> catalogue[i].id != catalogue[j].id
  }

  /** The first entry of `catalogue` with the given id, if any. */
  function LookupIn(catalogue: seq<NodeDefinition>, id: string): (r: Option<NodeDefinition>)
    ensures r.None? <==> forall i :: 0 <= i < |catalogue| ==> catalogue[i].id != id
    ensures r.Some? ==> r.value in catalogue && r.value.id == id
  {
    Find(catalogue, (d: NodeDefinition) => d.id == id)
  }

  /** In a catalogue with distinct ids, the lookup finds an entry exactly
      when it is in the catalogue under that id. */
  lemma LookupInExact(catalogue: seq<NodeDefinition>, id: string, d: NodeDefinition)
    requires IdsDistinct(catalogue)
    ensures LookupIn(catalogue, id) == Some(d) <==> d in catalogue && d.id == id
  {
    if d in catalogue && d.id == id {
      var r := LookupIn(catalogue, id);
      var k :| 0 <= k < |catalogue| && catalogue[k] == r.value && r.value.id == id;
      var m :| 0 <= m < |catalogue| && catalogue[m] == d;
      assert k == m;
    }
  }
}
