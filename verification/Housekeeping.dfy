/**
 The loops that delete rows and then blobs (server/src/lib/subtree-blobs.ts, server/src/routes/nodes.ts
 purge, server/src/lib/housekeeping.ts), tied to the steps of Uploads.
 */
module Housekeeping {
  import opened Prelude
  import opened Forest
  import opened Preconditions
  import opened Uploads

  class Sweeper {
    var nodes: Nodes
    var parents: Parents
    var versions: seq<Version>
    var blobs: set<Key>

    constructor (nodes: Nodes, parents: Parents, versions: seq<Version>, blobs: set<Key>)
      ensures this.nodes == nodes && this.parents == parents && this.versions == versions && this.blobs == blobs
    {
      this.nodes, this.parents, this.versions, this.blobs := nodes, parents, versions, blobs;
    }

    /** Collected before the rows disappear: the content of the subtree's nodes and of their versions. */
    method SubtreeBlobRefs(n: NodeId) returns (refs: set<Key>)
      ensures refs == BlobRefs(nodes, versions, Subtree(parents, {n}))
    {
      var under := DescendantClosure(parents, {n});
      refs := set m | m in nodes && m in under && nodes[m].contentRef.Some? :: nodes[m].contentRef.value;
      ghost var own := refs;
      var i := 0;
      while i < |versions|
        invariant i <= |versions| && refs == own + RefsUnder(versions[..i], under)
      {
        assert versions[..i + 1] == versions[..i] + [versions[i]];
        if versions[i].node in under {
          refs := refs + {versions[i].ref};
        }
        i := i + 1;
      }
      assert versions[..i] == versions;
    }

    /** Storage deletions one by one; those that fail are swallowed and never retried. */
    method DeleteBlobs(refs: set<Key>, failing: set<Key>)
      modifies this`blobs
      ensures blobs == old(blobs) - (refs - failing)
    {
      var left := refs;
      while left != {}
        invariant left <= refs && blobs == old(blobs) - (refs - left - failing)
        decreases left
      {
        var ref :| ref in left;
        if ref !in failing {
          blobs := blobs - {ref};
        }
        left := left - {ref};
      }
    }

    /** Collect, delete the rows, then the blobs. */
    method PurgeNode(n: NodeId, failing: set<Key>)
      modifies this
      ensures var gone := Subtree(old(parents), {n});
              && parents == old(parents) - gone
              && nodes == (map m | m in old(nodes) && m !in gone :: old(nodes)[m])
              && versions == Without(old(versions), IdsUnder(old(versions), gone))
              && blobs == old(blobs) - (BlobRefs(old(nodes), old(versions), gone) - failing)
    {
      var refs := SubtreeBlobRefs(n);
      var gone := DescendantClosure(parents, {n});
      nodes, versions := map m | m in nodes && m !in gone :: nodes[m], Without(versions, IdsUnder(versions, gone));
      parents := parents - gone;
      DeleteBlobs(refs, failing);
    }

    /** Retention: the query picks the oldest expired versions and deletes their rows, then their blobs go. */
    method PurgeOldVersions(cutoff: nat, failing: set<Key>)
      modifies this`versions, this`blobs
      ensures var ids := SweptIds(nodes, old(versions), cutoff);
              && versions == Without(old(versions), ids)
              && blobs == old(blobs) - (RefsOf(old(versions), ids) - failing)
    {
      var ids := SweptIds(nodes, versions, cutoff);
      var refs := RefsOf(versions, ids);
      versions := Without(versions, ids);
      DeleteBlobs(refs, failing);
    }
  }
}
