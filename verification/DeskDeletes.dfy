/** Deleting a node of the graph together with the tags: the cascade, then the machine links of the deleted
    runs, the links of all deleted nodes, and the vocabularies of the deleted desks. */
module DeskDeletes {
  import G = Graph
  import opened TagTable

  /** Every link whose desk goes is of a node stored on that desk. */
  ghost predicate LinksOnTheirDesks(g: G.Lineage, s: Tags, desks: set<Rid>) {
    forall l :: l in s.links && l.desk in desks ==> l.key.target in g.nodes && G.HoldsOnDesk(g, l.desk, l.key.target)
  }

  /** The desks among the deleted nodes. */
  function DesksIn(g: G.Lineage, deleted: set<Rid>): set<Rid> {
    set n | n in deleted && n in g.nodes && g.nodes[n].kind == G.Project
  }

  predicate AreDropRuns(ops: seq<Op>) { forall op :: op in ops ==> op.DropRun? }

  /** The nodes on a deleted desk are deleted. */
  lemma DeskTakesItsNodes(g: G.Lineage, root: Rid, cascade: set<Rid>, desk: Rid, n: Rid)
    requires G.Cascade(g, root, cascade) && desk in cascade && G.HoldsOnDesk(g, desk, n)
    ensures n in cascade
  {
    assert G.Takes(g, desk, n);
  }

  /** Removing the machine links of runs is always possible and safe, and only removes links. */
  lemma {:induction false} RunsDrop(s: Tags, ops: seq<Op>, waiting: set<Rid>)
    requires Good(s) && AreDropRuns(ops) && OrphansWithin(s, waiting)
    ensures IsRun(s, ops)
    ensures var t := After(s, ops);
            && Good(t) && OrphansWithin(t, waiting)
            && t.links <= s.links && t.deskTags == s.deskTags && (forall e :: IsHuman(t, e) <==> IsHuman(s, e))
    decreases |ops|
  {
    if ops != [] {
      assert ops[0] in ops;
      StepKeepsGood(s, ops[0]);
      StepOrphans(s, ops[0], waiting);
      RunsDrop(Apply(s, ops[0]), ops[1..], waiting);
    }
  }

  /** Deleting any node, desks among what it takes included: when every link on a deleted desk is of a node
      stored on it, the tags stay good, no link to a deleted node or on a deleted desk is left, just the human
      tags of deleted desks only are gone, and no machine tag is left without links. */
  lemma DeletionKeepsTags(g: G.Lineage, root: Rid, cascade: set<Rid>, s: Tags, runs: seq<Op>)
    requires Good(s) && OrphansWithin(s, {}) && AreDropRuns(runs) && G.Cascade(g, root, cascade)
    requires LinksOnTheirDesks(g, s, DesksIn(g, cascade * g.nodes.Keys))
    ensures var deleted := cascade * g.nodes.Keys; var desks := DesksIn(g, deleted);
            && IsRun(s, runs) && IsRun(After(s, runs), [DropNodes(deleted), DropDesks(desks)])
            && var t := After(After(s, runs), [DropNodes(deleted), DropDesks(desks)]);
               && Good(t) && OrphansWithin(t, {})
               && (forall l :: l in t.links ==> l.key.target !in deleted && l.desk !in desks)
               && (forall e :: IsHuman(t, e) <==> IsHuman(s, e) && !OnlyOn(s, desks, e))
  {
    var deleted := cascade * g.nodes.Keys;
    var desks := DesksIn(g, deleted);
    RunsDrop(s, runs, {});
    var m := After(s, runs);
    forall l | l in m.links && l.desk in desks ensures l.key.target in deleted {
      DeskTakesItsNodes(g, root, cascade, l.desk, l.key.target);
    }
    DeskDeletion(m, deleted, desks);
    LinksGone(m, deleted, desks);
    assert forall e :: OnlyOn(m, desks, e) == OnlyOn(s, desks, e);
  }

  /** With all links on the desks covered, none of them is left, nor any to the nodes. */
  lemma LinksGone(s: Tags, deleted: set<Rid>, desks: set<Rid>)
    requires forall l :: l in s.links && l.desk in desks ==> l.key.target in deleted
    ensures IsRun(s, [DropNodes(deleted), DropDesks(desks)])
    ensures forall l :: l in After(s, [DropNodes(deleted), DropDesks(desks)]).links ==>
              l in s.links && l.key.target !in deleted && l.desk !in desks
  {
    TwoSteps(s, DropNodes(deleted), DropDesks(desks));
  }
}
