/** Relation paths before and after the remap: the new graph is the old one modulo equal keys. */
module FactPaths {
  import opened FactTables
  import opened FactChecks

  predicate Edge(rows: seq<Relation>, a: string, b: string) {
    exists r :: r in rows && r.source == a && r.target == b
  }

  predicate Path(rows: seq<Relation>, p: seq<string>) {
    p != [] && (|p| == 1 || (Edge(rows, p[0], p[1]) && Path(rows, p[1..])))
  }

  ghost predicate Reaches(rows: seq<Relation>, a: string, b: string) {
    exists p :: Path(rows, p) && p[0] == a && p[|p| - 1] == b
  }

  /** A step of the old graph that may also move to another row of the same key. */
  predicate QuotientStep(rows: seq<Relation>, km: map<string, string>, a: string, b: string) {
    Edge(rows, a, b) || Remap(km, a) == Remap(km, b)
  }

  predicate QuotientPath(rows: seq<Relation>, km: map<string, string>, p: seq<string>) {
    p != [] && (|p| == 1 || (QuotientStep(rows, km, p[0], p[1]) && QuotientPath(rows, km, p[1..])))
  }

  ghost predicate ReachesModuloKeys(rows: seq<Relation>, km: map<string, string>, a: string, b: string) {
    exists p :: QuotientPath(rows, km, p) && p[0] == a && p[|p| - 1] == b
  }

  ghost predicate EdgesMapped(pre: seq<Relation>, km: map<string, string>, post: seq<Relation>) {
    && (forall a, b :: Edge(post, a, b) ==> exists r :: r in pre && Remap(km, r.source) == a && Remap(km, r.target) == b)
    && (forall r :: r in pre ==> Remap(km, r.source) == Remap(km, r.target) || Edge(post, Remap(km, r.source), Remap(km, r.target)))
  }

  lemma MigrationMapsEdges(pre: Tables, post: Tables)
    requires Migrated(pre, post)
    ensures EdgesMapped(pre.relations, KeeperMap(pre.facts), post.relations)
  {
    hide KeeperMap, Losers, Remap, Survivors, StatesRemapped, OwnedRefs;
    var km, all := KeeperMap(pre.facts), RemapRelations(KeeperMap(pre.facts), pre.relations);
    if Losers(pre.facts) != {} {
      forall a, b | Edge(post.relations, a, b)
        ensures exists r :: r in pre.relations && Remap(km, r.source) == a && Remap(km, r.target) == b
      {
        var p :| p in post.relations && p.source == a && p.target == b;
        var i :| 0 <= i < |all| && all[i] == p;
        assert pre.relations[i] in pre.relations;
      }
      forall r | r in pre.relations && Remap(km, r.source) != Remap(km, r.target)
        ensures Edge(post.relations, Remap(km, r.source), Remap(km, r.target))
      {
        var i :| 0 <= i < |pre.relations| && pre.relations[i] == r;
        assert all[i] in all;
      }
    } else {
      NoLosersNoMoves(pre.facts);
    }
  }

  lemma NoLosersNoMoves(facts: map<string, Fact>)
    requires Losers(facts) == {}
    ensures forall id :: Remap(KeeperMap(facts), id) == id
  {
    hide Losers, KeeperOf;
  }

  lemma RowIsEdge(rows: seq<Relation>, r: Relation)
    requires r in rows
    ensures Edge(rows, r.source, r.target)
  {
  }

  lemma {:induction false} LiftPath(pre: seq<Relation>, km: map<string, string>, post: seq<Relation>, p: seq<string>,
                                    a: string, b: string) returns (q: seq<string>)
    requires EdgesMapped(pre, km, post) && Path(post, p)
    requires p[0] == Remap(km, a) && p[|p| - 1] == Remap(km, b)
    ensures QuotientPath(pre, km, q) && q[0] == a && q[|q| - 1] == b
    decreases |p|
  {
    hide Remap, Edge;
    if |p| == 1 {
      q := [a, b];
    } else {
      var r :| r in pre && Remap(km, r.source) == p[0] && Remap(km, r.target) == p[1];
      var rest := LiftPath(pre, km, post, p[1..], r.target, b);
      RowIsEdge(pre, r);
      var tail := [r.source] + rest;
      assert tail[1..] == rest;
      q := [a] + tail;
      assert q[1..] == tail;
    }
  }

  lemma {:induction false} LowerPath(pre: seq<Relation>, km: map<string, string>, post: seq<Relation>, q: seq<string>)
    returns (p: seq<string>)
    requires EdgesMapped(pre, km, post) && QuotientPath(pre, km, q)
    ensures Path(post, p) && p[0] == Remap(km, q[0]) && p[|p| - 1] == Remap(km, q[|q| - 1])
    decreases |q|
  {
    if |q| == 1 {
      p := [Remap(km, q[0])];
    } else {
      var rest := LowerPath(pre, km, post, q[1..]);
      if Remap(km, q[0]) == Remap(km, q[1]) {
        p := rest;
      } else {
        p := [Remap(km, q[0])] + rest;
        assert p[1..] == rest;
      }
    }
  }

  /** After the migration keeper(a) reaches keeper(b), maybe by the empty path, exactly when
      before it a reached b along relations and moves between rows of one key. */
  lemma RelationPathsAreTheQuotient(pre: Tables, post: Tables, a: string, b: string)
    requires Migrated(pre, post)
    ensures var km := KeeperMap(pre.facts);
      Reaches(post.relations, Remap(km, a), Remap(km, b)) <==> ReachesModuloKeys(pre.relations, km, a, b)
  {
    var km := KeeperMap(pre.facts);
    MigrationMapsEdges(pre, post);
    if Reaches(post.relations, Remap(km, a), Remap(km, b)) {
      var p :| Path(post.relations, p) && p[0] == Remap(km, a) && p[|p| - 1] == Remap(km, b);
      var _ := LiftPath(pre.relations, km, post.relations, p, a, b);
    }
    if ReachesModuloKeys(pre.relations, km, a, b) {
      var q :| QuotientPath(pre.relations, km, q) && q[0] == a && q[|q| - 1] == b;
      var _ := LowerPath(pre.relations, km, post.relations, q);
    }
  }

  lemma RemapLands(facts: map<string, Fact>, x: string)
    requires WellKeyed(facts) && x in facts
    ensures var k := Remap(KeeperMap(facts), x);
      k in facts && IsKeeper(facts, k) && KeyOf(facts[k]) == KeyOf(facts[x])
  {
    KeeperOfKeeps(facts, x);
  }

  /** The remap identifies two ids exactly when they are equal or facts of one key. */
  lemma RemapStaysInKey(facts: map<string, Fact>, a: string, b: string)
    requires WellKeyed(facts)
    ensures Remap(KeeperMap(facts), a) == Remap(KeeperMap(facts), b) <==>
              a == b || (a in facts && b in facts && KeyOf(facts[a]) == KeyOf(facts[b]))
  {
    if a in facts { RemapLands(facts, a); }
    if b in facts { RemapLands(facts, b); }
    if a in facts && b in facts && KeyOf(facts[a]) == KeyOf(facts[b]) {
      KeeperUnique(facts, Remap(KeeperMap(facts), a), Remap(KeeperMap(facts), b));
    }
  }
}
