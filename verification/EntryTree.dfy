/** The adjacency map of a persistent tree: for each parent id the list of its entries. */
module EntryTree {
  import opened Common

  /** An entry with its parent's id; roots have no parent, or 0, or themselves. */
  datatype Entry = Entry(id: int, parent: Option<int>)

  predicate IsRoot(e: Entry) { e.parent == Some(0) || e.parent == Some(e.id) || e.parent == None }

  /** The parent, if any, is another one. */
  predicate HasOther(e: Entry) { e.parent.Some? && e.parent.value != e.id }

  type Tree = map<Option<int>, seq<Entry>>

  ghost predicate Listed(t: Tree, e: Entry) { e.parent in t && e in t[e.parent] }

  ghost predicate NoRepeats(s: seq<Entry>) { forall i, j :: 0 <= i < j < |s| ==> s[i].id != s[j].id }

  /** Each entry is in its parent's list and nowhere else, has a list of its own, and ranks above its parent unless it
      is its own. */
  ghost predicate Forest(t: Tree, rank: map<int, nat>) {
    && (forall k, e :: k in t && e in t[k] ==> e.parent == k && Some(e.id) in t && e.id != 0)
    && (forall e, f :: Listed(t, e) && Listed(t, f) && e.id == f.id ==> e == f)
    && (forall k :: k in t ==> NoRepeats(t[k]))
    && (forall k :: k in t && k.Some? ==> k.value in rank)
    && (forall e :: Listed(t, e) ==> e.id in rank && (HasOther(e) ==> rank[e.parent.value] < rank[e.id]))
  }

  /** Entry `x` is `r` or lies below it. */
  ghost predicate Under(t: Tree, rank: map<int, nat>, x: int, r: int)
    decreases if x in rank then rank[x] else 0
  {
    || x == r
    || exists p :: Listed(t, Entry(x, Some(p))) && x in rank && p in rank && rank[p] < rank[x] && Under(t, rank, p, r)
  }

  ghost function Below(t: Tree, rank: map<int, nat>, r: int): set<Option<int>> {
    set k | k in t.Keys && k.Some? && Under(t, rank, k.value, r)
  }

  // ----- loading

  function Put(t: Tree, e: Entry): Tree {
    var own := if e.parent in t then t[e.parent] + [e] else [e];
    var t' := t[e.parent := own];
    if Some(e.id) in t' then t' else t'[Some(e.id) := []]
  }

  function Without(s: seq<Entry>, id: int): seq<Entry> {
    if s == [] then [] else (if s[0].id != id then [s[0]] else []) + Without(s[1..], id)
  }

  lemma {:induction false} WithoutMembers(s: seq<Entry>, id: int)
    ensures forall e :: e in Without(s, id) <==> e in s && e.id != id
    ensures NoRepeats(s) ==> NoRepeats(Without(s, id))
  {
    if s != [] {
      WithoutMembers(s[1..], id);
      assert s == [s[0]] + s[1..];
      if NoRepeats(s) {
        var rest := Without(s[1..], id);
        assert forall e :: e in s[1..] ==> e.id != s[0].id;
        assert forall i :: 0 <= i < |rest| ==> rest[i] in rest;
      }
    }
  }

  /** Adding an entry that is not listed yet, and ranks above its parent, keeps the forest. */
  lemma PutForest(t: Tree, rank: map<int, nat>, e: Entry)
    requires Forest(t, rank) && e.id != 0 && e.id in rank
    requires forall f :: Listed(t, f) ==> f.id != e.id
    requires HasOther(e) ==> e.parent.value in rank && rank[e.parent.value] < rank[e.id]
    ensures Forest(Put(t, e), rank)
    ensures forall f :: Listed(Put(t, e), f) <==> Listed(t, f) || f == e
  {
    hide Put, NoRepeats;
    PutLists(t, e);
    PutNoRepeats(t, e);
  }

  lemma PutLists(t: Tree, e: Entry)
    ensures var u := Put(t, e);
      && u.Keys == t.Keys + {e.parent, Some(e.id)}
      && (forall k, f :: k in u && f in u[k] <==> (k in t && f in t[k]) || (k == e.parent && f == e))
  {
  }

  lemma PutNoRepeats(t: Tree, e: Entry)
    requires forall k :: k in t ==> NoRepeats(t[k])
    requires e.parent in t ==> forall f :: f in t[e.parent] ==> f.id != e.id
    ensures forall k :: k in Put(t, e) ==> NoRepeats(Put(t, e)[k])
  {
  }

  /** The rows of a table can be loaded as a forest: distinct non-zero ids, and no row below itself, but that a root
      may be its own parent. */
  ghost predicate AcyclicRows(rows: seq<Entry>, rank: map<int, nat>) {
    && (forall i, j :: 0 <= i < j < |rows| ==> rows[i].id != rows[j].id)
    && (forall i :: 0 <= i < |rows| ==> rows[i].id != 0 && rows[i].id in rank)
    && (forall i :: 0 <= i < |rows| && HasOther(rows[i]) ==>
          rows[i].parent.value in rank && rank[rows[i].parent.value] < rank[rows[i].id])
  }

  function Loaded(rows: seq<Entry>): Tree {
    if rows == [] then map[] else Put(Loaded(rows[..|rows| - 1]), rows[|rows| - 1])
  }

  /** Loading lists exactly the rows, each under its parent. */
  lemma {:induction false} LoadedForest(rows: seq<Entry>, rank: map<int, nat>)
    requires AcyclicRows(rows, rank)
    ensures Forest(Loaded(rows), rank)
    ensures forall e :: Listed(Loaded(rows), e) <==> e in rows
    decreases |rows|
  {
    if rows != [] {
      var before, e := rows[..|rows| - 1], rows[|rows| - 1];
      LoadedForest(before, rank);
      assert rows == before + [e];
      PutForest(Loaded(before), rank, e);
    }
  }

  /** The entries with this parent, in the order of the rows. */
  function Children(rows: seq<Entry>, parent: Option<int>): seq<Entry> {
    if rows == [] then []
    else
      var last := rows[|rows| - 1];
      Children(rows[..|rows| - 1], parent) + (if last.parent == parent then [last] else [])
  }

  /** Whatever the rows: each list holds the entries with that parent in the order of the rows, and there is one for every
      parent and for every entry. */
  lemma {:induction false} LoadedInOrder(rows: seq<Entry>, k: Option<int>)
    ensures k in Loaded(rows) <==> exists i :: 0 <= i < |rows| && (rows[i].parent == k || Some(rows[i].id) == k)
    ensures k in Loaded(rows) ==> Loaded(rows)[k] == Children(rows, k)
    ensures k !in Loaded(rows) ==> Children(rows, k) == []
    decreases |rows|
  {
    if rows != [] {
      var front := rows[..|rows| - 1];
      LoadedInOrder(front, k);
      assert forall i :: 0 <= i < |front| ==> front[i] == rows[i];
      assert k in Loaded(rows) <==> k in Loaded(front) || k == rows[|rows| - 1].parent || k == Some(rows[|rows| - 1].id);
      if k in Loaded(rows) && k !in Loaded(front) {
        assert rows[|rows| - 1].parent == k || Some(rows[|rows| - 1].id) == k;
      }
    }
  }

  // ----- adding

  lemma RankExtends(t: Tree, rank: map<int, nat>, id: int, r: nat)
    requires Forest(t, rank) && Some(id) !in t
    ensures Forest(t, rank[id := r])
  {
  }

  /** The parent keeps its rank, if it has a list; the child ranks above it. */
  ghost function ChildRank(t: Tree, rank: map<int, nat>, parent: int, id: int): map<int, nat>
    requires Forest(t, rank)
  {
    var r := if Some(parent) in t then rank[parent] else 0;
    rank[parent := r][id := r + 1]
  }

  /** A child whose number no list belongs to (it may have been used and deleted before): the forest stays one, and
      only the parent's list grows, or is begun. */
  lemma AddedForest(t: Tree, rank: map<int, nat>, parent: int, id: int)
    requires Forest(t, rank) && Some(id) !in t && id != 0 && id != parent
    ensures Forest(Put(t, Entry(id, Some(parent))), ChildRank(t, rank, parent, id))
    ensures var u := Put(t, Entry(id, Some(parent)));
      && u[Some(parent)] == (if Some(parent) in t then t[Some(parent)] else []) + [Entry(id, Some(parent))] && u[Some(id)] == []
      && u.Keys == t.Keys + {Some(parent), Some(id)} && forall k :: k in t && k != Some(parent) ==> u[k] == t[k]
  {
    hide Put;
    ChildShape(t, parent, id);
    RankedForChild(t, rank, parent, id);
    hide Forest;
    PutForest(t, ChildRank(t, rank, parent, id), Entry(id, Some(parent)));
  }

  lemma RankedForChild(t: Tree, rank: map<int, nat>, parent: int, id: int)
    requires Forest(t, rank) && Some(id) !in t && id != parent
    ensures Forest(t, ChildRank(t, rank, parent, id)) && forall e :: Listed(t, e) ==> e.id != id
  {
    var r := if Some(parent) in t then rank[parent] else 0;
    if Some(parent) in t { assert rank[parent := r] == rank; } else { RankExtends(t, rank, parent, r); }
    RankExtends(t, rank[parent := r], id, r + 1);
  }

  lemma ChildShape(t: Tree, parent: int, id: int)
    requires Some(id) !in t && id != parent
    ensures var u := Put(t, Entry(id, Some(parent)));
      && u[Some(parent)] == (if Some(parent) in t then t[Some(parent)] else []) + [Entry(id, Some(parent))] && u[Some(id)] == []
      && u.Keys == t.Keys + {Some(parent), Some(id)} && forall k :: k in t && k != Some(parent) ==> u[k] == t[k]
  {
  }

  // ----- deleting a subtree

  predicate Protected(node: Entry, allowRoot: bool) { IsRoot(node) && !allowRoot }

  /** The tree without `node` and everything below it; a protected root stays, with no children. */
  ghost function Deleted(t: Tree, rank: map<int, nat>, node: Entry, allowRoot: bool): Tree {
    var gone := Below(t, rank, node.id);
    if Protected(node, allowRoot) then
      map k | k in t && (k !in gone || k == Some(node.id)) :: if k == Some(node.id) then [] else t[k]
    else
      map k | k in t && k !in gone :: if k == node.parent then Without(t[k], node.id) else t[k]
  }

  /** The node given really is the entry of that id. */
  ghost predicate Genuine(t: Tree, node: Entry) {
    node.id != 0 && forall e :: Listed(t, e) && e.id == node.id ==> e == node
  }

  /** Any node but a root that is its own parent. */
  ghost predicate Deletable(t: Tree, node: Entry) {
    Genuine(t, node) && node.parent != Some(node.id)
  }

  lemma {:induction false} UnderRank(t: Tree, rank: map<int, nat>, x: int, r: int)
    requires Forest(t, rank) && Under(t, rank, x, r) && x != r
    ensures x in rank && r in rank && rank[r] < rank[x]
    decreases if x in rank then rank[x] else 0
  {
    var p :| Listed(t, Entry(x, Some(p))) && x in rank && p in rank && rank[p] < rank[x] && Under(t, rank, p, r);
    if p != r { UnderRank(t, rank, p, r); }
  }

  /** An entry is below `r` exactly when it is `r` or its parent is below `r`. */
  lemma UnderChild(t: Tree, rank: map<int, nat>, e: Entry, r: int)
    requires Forest(t, rank) && Listed(t, e)
    ensures Under(t, rank, e.id, r) <==> e.id == r || (e.parent.Some? && Under(t, rank, e.parent.value, r))
  {
    if e.parent.Some? { assert e == Entry(e.id, Some(e.parent.value)); }
    if Under(t, rank, e.id, r) && e.id != r {
      var p :| Listed(t, Entry(e.id, Some(p))) && e.id in rank && p in rank && rank[p] < rank[e.id] && Under(t, rank, p, r);
      assert Entry(e.id, Some(p)) == e;
    }
  }

  lemma UnderSelf(t: Tree, rank: map<int, nat>, x: int)
    ensures Under(t, rank, x, x)
  {
  }

  /** What a deletion keeps. */
  ghost predicate Survives(t: Tree, rank: map<int, nat>, node: Entry, allowRoot: bool, e: Entry) {
    Listed(t, e) && (!Under(t, rank, e.id, node.id) || (e == node && Protected(node, allowRoot)))
  }

  lemma DeletedLists(t: Tree, rank: map<int, nat>, node: Entry, allowRoot: bool, e: Entry)
    requires Forest(t, rank) && Deletable(t, node) && Some(node.id) in t
    ensures Listed(Deleted(t, rank, node, allowRoot), e) <==> Survives(t, rank, node, allowRoot, e)
  {
    UnderSelf(t, rank, node.id);
    hide Under, NoRepeats;
    if Listed(t, e) {
      WithoutMembers(t[e.parent], node.id);
      UnderChild(t, rank, e, node.id);
      if e == node && e.parent.Some? && Under(t, rank, e.parent.value, node.id) { UnderRank(t, rank, e.parent.value, node.id); }
    } else if e.parent in t {
      WithoutMembers(t[e.parent], node.id);
    }
  }

  lemma {:induction false} WithoutOne(s: seq<Entry>, i: nat)
    requires NoRepeats(s) && i < |s|
    ensures Without(s, s[i].id) == s[..i] + s[i + 1..]
    decreases |s|
  {
    var tail := s[1..];
    OthersDiffer(s);
    hide NoRepeats;
    if i == 0 {
      WithoutNone(tail, s[0].id);
      assert s[..0] + s[1..] == tail;
    } else {
      WithoutOne(tail, i - 1);
      assert s[i] == tail[i - 1] && s[0].id != s[i].id;
      assert s[..i] + s[i + 1..] == [s[0]] + (tail[..i - 1] + tail[i..]);
    }
  }

  lemma OthersDiffer(s: seq<Entry>)
    requires NoRepeats(s) && s != []
    ensures NoRepeats(s[1..]) && forall j :: 0 <= j < |s[1..]| ==> s[1..][j].id != s[0].id
  {
  }

  lemma {:induction false} WithoutNone(s: seq<Entry>, id: int)
    requires forall j :: 0 <= j < |s| ==> s[j].id != id
    ensures Without(s, id) == s
  {
    if s != [] {
      WithoutNone(s[1..], id);
      assert s == [s[0]] + s[1..];
    }
  }

  /** A deletion takes the lists of the node and of all below it, but leaves an empty one to a root that is not allowed to
      go; of its parent's list it takes the node out, and all other lists stay as they are. */
  lemma DeletedLeaves(t: Tree, rank: map<int, nat>, node: Entry, allowRoot: bool, k: Option<int>)
    requires Forest(t, rank) && Deletable(t, node) && Listed(t, node)
    ensures var u := Deleted(t, rank, node, allowRoot);
      var stays := !allowRoot && (node.parent == None || node.parent == Some(0));
      var gone := k in t && k.Some? && Under(t, rank, k.value, node.id);
      if k == Some(node.id) then k in u <==> stays && k in t
      else if k !in t || gone then k !in u
      else k in u && if k == node.parent && !stays
                     then exists i :: 0 <= i < |t[k]| && t[k][i] == node && u[k] == t[k][..i] + t[k][i + 1..]
                     else u[k] == t[k]
    ensures var u := Deleted(t, rank, node, allowRoot); Some(node.id) in u ==> u[Some(node.id)] == []
  {
    UnderSelf(t, rank, node.id);
    hide Under;
    if k == node.parent && k in t {
      var i :| 0 <= i < |t[k]| && t[k][i] == node;
      WithoutOne(t[k], i);
    }
  }

  /** A part of a forest that lists no entry without a list of its own is a forest. */
  lemma SubForest(t: Tree, u: Tree, rank: map<int, nat>)
    requires Forest(t, rank) && u.Keys <= t.Keys
    requires forall k :: k in u ==> NoRepeats(u[k]) && forall e :: e in u[k] ==> e in t[k]
    requires forall e :: Listed(u, e) ==> Some(e.id) in u
    ensures Forest(u, rank)
  {
    forall e | Listed(u, e) ensures Listed(t, e) {}
    forall k, e | k in u && e in u[k] ensures e.parent == k && Some(e.id) in u && e.id != 0 {
      assert k in t && e in t[k];
      assert Listed(u, e);
    }
  }

  /** Deleting a subtree leaves a forest: no dangling child, other subtrees untouched. */
  lemma DeletedForest(t: Tree, rank: map<int, nat>, node: Entry, allowRoot: bool)
    requires Forest(t, rank) && Deletable(t, node) && Some(node.id) in t
    ensures Forest(Deleted(t, rank, node, allowRoot), rank)
    ensures forall e :: Listed(Deleted(t, rank, node, allowRoot), e) <==> Survives(t, rank, node, allowRoot, e)
  {
    var u := Deleted(t, rank, node, allowRoot);
    forall e ensures Listed(u, e) <==> Survives(t, rank, node, allowRoot, e) {
      DeletedLists(t, rank, node, allowRoot, e);
    }
    forall k | k in u ensures k in t && NoRepeats(u[k]) && (forall e :: e in u[k] ==> e in t[k]) { WithoutMembers(t[k], node.id); }
    forall e | Listed(u, e) ensures Some(e.id) in u {
      assert Survives(t, rank, node, allowRoot, e);
    }
    hide Under, Deleted, Below, Forest, NoRepeats, Survives;
    SubForest(t, u, rank);
  }

  // ----- the worklist

  ghost predicate ChildOfDone(t: Tree, done: set<int>, e: Entry) { Listed(t, e) && e.parent.Some? && e.parent.value in done }

  /** The list holds the node, or children of what is done, each once. */
  ghost predicate ListOk(t: Tree, node: Entry, done: set<int>, work: seq<Entry>) {
    && NoRepeats(work)
    && (forall w :: w in work ==> w.id !in done && Some(w.id) in t && (w == node || ChildOfDone(t, done, w)))
  }

  /** What is done lies below the node. */
  ghost predicate DoneOk(t: Tree, rank: map<int, nat>, node: Entry, done: set<int>) {
    && (forall x :: x in done ==> Some(x) in t && Under(t, rank, x, node.id))
    && (forall x :: x in done && x != node.id ==> exists p :: ChildOfDone(t, done, Entry(x, Some(p))))
  }

  /** Nothing below the node is missed. */
  ghost predicate NoneMissed(t: Tree, node: Entry, done: set<int>, work: seq<Entry>) {
    && (forall e :: ChildOfDone(t, done, e) ==> e.id in done || e in work)
    && (node.id in done || (work == [node] && done == {}))
  }

  ghost predicate Working(t: Tree, rank: map<int, nat>, node: Entry, done: set<int>, work: seq<Entry>) {
    ListOk(t, node, done, work) && DoneOk(t, rank, node, done) && NoneMissed(t, node, done, work)
  }

  lemma HeadIsBelow(t: Tree, rank: map<int, nat>, node: Entry, done: set<int>, work: seq<Entry>)
    requires Forest(t, rank) && Deletable(t, node) && Working(t, rank, node, done, work) && work != []
    ensures Some(work[0].id) in t && work[0].id !in done && Under(t, rank, work[0].id, node.id)
    ensures work[0] != node ==> !IsRoot(work[0]) && work[0].id != node.id
    ensures work[0].id != node.id ==> node.id in rank && work[0].id in rank && rank[node.id] < rank[work[0].id]
  {
    hide Under, NoRepeats, NoneMissed;
    var e := work[0];
    assert e in work;
    if e == node { UnderSelf(t, rank, e.id); }
    if e != node {
      UnderChild(t, rank, e, node.id);
      if e.id != node.id { UnderRank(t, rank, e.id, node.id); }
    }
  }

  /** The children of the entry taken from the list are new to the list and to `done`. */
  lemma KidIsNew(t: Tree, rank: map<int, nat>, node: Entry, done: set<int>, work: seq<Entry>, k: Entry)
    requires Forest(t, rank) && Deletable(t, node) && Working(t, rank, node, done, work) && work != []
    requires Listed(t, k) && k.parent == Some(work[0].id)
    ensures k.id !in done + {work[0].id} && k.id != node.id && forall w :: w in work ==> w.id != k.id
  {
    HeadIsBelow(t, rank, node, done, work);
    hide Under;
    assert k.id != node.id && k.id != work[0].id;
    assert k.id !in done;
  }

  lemma JoinNoRepeats(a: seq<Entry>, b: seq<Entry>)
    requires NoRepeats(a) && NoRepeats(b) && forall x, y :: x in a && y in b ==> x.id != y.id
    ensures NoRepeats(a + b)
  {
  }

  lemma ListStep(t: Tree, node: Entry, done: set<int>, e: Entry, tail: seq<Entry>, kids: seq<Entry>)
    requires ListOk(t, node, done, [e] + tail) && NoRepeats(kids)
    requires forall k :: k in kids ==>
      Listed(t, k) && k.parent == Some(e.id) && Some(k.id) in t && k.id !in done + {e.id} && forall w :: w in [e] + tail ==> w.id != k.id
    ensures ListOk(t, node, done + {e.id}, tail + kids)
  {
    hide NoRepeats;
    TailNoRepeats(e, tail);
    JoinNoRepeats(tail, kids);
  }

  lemma TailNoRepeats(e: Entry, tail: seq<Entry>)
    requires NoRepeats([e] + tail)
    ensures NoRepeats(tail) && forall w :: w in tail ==> w in [e] + tail && w.id != e.id
  {
    var work := [e] + tail;
    assert work[0] == e && forall i :: 0 <= i < |tail| ==> tail[i] == work[i + 1];
  }

  lemma DoneStep(t: Tree, rank: map<int, nat>, node: Entry, done: set<int>, e: Entry)
    requires DoneOk(t, rank, node, done) && Some(e.id) in t && Under(t, rank, e.id, node.id)
    requires e == node || ChildOfDone(t, done, e)
    ensures DoneOk(t, rank, node, done + {e.id})
  {
    hide Under;
    var done' := done + {e.id};
    if e != node { assert e == Entry(e.id, Some(e.parent.value)); }
    forall x | x in done' && x != node.id ensures exists p :: ChildOfDone(t, done', Entry(x, Some(p))) {
      if x == e.id {
        var q := e.parent.value;
        assert e == Entry(x, Some(q));
        assert ChildOfDone(t, done', Entry(x, Some(q)));
      } else {
        var p :| ChildOfDone(t, done, Entry(x, Some(p)));
        assert ChildOfDone(t, done', Entry(x, Some(p)));
      }
    }
  }

  lemma MissStep(t: Tree, node: Entry, done: set<int>, e: Entry, tail: seq<Entry>)
    requires NoneMissed(t, node, done, [e] + tail) && Some(e.id) in t
    ensures NoneMissed(t, node, done + {e.id}, tail + t[Some(e.id)])
  {
    var done', work' := done + {e.id}, tail + t[Some(e.id)];
    forall x | ChildOfDone(t, done', x) ensures x.id in done' || x in work' {
      if x.parent.value != e.id { assert ChildOfDone(t, done, x); }
    }
  }

  lemma WorkStep(t: Tree, rank: map<int, nat>, node: Entry, done: set<int>, work: seq<Entry>)
    requires Forest(t, rank) && Deletable(t, node) && Working(t, rank, node, done, work) && work != []
    ensures Some(work[0].id) in t
    ensures Working(t, rank, node, done + {work[0].id}, work[1..] + t[Some(work[0].id)])
  {
    var e, tail := work[0], work[1..];
    HeadIsBelow(t, rank, node, done, work);
    var kids := t[Some(e.id)];
    assert work == [e] + tail && e in work;
    forall k | k in kids
      ensures Listed(t, k) && k.parent == Some(e.id) && Some(k.id) in t && k.id !in done + {e.id} && forall w :: w in work ==> w.id != k.id
    {
      KidIsNew(t, rank, node, done, work, k);
    }
    assert NoRepeats(kids);
    hide Under, NoRepeats, Forest, Deletable;
    ListStep(t, node, done, e, tail, kids);
    DoneStep(t, rank, node, done, e);
    MissStep(t, node, done, e, tail);
  }

  /** When the list is empty, everything below the node is done. */
  lemma {:induction false} AllDone(t: Tree, rank: map<int, nat>, node: Entry, done: set<int>, x: int)
    requires Forest(t, rank) && Working(t, rank, node, done, []) && Under(t, rank, x, node.id)
    ensures x in done
    decreases if x in rank then rank[x] else 0
  {
    if x != node.id {
      var p :| Listed(t, Entry(x, Some(p))) && x in rank && p in rank && rank[p] < rank[x] && Under(t, rank, p, node.id);
      AllDone(t, rank, node, done, p);
      assert ChildOfDone(t, done, Entry(x, Some(p)));
    }
  }

  /** The map once the lists of `done` are gone, but for a protected root's. */
  ghost function Remaining(t: Tree, done: set<int>, node: Entry, allowRoot: bool): Tree {
    map k | k in t && !(k.Some? && k.value in done && !(k.value == node.id && Protected(node, allowRoot))) :: t[k]
  }

  lemma RemainingStep(t: Tree, done: set<int>, node: Entry, allowRoot: bool, e: Entry)
    requires Some(e.id) in t && e.id !in done && (e != node ==> !IsRoot(e) && e.id != node.id)
    ensures Some(e.id) in Remaining(t, done, node, allowRoot)
    ensures Remaining(t, done, node, allowRoot)[Some(e.id)] == t[Some(e.id)]
    ensures Remaining(t, done + {e.id}, node, allowRoot) ==
      if !IsRoot(e) || allowRoot then Remaining(t, done, node, allowRoot) - {Some(e.id)} else Remaining(t, done, node, allowRoot)
  {
  }

  lemma BelowIsDone(t: Tree, rank: map<int, nat>, node: Entry, done: set<int>, x: int)
    requires Forest(t, rank) && Working(t, rank, node, done, [])
    ensures Some(x) in Below(t, rank, node.id) <==> x in done
    ensures None !in Below(t, rank, node.id)
  {
    hide Under, Forest, ListOk, NoneMissed;
    if x !in done && Some(x) in Below(t, rank, node.id) {
      AllDone(t, rank, node, done, x);
    }
  }

  lemma RemainingAll(t: Tree, rank: map<int, nat>, node: Entry, allowRoot: bool, done: set<int>)
    requires Forest(t, rank) && Deletable(t, node) && Working(t, rank, node, done, []) && Some(node.id) in t
    ensures var r := Remaining(t, done, node, allowRoot);
      Deleted(t, rank, node, allowRoot) ==
        if Protected(node, allowRoot) then r[Some(node.id) := []]
        else if node.parent in r then r[node.parent := Without(r[node.parent], node.id)] else r
  {
    hide Below, Under, Forest, Working, Without;
    forall k: Option<int> ensures k in Below(t, rank, node.id) <==> k.Some? && k.value in done {
      BelowIsDone(t, rank, node, done, if k.Some? then k.value else 0);
    }
  }

  datatype TreeError = KeyError

  class EntryStore {
    var tree: Tree
    ghost var rank: map<int, nat>

    ghost predicate Valid()
      reads this
    {
      Forest(tree, rank)
    }

    /** Load the rows of the table. */
    constructor (rows: seq<Entry>, ghost rank: map<int, nat>)
      requires AcyclicRows(rows, rank)
      ensures Valid() && tree == Loaded(rows)
    {
      this.rank := rank;
      var t: Tree, i := map[], 0;
      while i < |rows|
        invariant 0 <= i <= |rows| && t == Loaded(rows[..i])
      {
        assert rows[..i + 1][..i] == rows[..i] && |rows[..i + 1]| == i + 1;
        assert Loaded(rows[..i + 1]) == Put(Loaded(rows[..i]), rows[i]);
        var e := rows[i];
        t := t[e.parent := if e.parent in t then t[e.parent] + [e] else [e]];
        if Some(e.id) !in t {
          t := t[Some(e.id) := []];
        }
        i := i + 1;
      }
      assert rows[..i] == rows;
      LoadedForest(rows, rank);
      tree := t;
    }

    /** A new child or leaf, under the id the table gave it. */
    method AddChild(parent: int, id: int)
      requires Valid() && Some(id) !in tree && id != 0 && id != parent
      modifies this
      ensures Valid() && tree == Put(old(tree), Entry(id, Some(parent)))
    {
      AddedForest(tree, rank, parent, id);
      rank := ChildRank(tree, rank, parent, id);
      tree := tree[Some(parent) := (if Some(parent) in tree then tree[Some(parent)] else []) + [Entry(id, Some(parent))]];
      if Some(id) !in tree {
        tree := tree[Some(id) := []];
      }
    }

    /** Remove a node and everything below it. */
    method DeleteFrom(node: Entry, allowRoot: bool) returns (r: Outcome<(), TreeError>)
      requires Valid() && Deletable(tree, node)
      modifies this
      ensures Valid() && rank == old(rank)
      ensures Some(node.id) !in old(tree) ==> r == Raised(KeyError) && tree == old(tree)
      ensures Some(node.id) in old(tree) ==> r == Ok(()) && tree == Deleted(old(tree), rank, node, allowRoot)
    {
      if Some(node.id) !in tree {
        return Raised(KeyError);
      }
      ghost var t, done, todo := tree, {}, tree.Keys;
      var work := [node];
      DeletedForest(t, rank, node, allowRoot);
      hide Under, Forest, Deletable, Working, Remaining, Deleted, Below;
      StartWork(t, rank, node, allowRoot);
      while work != []
        invariant Working(t, rank, node, done, work) && rank == old(rank)
        invariant tree == Remaining(t, done, node, allowRoot)
        invariant forall k :: k in t && k.Some? && k.value !in done ==> k in todo
        decreases todo
      {
        var entry := work[0];
        HeadIsBelow(t, rank, node, done, work);
        WorkStep(t, rank, node, done, work);
        RemainingStep(t, done, node, allowRoot, entry);
        work := work[1..] + tree[Some(entry.id)];
        if !IsRoot(entry) || allowRoot {
          tree := tree - {Some(entry.id)};
        }
        done, todo := done + {entry.id}, todo - {Some(entry.id)};
      }
      RemainingAll(t, rank, node, allowRoot, done);
      if !IsRoot(node) || allowRoot {
        if node.parent in tree {
          tree := tree[node.parent := Without(tree[node.parent], node.id)];
        }
      } else {
        tree := tree[Some(node.id) := []];
      }
      r := Ok(());
    }
  }

  lemma StartWork(t: Tree, rank: map<int, nat>, node: Entry, allowRoot: bool)
    requires Some(node.id) in t
    ensures Working(t, rank, node, {}, [node]) && Remaining(t, {}, node, allowRoot) == t
  {
  }

  // ----- when the worklist loop ends

  /** One turn of the worklist loop. */
  function Turn(t: Tree, work: seq<Entry>, allowRoot: bool): Outcome<(Tree, seq<Entry>), TreeError> {
    if work == [] then Ok((t, work))
    else if Some(work[0].id) !in t then Raised(KeyError)
    else
      var t' := if !IsRoot(work[0]) || allowRoot then t - {Some(work[0].id)} else t;
      Ok((t', work[1..] + t[Some(work[0].id)]))
  }

  function Turns(t: Tree, work: seq<Entry>, allowRoot: bool, n: nat): Outcome<(Tree, seq<Entry>), TreeError>
    decreases n
  {
    if n == 0 then Ok((t, work))
    else
      var r := Turn(t, work, allowRoot);
      if r.Raised? then r else Turns(r.value.0, r.value.1, allowRoot, n - 1)
  }

  ghost predicate EmptyAfter(t: Tree, node: Entry, allowRoot: bool, n: nat) {
    var r := Turns(t, [node], allowRoot, n);
    r.Ok? && r.value.1 == []
  }

  /** Some number of turns empties the work list. */
  ghost predicate Ends(t: Tree, node: Entry, allowRoot: bool) {
    exists n: nat :: EmptyAfter(t, node, allowRoot, n)
  }

  /** For a node that is not its own parent the list empties, with everything below the node done. */
  lemma {:induction false} TurnsEnd(t: Tree, rank: map<int, nat>, node: Entry, allowRoot: bool, done: set<int>, work: seq<Entry>,
                                    todo: set<Option<int>>) returns (n: nat, done': set<int>)
    requires Forest(t, rank) && Deletable(t, node) && Working(t, rank, node, done, work)
    requires forall k :: k in t && k.Some? && k.value !in done ==> k in todo
    ensures Turns(Remaining(t, done, node, allowRoot), work, allowRoot, n) == Ok((Remaining(t, done', node, allowRoot), []))
    ensures Working(t, rank, node, done', [])
    decreases todo
  {
    hide Forest, Deletable, Working, Remaining, Under;
    if work == [] {
      n, done' := 0, done;
    } else {
      var e := work[0];
      HeadIsBelow(t, rank, node, done, work);
      WorkStep(t, rank, node, done, work);
      RemainingStep(t, done, node, allowRoot, e);
      n, done' := TurnsEnd(t, rank, node, allowRoot, done + {e.id}, work[1..] + t[Some(e.id)], todo - {Some(e.id)});
      n := n + 1;
    }
  }

  /** Every entry of that number is this one. */
  ghost predicate OnlyOne(t: Tree, work: seq<Entry>, root: Entry) {
    && (forall e :: e in work && e.id == root.id ==> e == root)
    && (forall k, e :: k in t && e in t[k] && e.id == root.id ==> e == root)
  }

  /** A root in its own list is in the work list after any number of turns that raise nothing. */
  lemma {:induction false} RootStays(t: Tree, work: seq<Entry>, root: Entry, allowRoot: bool, n: nat)
    requires root in work && OnlyOne(t, work, root)
    requires Some(root.id) in t ==> root in t[Some(root.id)]
    ensures var r := Turns(t, work, allowRoot, n); r.Ok? ==> root in r.value.1
    decreases n
  {
    if n > 0 && Some(work[0].id) in t {
      var (t', work') := Turn(t, work, allowRoot).value;
      assert work == [work[0]] + work[1..];
      RootStays(t', work', root, allowRoot, n - 1);
    }
  }

  /** Deletion ends exactly when the node is not its own parent. */
  lemma DeletionEnds(t: Tree, rank: map<int, nat>, node: Entry, allowRoot: bool)
    requires Forest(t, rank) && Genuine(t, node) && Some(node.id) in t
    requires node.parent == Some(node.id) ==> Listed(t, node)
    ensures Ends(t, node, allowRoot) <==> node.parent != Some(node.id)
  {
    if node.parent != Some(node.id) {
      StartWork(t, rank, node, allowRoot);
      var n, done := TurnsEnd(t, rank, node, allowRoot, {}, [node], t.Keys);
      assert EmptyAfter(t, node, allowRoot, n);
    } else {
      forall n: nat ensures !EmptyAfter(t, node, allowRoot, n) {
        RootIsOnlyOne(t, rank, node);
        RootStays(t, [node], node, allowRoot, n);
      }
    }
  }

  lemma RootIsOnlyOne(t: Tree, rank: map<int, nat>, root: Entry)
    requires Forest(t, rank) && Listed(t, root)
    ensures OnlyOne(t, [root], root) && OnlyOne(t, t[root.parent], root)
  {
    forall k, e | k in t && e in t[k] && e.id == root.id ensures e == root { assert Listed(t, e); }
  }

  // ----- what happens to a root that is its own parent

  /** An entry in the work list that has no list makes the loop raise. */
  lemma {:induction false} GoneRaises(t: Tree, work: seq<Entry>, allowRoot: bool, i: nat) returns (n: nat)
    requires i < |work| && Some(work[i].id) !in t
    ensures Turns(t, work, allowRoot, n).Raised?
    decreases i
  {
    if Some(work[0].id) !in t {
      n := 1;
      assert Turns(t, work, allowRoot, 1) == Raised(KeyError);
    } else {
      var (t', work') := Turn(t, work, allowRoot).value;
      n := GoneRaises(t', work', allowRoot, i - 1);
      n := n + 1;
    }
  }

  /** Not protected, such a root makes deletion raise: its list is gone at the second look. */
  lemma OwnParentRaises(t: Tree, root: Entry) returns (n: nat)
    requires root.parent == Some(root.id) && Listed(t, root)
    ensures Turns(t, [root], true, n).Raised?
  {
    var (t', work') := Turn(t, [root], true).value;
    assert work' == t[Some(root.id)];
    var i :| 0 <= i < |work'| && work'[i] == root;
    n := GoneRaises(t', work', true, i);
    n := n + 1;
  }

  /** Protected and listing only itself, it is looked at for ever. */
  lemma {:induction false} OwnParentLoops(t: Tree, root: Entry, n: nat)
    requires root.parent == Some(root.id) && root.parent in t && t[root.parent] == [root]
    ensures Turns(t, [root], false, n) == Ok((t, [root]))
    decreases n
  {
    if n > 0 {
      assert [root][1..] + [root] == [root];
      OwnParentLoops(t, root, n - 1);
    }
  }

  /** An entry that is no root raises when it is in the list twice. */
  lemma {:induction false} TwiceRaises(t: Tree, work: seq<Entry>, i: nat, j: nat) returns (n: nat)
    requires i < j < |work| && work[i] == work[j] && !IsRoot(work[i])
    ensures Turns(t, work, false, n).Raised?
    decreases i
  {
    if Some(work[0].id) !in t {
      n := GoneRaises(t, work, false, 0);
    } else {
      var (t', work') := Turn(t, work, false).value;
      if i == 0 {
        n := GoneRaises(t', work', false, j - 1);
      } else {
        n := TwiceRaises(t', work', i - 1, j - 1);
      }
      n := n + 1;
    }
  }

  /** A protected root comes up again and puts its whole list back, gone entries included. */
  lemma {:induction false} ReturnsGone(t: Tree, work: seq<Entry>, root: Entry, c: Entry, p: nat) returns (n: nat)
    requires IsRoot(root) && p < |work| && work[p] == root && OnlyOne(t, work, root)
    requires Some(root.id) in t && c in t[Some(root.id)] && Some(c.id) !in t
    ensures Turns(t, work, false, n).Raised?
    decreases p
  {
    if Some(work[0].id) !in t {
      n := GoneRaises(t, work, false, 0);
    } else {
      var (t', work') := Turn(t, work, false).value;
      if p == 0 {
        var i :| 0 <= i < |t[Some(root.id)]| && t[Some(root.id)][i] == c;
        n := GoneRaises(t', work', false, |work| - 1 + i);
      } else {
        TurnKeepsRoot(t, work, root);
        n := ReturnsGone(t', work', root, c, p - 1);
      }
      n := n + 1;
    }
  }

  lemma TurnKeepsRoot(t: Tree, work: seq<Entry>, root: Entry)
    requires IsRoot(root) && OnlyOne(t, work, root) && work != [] && Some(work[0].id) in t && Some(root.id) in t
    ensures var (t', work') := Turn(t, work, false).value;
      OnlyOne(t', work', root) && Some(root.id) in t' && t'[Some(root.id)] == t[Some(root.id)]
  {
    assert work == [work[0]] + work[1..];
  }

  lemma {:induction false} RootAndChild(t: Tree, work: seq<Entry>, root: Entry, c: Entry, p: nat, q: nat) returns (n: nat)
    requires IsRoot(root) && !IsRoot(c) && OnlyOne(t, work, root)
    requires p < |work| && q < |work| && work[p] == root && work[q] == c
    requires Some(root.id) in t && c in t[Some(root.id)]
    ensures Turns(t, work, false, n).Raised?
    decreases p
  {
    if Some(work[0].id) !in t {
      n := GoneRaises(t, work, false, 0);
    } else {
      var (t', work') := Turn(t, work, false).value;
      TurnKeepsRoot(t, work, root);
      if p == 0 {
        var i :| 0 <= i < |t[Some(root.id)]| && t[Some(root.id)][i] == c;
        n := TwiceRaises(t', work', q - 1, |work| - 1 + i);
      } else if q == 0 {
        n := ReturnsGone(t', work', root, c, p - 1);
      } else {
        n := RootAndChild(t', work', root, c, p - 1, q - 1);
      }
      n := n + 1;
    }
  }

  /** Protected, such a root makes deletion raise exactly when it has a child: the child comes up a second time. */
  lemma OwnParentKept(t: Tree, rank: map<int, nat>, root: Entry)
    requires Forest(t, rank) && root.parent == Some(root.id) && Listed(t, root)
    ensures (exists n: nat :: Turns(t, [root], false, n).Raised?) <==> exists c :: c in t[root.parent] && c != root
  {
    hide Turns;
    if c :| c in t[root.parent] && c != root {
      var n := ChildRaises(t, rank, root, c);
    } else {
      Alone(t[root.parent], root);
      forall n: nat ensures !Turns(t, [root], false, n).Raised? { OwnParentLoops(t, root, n); }
    }
  }

  lemma ChildRaises(t: Tree, rank: map<int, nat>, root: Entry, c: Entry) returns (n: nat)
    requires Forest(t, rank) && root.parent == Some(root.id) && Listed(t, root) && c in t[root.parent] && c != root
    ensures Turns(t, [root], false, n).Raised?
  {
    hide Forest, OnlyOne, Turns, IsRoot;
    RootIsOnlyOne(t, rank, root);
    NoSecondRoot(t, rank, root, c);
    var list := t[root.parent];
    var p :| 0 <= p < |list| && list[p] == root;
    var q :| 0 <= q < |list| && list[q] == c;
    n := RootAndChild(t, list, root, c, p, q);
    FirstTurn(t, root, n);
    n := n + 1;
  }

  lemma NoSecondRoot(t: Tree, rank: map<int, nat>, root: Entry, c: Entry)
    requires Forest(t, rank) && root.parent == Some(root.id) && Listed(t, root) && c in t[root.parent] && c != root
    ensures IsRoot(root) && !IsRoot(c)
  {
    assert Listed(t, c);
  }

  lemma FirstTurn(t: Tree, root: Entry, n: nat)
    requires root.parent == Some(root.id) && root.parent in t && Turns(t, t[root.parent], false, n).Raised?
    ensures Turns(t, [root], false, n + 1).Raised?
  {
    assert [root][1..] + t[root.parent] == t[root.parent];
  }

  lemma Alone(s: seq<Entry>, x: Entry)
    requires NoRepeats(s) && x in s && forall y :: y in s ==> y == x
    ensures s == [x]
  {
    forall i | 0 <= i < |s| ensures s[i] == x { assert s[i] in s; }
    var last := s[|s| - 1];
    assert s[0].id == last.id;
  }
}
