/**
  The search for a typed HTTP status through wrapped exceptions and responses.

  Objects form a graph: each has the status that its own type carries, if any, and its non-null
  children in the order in which the fields are looked at.
 */
module HttpStatus {
  import opened Wrappers

  const MAX_DEPTH := 8

  datatype Object = Object(status: Option<int>, children: seq<nat>)

  type Graph = map<nat, Object>

  ghost predicate Closed(g: Graph) {
    forall n, c :: n in g && c in g[n].children ==> c in g
  }

  /** The objects at most k steps from the root. */
  ghost function Within(g: Graph, root: nat, k: nat): (r: set<nat>)
    requires Closed(g) && root in g
    ensures r <= g.Keys && root in r
  {
    if k == 0 then {root}
    else
      var near := Within(g, root, k - 1);
      near + set n, c | n in near && c in g[n].children :: c
  }

  datatype Entry = Entry(node: nat, depth: nat)

  /** The queue holds reachable objects in order of depth, at most one deeper than the one being looked at. */
  ghost predicate Queue(g: Graph, root: nat, pending: seq<Entry>, i: nat)
    requires Closed(g) && root in g
  {
    && i <= |pending| && |pending| > 0 && pending[0] == Entry(root, 0)
    && (forall j :: 0 <= j < |pending| ==> NearEntry(g, root, pending[j]))
    && (forall j, k :: 0 <= j < k < |pending| ==> pending[j].depth <= pending[k].depth)
    && (i < |pending| ==> forall j :: 0 <= j < |pending| ==> pending[j].depth <= pending[i].depth + 1)
  }

  ghost predicate NearEntry(g: Graph, root: nat, e: Entry)
    requires Closed(g) && root in g
  {
    e.node in g && e.depth <= MAX_DEPTH && e.node in Within(g, root, e.depth)
  }

  /** The objects looked at, with the depth at which each was expanded: no status, and every child queued. */
  ghost predicate Looked(g: Graph, pending: seq<Entry>, i: nat, first: map<nat, nat>)
    requires Closed(g) && i <= |pending|
  {
    && (forall n :: n in first ==> n in g && g[n].status.None?)
    && (forall n, c :: n in first && first[n] < MAX_DEPTH && c in g[n].children ==> Entry(c, first[n] + 1) in pending)
    && (forall j :: 0 <= j < i ==> pending[j].node in first && first[pending[j].node] <= pending[j].depth)
    && forall n, j :: n in first && i <= j < |pending| ==> first[n] <= pending[j].depth
  }

  lemma EntryIsLooked(g: Graph, root: nat, pending: seq<Entry>, i: nat, first: map<nat, nat>, e: Entry)
    requires Closed(g) && root in g && Queue(g, root, pending, i) && Looked(g, pending, i, first)
    requires e in pending && (i < |pending| ==> e.depth < pending[i].depth)
    ensures e.node in first && first[e.node] <= e.depth
  {
    hide NearEntry, Closed;
    var q :| 0 <= q < |pending| && pending[q] == e;
  }

  /** Every object nearer than the next entry has been looked at. */
  lemma {:induction false} NearerIsLooked(g: Graph, root: nat, pending: seq<Entry>, i: nat, first: map<nat, nat>, k: nat, n: nat)
    requires Closed(g) && root in g && Queue(g, root, pending, i) && Looked(g, pending, i, first)
    requires k <= MAX_DEPTH && (i < |pending| ==> k < pending[i].depth) && n in Within(g, root, k)
    ensures n in first && first[n] <= k
  {
    hide NearEntry;
    if k == 0 {
      EntryIsLooked(g, root, pending, i, first, pending[0]);
    } else if n in Within(g, root, k - 1) {
      NearerIsLooked(g, root, pending, i, first, k - 1, n);
    } else {
      var m :| m in Within(g, root, k - 1) && n in g[m].children;
      NearerIsLooked(g, root, pending, i, first, k - 1, m);
      EntryIsLooked(g, root, pending, i, first, Entry(n, first[m] + 1));
    }
  }

  /** The nearest object that carries a status, if there is one within reach. */
  ghost predicate Nearest(g: Graph, root: nat, found: Option<int>)
    requires Closed(g) && root in g
  {
    if found.None? then forall n :: n in Within(g, root, MAX_DEPTH) ==> g[n].status.None?
    else
      exists n: nat, k: nat ::
        && k <= MAX_DEPTH && n in Within(g, root, k) && g[n].status == found
        && forall m, l: nat :: l < k && m in Within(g, root, l) ==> g[m].status.None?
  }

  /** The entries that looking at a new object appends. */
  function Children(g: Graph, e: Entry): seq<Entry>
    requires e.node in g
  {
    if e.depth >= MAX_DEPTH then []
    else seq(|g[e.node].children|, j requires 0 <= j < |g[e.node].children| => Entry(g[e.node].children[j], e.depth + 1))
  }

  lemma ChildIsQueued(g: Graph, e: Entry, c: nat)
    requires e.node in g && e.depth < MAX_DEPTH && c in g[e.node].children
    ensures Entry(c, e.depth + 1) in Children(g, e)
  {
    var j :| 0 <= j < |g[e.node].children| && g[e.node].children[j] == c;
    assert Children(g, e)[j] == Entry(c, e.depth + 1);
  }

  lemma ChildIsDeeper(g: Graph, e: Entry, j: nat)
    requires e.node in g && j < |Children(g, e)|
    ensures Children(g, e)[j].depth == e.depth + 1
  {
  }

  lemma ChildIsNear(g: Graph, root: nat, e: Entry, j: nat)
    requires Closed(g) && root in g && NearEntry(g, root, e) && j < |Children(g, e)|
    ensures NearEntry(g, root, Children(g, e)[j]) && Children(g, e)[j].depth == e.depth + 1
  {
    hide Within;
    var c := Children(g, e)[j].node;
    assert c in g[e.node].children;
    WithinNext(g, root, e.depth, e.node, c);
  }

  lemma WithinNext(g: Graph, root: nat, k: nat, n: nat, c: nat)
    requires Closed(g) && root in g && n in Within(g, root, k) && c in g[n].children
    ensures c in Within(g, root, k + 1)
  {
  }

  lemma QueueGrows(g: Graph, root: nat, pending: seq<Entry>, i: nat)
    requires Closed(g) && root in g && Queue(g, root, pending, i) && i < |pending|
    ensures pending[i].node in g && Queue(g, root, pending + Children(g, pending[i]), i + 1)
  {
    hide Within, Children;
    var e := pending[i];
    forall j | 0 <= j < |Children(g, e)| { ChildIsNear(g, root, e, j); }
  }

  lemma VisitLooks(g: Graph, root: nat, pending: seq<Entry>, i: nat, first: map<nat, nat>)
    requires Closed(g) && root in g && Queue(g, root, pending, i) && i < |pending| && Looked(g, pending, i, first)
    requires pending[i].node in g && g[pending[i].node].status.None? && pending[i].node !in first
    ensures Looked(g, pending + Children(g, pending[i]), i + 1, first[pending[i].node := pending[i].depth])
  {
    hide Children, NearEntry;
    var e := pending[i];
    forall j | 0 <= j < |Children(g, e)| { ChildIsDeeper(g, e, j); }
    var more := first[e.node := e.depth];
    forall n, c | n in more && more[n] < MAX_DEPTH && c in g[n].children
      ensures Entry(c, more[n] + 1) in pending + Children(g, e)
    {
      if n == e.node { ChildIsQueued(g, e, c); }
    }
  }

  /** `_http_status`: a queue that grows while it is walked, and a set of objects already looked at. */
  method HttpStatus(g: Graph, root: nat) returns (found: Option<int>)
    requires Closed(g) && root in g
    ensures Nearest(g, root, found)
  {
    hide Queue, Looked, Within, Nearest, Closed, Children;
    var pending := [Entry(root, 0)];
    var seen: set<nat> := {};
    ghost var first: map<nat, nat> := map[];
    ghost var left := g.Keys;
    var i := 0;
    Start(g, root);
    while i < |pending|
      invariant i <= |pending| && Queue(g, root, pending, i) && Looked(g, pending, i, first)
      invariant forall n :: n in seen <==> n in first
      invariant forall n :: n in g && n !in seen ==> n in left
      decreases |left|, |pending| - i
    {
      var e := pending[i];
      EntryIsNear(g, root, pending, i);
      if e.node in seen {
        PassOver(g, root, pending, i, first);
      } else {
        var status := g[e.node].status;
        if status.Some? {
          FoundIsNearest(g, root, pending, i, first);
          return status;
        }
        QueueGrows(g, root, pending, i);
        VisitLooks(g, root, pending, i, first);
        seen := seen + {e.node};
        left := left - {e.node};
        first := first[e.node := e.depth];
        pending := pending + Children(g, e);
      }
      i := i + 1;
    }
    NothingIsFound(g, root, pending, first);
    found := None;
  }

  lemma FoundIsNearest(g: Graph, root: nat, pending: seq<Entry>, i: nat, first: map<nat, nat>)
    requires Closed(g) && root in g && Queue(g, root, pending, i) && Looked(g, pending, i, first)
    requires i < |pending| && pending[i].node in g && g[pending[i].node].status.Some?
    ensures Nearest(g, root, g[pending[i].node].status)
  {
    hide Queue, Looked, Within;
    EntryIsNear(g, root, pending, i);
    forall m, l: nat | l < pending[i].depth && m in Within(g, root, l)
      ensures g[m].status.None?
    {
      NearerIsLooked(g, root, pending, i, first, l, m);
      LookedHasNone(g, pending, i, first, m);
    }
  }

  lemma NothingIsFound(g: Graph, root: nat, pending: seq<Entry>, first: map<nat, nat>)
    requires Closed(g) && root in g && Queue(g, root, pending, |pending|) && Looked(g, pending, |pending|, first)
    ensures Nearest(g, root, None)
  {
    hide Queue, Looked, Within;
    forall n | n in Within(g, root, MAX_DEPTH)
      ensures g[n].status.None?
    {
      NearerIsLooked(g, root, pending, |pending|, first, MAX_DEPTH, n);
      LookedHasNone(g, pending, |pending|, first, n);
    }
  }

  lemma Start(g: Graph, root: nat)
    requires Closed(g) && root in g
    ensures Queue(g, root, [Entry(root, 0)], 0) && Looked(g, [Entry(root, 0)], 0, map[])
  {
  }

  lemma EntryIsNear(g: Graph, root: nat, pending: seq<Entry>, i: nat)
    requires Closed(g) && root in g && Queue(g, root, pending, i) && i < |pending|
    ensures NearEntry(g, root, pending[i])
  {
    hide Within;
  }

  /** A repeated object is passed over: it was looked at no deeper. */
  lemma PassOver(g: Graph, root: nat, pending: seq<Entry>, i: nat, first: map<nat, nat>)
    requires Closed(g) && root in g && Queue(g, root, pending, i) && Looked(g, pending, i, first)
    requires i < |pending| && pending[i].node in first
    ensures Queue(g, root, pending, i + 1) && Looked(g, pending, i + 1, first)
  {
    hide NearEntry;
  }

  lemma LookedHasNone(g: Graph, pending: seq<Entry>, i: nat, first: map<nat, nat>, n: nat)
    requires Closed(g) && i <= |pending| && Looked(g, pending, i, first) && n in first
    ensures n in g && g[n].status.None?
  {
  }

  /** A status is reported exactly when some object within the depth limit carries one. */
  lemma ReportsIfAnyCarriesOne(g: Graph, root: nat, found: Option<int>)
    requires Closed(g) && root in g && Nearest(g, root, found)
    ensures found.Some? <==> exists n :: n in Within(g, root, MAX_DEPTH) && g[n].status.Some?
  {
    if found.Some? {
      var n: nat, k: nat :| && k <= MAX_DEPTH && n in Within(g, root, k) && g[n].status == found
                            && forall m, l: nat :: l < k && m in Within(g, root, l) ==> g[m].status.None?;
      WithinGrows(g, root, k, MAX_DEPTH);
    }
  }

  lemma {:induction false} WithinGrows(g: Graph, root: nat, k: nat, l: nat)
    requires Closed(g) && root in g && k <= l
    ensures Within(g, root, k) <= Within(g, root, l)
    decreases l
  {
    hide Within, Closed;
    if k < l {
      WithinGrows(g, root, k, l - 1);
      WithinStep(g, root, l);
    }
  }

  lemma WithinStep(g: Graph, root: nat, k: nat)
    requires Closed(g) && root in g && k > 0
    ensures Within(g, root, k - 1) <= Within(g, root, k)
  {
    hide Closed;
  }
}
