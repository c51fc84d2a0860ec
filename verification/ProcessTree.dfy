/// The parent/child view of one process snapshot (internal/process/tree.go).

module ProcessTree {
  import opened Common

  const MAX_TREE_DEPTH: nat := 128
  const INIT_PID := 1

  datatype Status = UnknownStatus | Starting | Running | Sleeping | Stopped | Zombie

  /// The PID-reuse-safe identity of a process.
  datatype Key = Key(pid: int, startNs: int)

  datatype Process = Process(pid: int, ppid: int, startTime: Time, status: Status, detailed: bool, uid: int) {
    function Id(): Key { Key(pid, startTime) }
  }

  type Snapshot = seq<Process>

  datatype LinkState = Intact | Reparented | Impossible | Missing | Root

  /// Lookup by PID; when the kernel repeats a PID within one snapshot, the later entry wins.
  function ByPid(s: Snapshot, pid: int): (r: Option<Process>)
    ensures r.Some? ==> r.value in s && r.value.pid == pid
    ensures r.None? ==> forall p :: p in s ==> p.pid != pid
  {
    if s == [] then None
    else if s[|s| - 1].pid == pid then Some(s[|s| - 1])
    else ByPid(s[..|s| - 1], pid)
  }

  predicate LastOfPid(s: Snapshot, i: nat, pid: int) {
    i < |s| && s[i].pid == pid && forall j :: i < j < |s| ==> s[j].pid != pid
  }

  /// What lookup finds is the last entry of that PID.
  lemma {:induction false} LastEntryWins(s: Snapshot, pid: int)
    requires ByPid(s, pid).Some?
    ensures exists i: nat :: LastOfPid(s, i, pid) && ByPid(s, pid) == Some(s[i])
  {
    if s[|s| - 1].pid == pid {
      assert LastOfPid(s, |s| - 1, pid);
    } else {
      var init := s[..|s| - 1];
      LastEntryWins(init, pid);
      var i: nat :| LastOfPid(init, i, pid) && ByPid(init, pid) == Some(init[i]);
      StillLast(s, i, pid);
    }
  }

  lemma StillLast(s: Snapshot, i: nat, pid: int)
    requires s != [] && s[|s| - 1].pid != pid && LastOfPid(s[..|s| - 1], i, pid)
    ensures LastOfPid(s, i, pid) && s[i] == s[..|s| - 1][i]
  {
    forall j | i < j < |s| ensures s[j].pid != pid {
      if j < |s| - 1 { assert s[j] == s[..|s| - 1][j]; }
    }
  }

  function ByKey(s: Snapshot, key: Key): Option<Process> {
    match ByPid(s, key.pid)
    case None => None
    case Some(p) => if p.Id() == key then Some(p) else None
  }

  function ClassifyLink(s: Snapshot, p: Process): LinkState {
    if p.pid == INIT_PID then Root
    else if p.ppid == 0 then Missing
    else if p.ppid == p.pid then Impossible
    else match ByPid(s, p.ppid)
      case None => if p.ppid == INIT_PID then Reparented else Missing
      case Some(parent) =>
        if parent.startTime > p.startTime then Impossible
        else if p.ppid == INIT_PID then Reparented
        else Intact
  }

  /// Each link state in terms of the entry and the one its parent PID refers to: a parent younger than its
  /// child is impossible whoever it is, and PID 1 is a parent nobody was created by.
  lemma LinkStateIff(s: Snapshot, p: Process)
    ensures var link := ClassifyLink(s, p);
            && (link == Root <==> p.pid == 1)
            && (link == Impossible <==>
                 p.pid != 1 && p.ppid != 0
                 && (p.ppid == p.pid || exists i: nat :: LastOfPid(s, i, p.ppid) && s[i].startTime > p.startTime))
            && (link == Reparented <==>
                 p.pid != 1 && p.ppid == 1 && forall i: nat :: LastOfPid(s, i, 1) ==> s[i].startTime <= p.startTime)
            && (link == Missing <==>
                 p.pid != 1
                 && (p.ppid == 0 || (p.ppid != p.pid && p.ppid != 1 && forall i: nat :: !LastOfPid(s, i, p.ppid))))
            && (link == Intact <==>
                 p.pid != 1 && p.ppid != 0 && p.ppid != 1 && p.ppid != p.pid
                 && exists i: nat :: LastOfPid(s, i, p.ppid) && s[i].startTime <= p.startTime)
  {
    OneLastEntry(s, p.ppid);
  }

  lemma OneLastEntry(s: Snapshot, pid: int)
    ensures ByPid(s, pid).None? ==> forall i: nat :: !LastOfPid(s, i, pid)
    ensures ByPid(s, pid).Some? ==> exists i: nat :: LastOfPid(s, i, pid) && s[i] == ByPid(s, pid).value
    ensures forall i: nat, j: nat :: LastOfPid(s, i, pid) && LastOfPid(s, j, pid) ==> i == j
  {
    if ByPid(s, pid).Some? { LastEntryWins(s, pid); } else { NoEntry(s, pid); }
  }

  lemma {:induction false} NoEntry(s: Snapshot, pid: int)
    requires ByPid(s, pid).None?
    ensures forall p :: p in s ==> p.pid != pid
  {
    if s != [] {
      NoEntry(s[..|s| - 1], pid);
      assert s == s[..|s| - 1] + [s[|s| - 1]];
    }
  }

  // ---------------------------------------------------------------------------------------------
  // Building the tree
  // ---------------------------------------------------------------------------------------------

  datatype Tree = Tree(snap: Snapshot, children: map<int, seq<int>>, links: map<int, LinkState>) {
    function Link(pid: int): LinkState { Read(links, pid, Missing) }
    function Children(pid: int): seq<int> { Read(children, pid, []) }
  }

  ghost predicate ChildAmong(entries: seq<Process>, s: Snapshot, c: int, x: int) {
    exists p :: p in entries && p.pid == x && p.ppid == c && ClassifyLink(s, p) == Intact
  }

  /// Some entry of the snapshot has PID `x` and an intact link to `c`.
  ghost predicate Child(s: Snapshot, c: int, x: int) {
    ChildAmong(s, s, c, x)
  }

  /// The believed parent: the entry that lookup finds for `pid` has an intact link to it.
  function Parent(s: Snapshot, pid: int): Option<int> {
    match ByPid(s, pid)
    case None => None
    case Some(p) => if ClassifyLink(s, p) == Intact then Some(p.ppid) else None
  }

  /// What `BuildTree` must deliver: links follow the winning entry of each PID, children every entry.
  ghost predicate Built(t: Tree, s: Snapshot) {
    && t.snap == s
    && (forall pid :: t.Link(pid) == match ByPid(s, pid) case None => Missing case Some(p) => ClassifyLink(s, p))
    && (forall c, x :: x in t.Children(c) <==> Child(s, c, x))
  }

  lemma ByPidAppend(s: Snapshot, p: Process, pid: int)
    ensures ByPid(s + [p], pid) == if p.pid == pid then Some(p) else ByPid(s, pid)
  {}

  lemma ChildAmongAppend(entries: seq<Process>, p: Process, s: Snapshot, c: int, x: int)
    ensures ChildAmong(entries + [p], s, c, x) <==>
            ChildAmong(entries, s, c, x) || (p.pid == x && p.ppid == c && ClassifyLink(s, p) == Intact)
  {}

  method BuildTree(s: Snapshot) returns (t: Tree)
    ensures Built(t, s)
  {
    var children: map<int, seq<int>> := map[];
    var links: map<int, LinkState> := map[];
    for i := 0 to |s|
      invariant forall pid :: Read(links, pid, Missing) ==
                  match ByPid(s[..i], pid) case None => Missing case Some(p) => ClassifyLink(s, p)
      invariant forall c, x :: x in Read(children, c, []) <==> ChildAmong(s[..i], s, c, x)
    {
      var p := s[i];
      assert s[..i + 1] == s[..i] + [p];
      forall pid ensures ByPid(s[..i + 1], pid) == if p.pid == pid then Some(p) else ByPid(s[..i], pid) {
        ByPidAppend(s[..i], p, pid);
      }
      links := links[p.pid := ClassifyLink(s, p)];
      ghost var before := children;
      if links[p.pid] == Intact {
        children := children[p.ppid := Read(children, p.ppid, []) + [p.pid]];
      }
      forall c, x ensures x in Read(children, c, []) <==> ChildAmong(s[..i + 1], s, c, x) {
        ChildAmongAppend(s[..i], p, s, c, x);
        assert x in Read(before, c, []) <==> ChildAmong(s[..i], s, c, x);
      }
    }
    assert s[..|s|] == s;
    t := Tree(s, children, links);
  }

  // ---------------------------------------------------------------------------------------------
  // Walking up
  // ---------------------------------------------------------------------------------------------

  /// The process `k` believed parent links above `pid`.
  function Up(s: Snapshot, k: nat, pid: int): Option<int> {
    if k == 0 then Some(pid)
    else match Parent(s, pid) case None => None case Some(q) => Up(s, k - 1, q)
  }

  lemma {:induction false} UpStep(s: Snapshot, k: nat, pid: int)
    ensures Up(s, k + 1, pid) == match Up(s, k, pid) case None => None case Some(q) => Parent(s, q)
  {
    if k > 0 && Parent(s, pid).Some? {
      UpStep(s, k - 1, Parent(s, pid).value);
    }
  }

  /// The walk of `Ancestors`, nearest first: stop at a link that is not believed, at a repeat, or
  /// when the fuel is spent.
  function Walk(s: Snapshot, cur: int, seen: set<int>, fuel: nat): seq<int>
    decreases fuel, seen
  {
    if fuel == 0 then []
    else match Parent(s, cur)
      case None => []
      case Some(q) => if q in seen then [] else [q] + Walk(s, q, seen + {q}, fuel - 1)
  }

  function AncestorChain(s: Snapshot, pid: int): seq<int> {
    Walk(s, pid, {pid}, MAX_TREE_DEPTH)
  }

  ghost predicate UpWithin(s: Snapshot, x: int, n: nat, a: int) {
    exists i :: 0 <= i <= n && Up(s, i, x) == Some(a)
  }

  /// `a` lies between 1 and 128 believed links above `x`, and is not `x` itself.
  ghost predicate IsAncestor(s: Snapshot, x: int, a: int) {
    a != x && exists k :: 1 <= k <= MAX_TREE_DEPTH && Up(s, k, x) == Some(a)
  }

  lemma {:induction false} WalkIsUp(s: Snapshot, cur: int, seen: set<int>, fuel: nat)
    requires cur in seen
    decreases fuel, seen
    ensures var w := Walk(s, cur, seen, fuel);
            && |w| <= fuel
            && (forall i :: 0 <= i < |w| ==> Up(s, i + 1, cur) == Some(w[i]) && w[i] !in seen)
            && NoDuplicates(w)
            && (|w| < fuel ==>
                  match Up(s, |w| + 1, cur) case None => true case Some(q) => q in seen || q in w)
  {
    if fuel > 0 && Parent(s, cur).Some? && Parent(s, cur).value !in seen {
      var q := Parent(s, cur).value;
      WalkIsUp(s, q, seen + {q}, fuel - 1);
      var rest := Walk(s, q, seen + {q}, fuel - 1);
      var w := [q] + rest;
      forall i | 0 <= i < |w| ensures Up(s, i + 1, cur) == Some(w[i]) && w[i] !in seen {
        if i > 0 { assert w[i] == rest[i - 1]; }
      }
    }
  }

  /// Once the chain above `x` repeats, it never leaves the processes already met.
  lemma {:induction false} UpStaysWithin(s: Snapshot, x: int, n: nat, met: set<int>, k: nat)
    requires forall i :: 0 <= i <= n ==> Up(s, i, x).Some? && Up(s, i, x).value in met
    requires forall a :: a in met ==> UpWithin(s, x, n, a)
    requires Up(s, n + 1, x).Some? ==> Up(s, n + 1, x).value in met
    ensures Up(s, k, x).Some? ==> Up(s, k, x).value in met
  {
    if k > n + 1 {
      UpStaysWithin(s, x, n, met, k - 1);
      UpStep(s, k - 1, x);
      if Up(s, k, x).Some? {
        assert UpWithin(s, x, n, Up(s, k - 1, x).value);
        var i :| 0 <= i <= n && Up(s, i, x) == Some(Up(s, k - 1, x).value);
        UpStep(s, i, x);
        assert Up(s, i + 1, x) == Up(s, k, x);
      }
    }
  }

  /// The chain lists exactly the ancestors, each once, nearest first, and none younger than `x`.
  lemma {:induction false} ChainListsAncestors(s: Snapshot, x: int)
    ensures NoDuplicates(AncestorChain(s, x))
    ensures forall a :: a in AncestorChain(s, x) <==> IsAncestor(s, x, a)
    ensures forall i :: 0 <= i < |AncestorChain(s, x)| ==> Up(s, i + 1, x) == Some(AncestorChain(s, x)[i])
  {
    var w := AncestorChain(s, x);
    WalkIsUp(s, x, {x}, MAX_TREE_DEPTH);
    var met := {x} + set a | a in w;
    forall i | 0 <= i <= |w| ensures Up(s, i, x).Some? && Up(s, i, x).value in met {
      if i > 0 { assert Up(s, i - 1 + 1, x) == Some(w[i - 1]); }
    }
    forall a | a in met ensures UpWithin(s, x, |w|, a) {
      if a != x {
        var j :| 0 <= j < |w| && w[j] == a;
        assert Up(s, j + 1, x) == Some(a);
      } else {
        assert Up(s, 0, x) == Some(a);
      }
    }
    forall a ensures a in w <==> IsAncestor(s, x, a) {
      if a in w {
        var j :| 0 <= j < |w| && w[j] == a;
        assert 1 <= j + 1 <= MAX_TREE_DEPTH && Up(s, j + 1, x) == Some(a);
      }
      if IsAncestor(s, x, a) {
        var k :| 1 <= k <= MAX_TREE_DEPTH && Up(s, k, x) == Some(a);
        if |w| < MAX_TREE_DEPTH {
          UpStaysWithin(s, x, |w|, met, k);
        } else {
          assert Up(s, k, x) == Some(w[k - 1]);
        }
      }
    }
  }

  /// Ancestors never start later than the process they are above.
  lemma {:induction false} AncestorsStartNoLater(s: Snapshot, x: int, k: nat)
    requires ByPid(s, x).Some? && Up(s, k, x).Some?
    decreases k
    ensures ByPid(s, Up(s, k, x).value).Some?
    ensures ByPid(s, Up(s, k, x).value).value.startTime <= ByPid(s, x).value.startTime
  {
    if k > 0 {
      AncestorsStartNoLater(s, Parent(s, x).value, k - 1);
    }
  }

  lemma OneStepUp(s: Snapshot, cur: int, seen: set<int>, fuel: nat)
    requires fuel > 0
    ensures var p := ByPid(s, cur);
            Walk(s, cur, seen, fuel) ==
              if p.None? || ClassifyLink(s, p.value) != Intact || p.value.ppid in seen then []
              else [p.value.ppid] + Walk(s, p.value.ppid, seen + {p.value.ppid}, fuel - 1)
  {}

  method Ancestors(t: Tree, pid: int) returns (out: seq<int>)
    requires Built(t, t.snap)
    ensures out == AncestorChain(t.snap, pid)
    ensures NoDuplicates(out)
    ensures forall a :: a in out <==> IsAncestor(t.snap, pid, a)
    ensures forall i :: 0 <= i < |out| ==> Up(t.snap, i + 1, pid) == Some(out[i])
  {
    var seen := {pid};
    out := [];
    var cur := pid;
    for depth := 0 to MAX_TREE_DEPTH
      invariant AncestorChain(t.snap, pid) == out + Walk(t.snap, cur, seen, MAX_TREE_DEPTH - depth)
    {
      var p := ByPid(t.snap, cur);
      OneStepUp(t.snap, cur, seen, MAX_TREE_DEPTH - depth);
      if p.None? || t.Link(cur) != Intact || p.value.ppid in seen {
        assert out == AncestorChain(t.snap, pid);
        break;
      }
      var q := p.value.ppid;
      assert out + ([q] + Walk(t.snap, q, seen + {q}, MAX_TREE_DEPTH - depth - 1))
          == (out + [q]) + Walk(t.snap, q, seen + {q}, MAX_TREE_DEPTH - depth - 1);
      seen := seen + {q};
      out := out + [q];
      cur := q;
    }
    ChainListsAncestors(t.snap, pid);
  }

  // ---------------------------------------------------------------------------------------------
  // Walking down
  // ---------------------------------------------------------------------------------------------

  /// A downward path of `k` child links leads from `a` to `x`.
  ghost predicate Reach(s: Snapshot, a: int, k: nat, x: int) {
    if k == 0 then x == a
    else exists c :: Child(s, c, x) && Reach(s, a, k - 1, c)
  }

  ghost predicate ReachWithin(s: Snapshot, a: int, d: nat, x: int) {
    exists k :: 0 <= k <= d && Reach(s, a, k, x)
  }

  /// `x` lies between 1 and 128 child links below `a`, and is not `a` itself.
  ghost predicate IsDescendant(s: Snapshot, a: int, x: int) {
    x != a && ReachWithin(s, a, MAX_TREE_DEPTH, x)
  }

  lemma {:induction false} ReachStaysWithin(s: Snapshot, a: int, closed: set<int>, k: nat, x: int)
    requires a in closed
    requires forall c, y :: c in closed && Child(s, c, y) ==> y in closed
    requires Reach(s, a, k, x)
    ensures x in closed
  {
    if k > 0 {
      var c :| Child(s, c, x) && Reach(s, a, k - 1, c);
      ReachStaysWithin(s, a, closed, k - 1, c);
    }
  }

  /// `x` is a child of a process that is in `seen` but was not in `met`.
  ghost predicate BelowNew(s: Snapshot, met: set<int>, seen: set<int>, x: int) {
    exists c :: c in seen && c !in met && Child(s, c, x)
  }

  lemma BelowNewGrows(s: Snapshot, met: set<int>, seen: set<int>, child: int, x: int)
    requires child !in met
    ensures BelowNew(s, met, seen + {child}, x) <==> BelowNew(s, met, seen, x) || Child(s, child, x)
  {}

  lemma NothingBelow(s: Snapshot, a: int, d: nat, seen: set<int>)
    requires forall x :: x in seen <==> ReachWithin(s, a, d, x)
    requires forall x :: Reach(s, a, d + 1, x) ==> x in seen
    ensures forall n: nat, x :: ReachWithin(s, a, n, x) ==> x in seen
  {
    assert Reach(s, a, 0, a) && ReachWithin(s, a, d, a);
    forall c, y | c in seen && Child(s, c, y) ensures y in seen {
      var j :| 0 <= j <= d && Reach(s, a, j, c);
      assert Reach(s, a, j + 1, y);
      if j + 1 <= d { assert ReachWithin(s, a, d, y); }
    }
    forall n: nat, x | ReachWithin(s, a, n, x) ensures x in seen {
      var k :| 0 <= k <= n && Reach(s, a, k, x);
      ReachStaysWithin(s, a, seen, k, x);
    }
  }

  lemma WithinGrows(s: Snapshot, a: int, d: nat, n: nat, x: int)
    requires d <= n && ReachWithin(s, a, d, x)
    ensures ReachWithin(s, a, n, x)
  {}

  /// What the breadth-first loop knows before it expands level `d`.
  ghost predicate LevelReached(s: Snapshot, a: int, d: nat, seen: set<int>, frontier: seq<int>) {
    && (forall x :: x in seen <==> ReachWithin(s, a, d, x))
    && (forall x :: x in frontier ==> Reach(s, a, d + 1, x))
    && (forall x :: Reach(s, a, d + 1, x) ==> x in frontier || x in seen)
  }

  ghost predicate ListsExcept(out: seq<int>, seen: set<int>, pid: int) {
    NoDuplicates(out) && forall x :: x in out <==> x in seen && x != pid
  }

  method Descendants(t: Tree, pid: int) returns (out: seq<int>)
    requires Built(t, t.snap)
    ensures NoDuplicates(out)
    ensures forall x :: x in out <==> IsDescendant(t.snap, pid, x)
  {
    var seen := {pid};
    out := [];
    var frontier := t.Children(pid);
    var depth: nat := 0;
    FirstLevel(t, pid);
    while depth < MAX_TREE_DEPTH && |frontier| > 0
      invariant depth <= MAX_TREE_DEPTH
      invariant pid in seen && ListsExcept(out, seen, pid)
      invariant LevelReached(t.snap, pid, depth, seen, frontier)
    {
      out, seen, frontier := ExpandLevel(t, pid, out, seen, frontier, depth);
      depth := depth + 1;
    }
    AllLevelsSeen(t.snap, pid, depth, seen, frontier, out);
  }

  /// The inner loop of `Descendants`: take the unseen members of one level and collect their children.
  method ExpandLevel(t: Tree, pid: int, out0: seq<int>, seen0: set<int>, frontier: seq<int>, ghost depth: nat)
    returns (out: seq<int>, seen: set<int>, next: seq<int>)
    requires Built(t, t.snap)
    requires pid in seen0 && ListsExcept(out0, seen0, pid) && LevelReached(t.snap, pid, depth, seen0, frontier)
    ensures pid in seen && ListsExcept(out, seen, pid)
    ensures LevelReached(t.snap, pid, depth + 1, seen, next)
  {
    out, seen, next := out0, seen0, [];
    for i := 0 to |frontier|
      invariant pid in seen && ListsExcept(out, seen, pid)
      invariant forall x :: x in seen <==> x in seen0 || x in frontier[..i]
      invariant forall x :: x in next <==> BelowNew(t.snap, seen0, seen, x)
    {
      var child := frontier[i];
      assert frontier[..i + 1] == frontier[..i] + [child];
      if child !in seen {
        forall x
          ensures BelowNew(t.snap, seen0, seen + {child}, x)
              <==> BelowNew(t.snap, seen0, seen, x) || Child(t.snap, child, x)
        {
          BelowNewGrows(t.snap, seen0, seen, child, x);
        }
        seen := seen + {child};
        out := out + [child];
        next := next + t.Children(child);
      }
    }
    assert frontier[..|frontier|] == frontier;
    LevelDone(t.snap, pid, depth, seen0, frontier, seen, next);
  }

  lemma FirstLevel(t: Tree, a: int)
    requires Built(t, t.snap)
    ensures LevelReached(t.snap, a, 0, {a}, t.Children(a))
  {
    assert Reach(t.snap, a, 0, a);
  }

  lemma AllLevelsSeen(s: Snapshot, a: int, d: nat, seen: set<int>, frontier: seq<int>, out: seq<int>)
    requires d <= MAX_TREE_DEPTH && LevelReached(s, a, d, seen, frontier)
    requires d == MAX_TREE_DEPTH || frontier == []
    requires ListsExcept(out, seen, a)
    ensures NoDuplicates(out)
    ensures forall x :: x in out <==> IsDescendant(s, a, x)
  {
    if d < MAX_TREE_DEPTH {
      NothingBelow(s, a, d, seen);
    }
    forall x | x in seen ensures ReachWithin(s, a, MAX_TREE_DEPTH, x) {
      WithinGrows(s, a, d, MAX_TREE_DEPTH, x);
    }
  }

  /// One finished breadth-first level re-establishes the loop invariant one level deeper.
  lemma LevelDone(s: Snapshot, a: int, d: nat, met: set<int>, frontier: seq<int>, seen: set<int>, next: seq<int>)
    requires LevelReached(s, a, d, met, frontier)
    requires forall x :: x in seen <==> x in met || x in frontier
    requires forall x :: x in next <==> BelowNew(s, met, seen, x)
    ensures LevelReached(s, a, d + 1, seen, next)
  {
    forall x ensures x in seen <==> ReachWithin(s, a, d + 1, x) {
      if x in met {
        var k :| 0 <= k <= d && Reach(s, a, k, x);
        assert ReachWithin(s, a, d + 1, x);
      }
      if x in frontier { assert ReachWithin(s, a, d + 1, x); }
      if ReachWithin(s, a, d + 1, x) {
        var k :| 0 <= k <= d + 1 && Reach(s, a, k, x);
        if k <= d { assert ReachWithin(s, a, d, x); }
      }
    }
    forall x | x in next ensures Reach(s, a, d + 2, x) {
      var c :| c in seen && c !in met && Child(s, c, x);
      assert Reach(s, a, d + 1, c);
    }
    forall x | Reach(s, a, d + 2, x) ensures x in next || x in seen {
      var c :| Child(s, c, x) && Reach(s, a, d + 1, c);
      if c in met {
        var k :| 0 <= k <= d && Reach(s, a, k, c);
        assert Reach(s, a, k + 1, x);
        assert ReachWithin(s, a, d + 1, x);
      }
    }
  }

  // ---------------------------------------------------------------------------------------------
  // The two walks agree
  // ---------------------------------------------------------------------------------------------

  /// Every entry with an intact link agrees with the entry that lookup finds for its PID.
  ghost predicate EntriesAgree(s: Snapshot) {
    forall p :: p in s && ClassifyLink(s, p) == Intact ==> Parent(s, p.pid) == Some(p.ppid)
  }

  ghost predicate DistinctPids(s: Snapshot) {
    forall i, j :: 0 <= i < j < |s| ==> s[i].pid != s[j].pid
  }

  lemma DistinctPidsAgree(s: Snapshot)
    requires DistinctPids(s)
    ensures EntriesAgree(s)
  {}

  /// Child lists and parent links describe one relation exactly when the entries agree.
  lemma LinksMatchIffEntriesAgree(s: Snapshot)
    ensures EntriesAgree(s) <==> forall c, x :: Child(s, c, x) <==> Parent(s, x) == Some(c)
  {}

  lemma {:induction false} ReachIsUp(s: Snapshot, a: int, k: nat, x: int)
    requires EntriesAgree(s)
    ensures Reach(s, a, k, x) <==> Up(s, k, x) == Some(a)
  {
    LinksMatchIffEntriesAgree(s);
    if k > 0 {
      if Reach(s, a, k, x) {
        var c :| Child(s, c, x) && Reach(s, a, k - 1, c);
        ReachIsUp(s, a, k - 1, c);
      }
      if Up(s, k, x) == Some(a) {
        ReachIsUp(s, a, k - 1, Parent(s, x).value);
        assert Child(s, Parent(s, x).value, x) && Reach(s, a, k - 1, Parent(s, x).value);
      }
    }
  }

  /// Main result: the upward and the downward walk are converse, cut off at the same 128 levels and
  /// in the presence of parent cycles.
  lemma AncestorsAndDescendantsAreConverse(s: Snapshot, a: int, x: int)
    requires EntriesAgree(s)
    ensures IsAncestor(s, x, a) <==> IsDescendant(s, a, x)
  {
    if IsAncestor(s, x, a) {
      var k :| 1 <= k <= MAX_TREE_DEPTH && Up(s, k, x) == Some(a);
      ReachIsUp(s, a, k, x);
      assert ReachWithin(s, a, MAX_TREE_DEPTH, x);
    }
    if IsDescendant(s, a, x) {
      var k :| 0 <= k <= MAX_TREE_DEPTH && Reach(s, a, k, x);
      ReachIsUp(s, a, k, x);
    }
  }

  method IsDescendantOf(t: Tree, pid: int, ancestor: int) returns (r: bool)
    requires Built(t, t.snap)
    ensures r <==> IsAncestor(t.snap, pid, ancestor)
    ensures EntriesAgree(t.snap) ==> (r <==> IsDescendant(t.snap, ancestor, pid))
  {
    if EntriesAgree(t.snap) {
      AncestorsAndDescendantsAreConverse(t.snap, ancestor, pid);
    }
    var chain := Ancestors(t, pid);
    for i := 0 to |chain|
      invariant ancestor !in chain[..i]
    {
      if chain[i] == ancestor {
        return true;
      }
    }
    return false;
  }

  /// Without agreement the walks part ways: the kernel repeats PID 5, lookup follows the later entry
  /// to parent 3, but the earlier one stays in the child list of 2.
  lemma RepeatedPidBreaksTheConverse()
    ensures exists s: Snapshot, a: int, x: int ::
              !EntriesAgree(s) && IsDescendant(s, a, x) && !IsAncestor(s, x, a)
  {
    var two := Process(2, 0, 0, Running, true, 0);
    var three := Process(3, 0, 0, Running, true, 0);
    var early := Process(5, 2, 1, Running, true, 0);
    var late := Process(5, 3, 1, Running, true, 0);
    var s := [two, three, early, late];
    assert s[..3] == [two, three, early] && s[..3][..2] == [two, three] && [two, three][..1] == [two];
    assert ByPid(s, 2) == Some(two) && ByPid(s, 3) == Some(three) && ByPid(s, 5) == Some(late);
    assert ClassifyLink(s, early) == Intact;
    assert early in s && Child(s, 2, 5);
    assert Reach(s, 2, 0, 2) && Reach(s, 2, 1, 5) && ReachWithin(s, 2, MAX_TREE_DEPTH, 5);
    assert Parent(s, 5) == Some(3) && Parent(s, 3) == None;
    assert Up(s, 1, 5) == Some(3);
    forall k | 1 <= k <= MAX_TREE_DEPTH ensures Up(s, k, 5) != Some(2) {
      if k > 1 { assert Up(s, k, 5) == Up(s, k - 1, 3) == None; }
    }
    assert IsDescendant(s, 2, 5) && !IsAncestor(s, 5, 2);
  }
}
