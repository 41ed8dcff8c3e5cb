/** Circular references among workbook formulas (model_workbook.py, `_scan_formulas`). */
module FormulaGraph {

  datatype Cell = Cell(sheet: string, coordinate: string)

  /** Each formula with the formulas it refers to; a formula without references may be missing. */
  type Graph = map<Cell, set<Cell>>

  function Targets(g: Graph, c: Cell): set<Cell> { if c in g then g[c] else {} }

  ghost predicate Path(g: Graph, p: seq<Cell>) {
    forall i | 0 <= i < |p| - 1 :: p[i + 1] in Targets(g, p[i])
  }

  /** A closed walk of at least one reference. */
  ghost predicate Cycle(g: Graph, p: seq<Cell>) {
    |p| >= 2 && p[0] == p[|p| - 1] && Path(g, p)
  }

  ghost predicate OnCycle(g: Graph, c: Cell) { exists p :: Cycle(g, p) && c in p }

  /** Only references between formulas matter. */
  function FormulaReferences(locations: set<Cell>, dependencies: Graph): (g: Graph)
    ensures forall c | c in g :: g[c] <= locations
    ensures forall c :: Targets(g, c) == Targets(dependencies, c) * locations
  {
    map c | c in dependencies :: dependencies[c] * locations
  }

  datatype Visit = Visiting | Visited

  datatype Frame = Frame(node: Cell, targets: set<Cell>)

  predicate Distinct(s: seq<Cell>) { forall i, j | 0 <= i < j < |s| :: s[i] != s[j] }

  /** A cycle that passes through no cell twice. */
  ghost predicate SimpleCycle(g: Graph, p: seq<Cell>) { Cycle(g, p) && Distinct(p[..|p| - 1]) }

  ghost predicate Within(p: seq<Cell>, circular: set<Cell>) { forall c | c in p :: c in circular }

  /** The reference closes a simple cycle that was reported whole. */
  ghost predicate Closes(g: Graph, circular: set<Cell>, u: Cell, t: Cell) {
    exists q :: SimpleCycle(g, q) && Within(q, circular) && q[|q| - 2] == u && q[|q| - 1] == t
  }

  /** What the search knows of a finished cell: each target finished before it, or closed a reported cycle. */
  ghost predicate Settled(g: Graph, finished: seq<Cell>, circular: set<Cell>) {
    forall i, t | 0 <= i < |finished| && t in Targets(g, finished[i]) :: t in finished[..i] || Closes(g, circular, finished[i], t)
  }

  /** A consumed target is finished, is the next cell of the path, or closed a reported cycle. */
  ghost predicate Handled(g: Graph, path: seq<Cell>, finished: seq<Cell>, circular: set<Cell>, i: nat, t: Cell)
    requires i < |path|
  {
    t in finished || (i + 1 < |path| && t == path[i + 1]) || Closes(g, circular, path[i], t)
  }

  ghost predicate FrameOk(g: Graph, f: Frame, path: seq<Cell>, finished: seq<Cell>, circular: set<Cell>, i: nat)
    requires i < |path|
  {
    f.node == path[i] && f.targets <= Targets(g, path[i])
    && forall t | t in Targets(g, path[i]) && t !in f.targets :: Handled(g, path, finished, circular, i, t)
  }

  /** The stack mirrors the path, which is a walk. */
  ghost predicate StackOk(g: Graph, stack: seq<Frame>, path: seq<Cell>, finished: seq<Cell>, circular: set<Cell>) {
    && |stack| == |path| && Path(g, path)
    && forall i | 0 <= i < |stack| :: FrameOk(g, stack[i], path, finished, circular, i)
  }

  /** The state map and the positions agree with the path and the finished cells. */
  ghost predicate StateOk(state: map<Cell, Visit>, positions: map<Cell, nat>, path: seq<Cell>, finished: seq<Cell>) {
    && (forall c :: c in state && state[c].Visiting? <==> c in path)
    && (forall c :: c in state && state[c].Visited? <==> c in finished)
    && (forall i, j | 0 <= i < j < |path| :: path[i] != path[j])
    && (forall c :: c in positions <==> c in path)
    && (forall i | 0 <= i < |path| :: positions[path[i]] == i)
  }

  /** Every reported cell lies on a cycle that was reported whole. */
  ghost predicate AllOnCycles(g: Graph, circular: set<Cell>) {
    forall c | c in circular :: exists q :: SimpleCycle(g, q) && Within(q, circular) && c in q
  }

  /** A reference from the end of a path without repetitions back to one of its cells closes a simple cycle. */
  lemma BackReferenceCloses(g: Graph, path: seq<Cell>, k: nat, target: Cell)
    requires k < |path| && Path(g, path) && Distinct(path) && path[k] == target && target in Targets(g, path[|path| - 1])
    ensures
      var q := path[k..] + [target];
      SimpleCycle(g, q) && q[|q| - 2] == path[|path| - 1] && forall c :: c in q <==> c in path[k..]
  {
    var q := path[k..] + [target];
    forall i | 0 <= i < |q| - 1 ensures q[i + 1] in Targets(g, q[i]) {
      if i < |q| - 2 {
        assert q[i] == path[k + i] && q[i + 1] == path[k + i + 1];
      }
    }
    assert q[..|q| - 1] == path[k..];
    assert path[k..][0] == target;
  }

  /** A finish order in which every reference goes backwards or closes a reported cycle leaves no other closed walk. */
  lemma {:induction false} WalkDescends(g: Graph, finished: seq<Cell>, circular: set<Cell>, p: seq<Cell>, i: nat)
    requires Settled(g, finished, circular) && Path(g, p) && |p| >= 1
    requires forall j | 0 <= j < |p| - 1 :: !Closes(g, circular, p[j], p[j + 1])
    requires i < |finished| && finished[i] == p[0]
    ensures |p| >= 2 ==> p[|p| - 1] in finished[..i]
    decreases |p|
  {
    hide Closes;
    if |p| >= 2 {
      assert p[1] in Targets(g, p[0]) && !Closes(g, circular, p[0], p[0 + 1]);
      var k :| 0 <= k < i && finished[k] == p[1];
      var rest := p[1..];
      forall j | 0 <= j < |rest| - 1 ensures rest[j + 1] in Targets(g, rest[j]) && !Closes(g, circular, rest[j], rest[j + 1]) {
        assert rest[j] == p[j + 1] && rest[j + 1] == p[j + 1 + 1];
      }
      WalkDescends(g, finished, circular, rest, k);
      assert rest[|rest| - 1] == p[|p| - 1];
    }
  }

  ghost function Elements(s: seq<Cell>): set<Cell> { set c | c in s }

  /** Some reference of the walk closed a reported cycle. */
  ghost predicate Broken(g: Graph, p: seq<Cell>, circular: set<Cell>) {
    exists j :: 0 <= j < |p| - 1 && Closes(g, circular, p[j], p[j + 1])
  }

  /** Every cycle has a reference that closed a reported cycle. */
  lemma CycleReported(g: Graph, finished: seq<Cell>, circular: set<Cell>, p: seq<Cell>)
    requires Settled(g, finished, circular) && Distinct(finished) && Cycle(g, p) && p[0] in finished
    ensures Broken(g, p, circular)
  {
    hide Closes;
    if !Broken(g, p, circular) {
      var i :| 0 <= i < |finished| && finished[i] == p[0];
      assert finished[i] !in finished[..i];
      WalkDescends(g, finished, circular, p, i);
    }
  }

  /** A cycle of references between formulas stays among the formulas. */
  lemma CycleStartsAtFormula(locations: set<Cell>, g: Graph, p: seq<Cell>)
    requires (forall c :: Targets(g, c) <= locations) && Cycle(g, p)
    ensures p[0] in locations
  {
    assert p[|p| - 2 + 1] in Targets(g, p[|p| - 2]);
  }

  /** What the loop knows between two steps. */
  ghost predicate Searching(g: Graph, locations: set<Cell>, stack: seq<Frame>, path: seq<Cell>, positions: map<Cell, nat>,
                            state: map<Cell, Visit>, finished: seq<Cell>, circular: set<Cell>) {
    && StackOk(g, stack, path, finished, circular)
    && StateOk(state, positions, path, finished)
    && Distinct(finished) && Settled(g, finished, circular) && AllOnCycles(g, circular)
    && (forall c | c in path || c in finished :: c in locations)
  }

  lemma TargetIsFormula(g: Graph, locations: set<Cell>, stack: seq<Frame>, path: seq<Cell>, positions: map<Cell, nat>,
                        state: map<Cell, Visit>, finished: seq<Cell>, circular: set<Cell>, target: Cell)
    requires Searching(g, locations, stack, path, positions, state, finished, circular) && (forall c :: Targets(g, c) <= locations)
    requires stack != [] && target in stack[|stack| - 1].targets
    ensures target in locations && path != []
  {
    var n := |stack| - 1;
    assert FrameOk(g, stack[n], path, finished, circular, n);
  }

  lemma ClosesGrows(g: Graph, circular: set<Cell>, circular': set<Cell>, u: Cell, t: Cell)
    requires circular <= circular'
    ensures Closes(g, circular, u, t) ==> Closes(g, circular', u, t)
  {
    hide Path, Distinct;
    if Closes(g, circular, u, t) {
      var q :| SimpleCycle(g, q) && Within(q, circular) && q[|q| - 2] == u && q[|q| - 1] == t;
      assert Within(q, circular');
    }
  }

  /** Frames stay in order when more is finished or reported and the path grows or stays. */
  lemma FrameStays(g: Graph, f: Frame, path: seq<Cell>, path': seq<Cell>, finished: seq<Cell>, finished': seq<Cell>,
                   circular: set<Cell>, circular': set<Cell>, i: nat)
    requires i < |path| && FrameOk(g, f, path, finished, circular, i)
    requires i < |path'| && path'[i] == path[i] && circular <= circular' && (forall c | c in finished :: c in finished')
    requires i + 1 < |path| ==> (i + 1 < |path'| && path'[i + 1] == path[i + 1]) || path[i + 1] in finished'
    ensures FrameOk(g, f, path', finished', circular', i)
  {
    hide Closes;
    forall t | t in Targets(g, path'[i]) && t !in f.targets ensures Handled(g, path', finished', circular', i, t) {
      assert Handled(g, path, finished, circular, i, t);
      ClosesGrows(g, circular, circular', path[i], t);
    }
  }

  lemma PushStack(g: Graph, stack: seq<Frame>, path: seq<Cell>, finished: seq<Cell>, circular: set<Cell>, target: Cell)
    requires StackOk(g, stack, path, finished, circular) && stack != [] && target in stack[|stack| - 1].targets
    ensures StackOk(g, stack[|stack| - 1 := Frame(stack[|stack| - 1].node, stack[|stack| - 1].targets - {target})]
                       + [Frame(target, Targets(g, target))], path + [target], finished, circular)
  {
    var n := |stack| - 1;
    var top := stack[n];
    var path' := path + [target];
    var stack' := stack[n := Frame(top.node, top.targets - {target})] + [Frame(target, Targets(g, target))];
    assert FrameOk(g, top, path, finished, circular, n);
    forall i | 0 <= i < |stack'| ensures FrameOk(g, stack'[i], path', finished, circular, i) {
      if i < n {
        FrameStays(g, stack[i], path, path', finished, finished, circular, circular, i);
      } else if i == n {
        FrameStays(g, top, path, path', finished, finished, circular, circular, i);
        forall t | t in Targets(g, path'[n]) && t !in stack'[n].targets ensures Handled(g, path', finished, circular, n, t) {}
      }
    }
  }

  lemma ConsumeStack(g: Graph, stack: seq<Frame>, path: seq<Cell>, finished: seq<Cell>, circular: set<Cell>, circular': set<Cell>, target: Cell)
    requires StackOk(g, stack, path, finished, circular) && stack != [] && target in stack[|stack| - 1].targets && circular <= circular'
    requires target in finished || Closes(g, circular', path[|path| - 1], target)
    ensures StackOk(g, stack[|stack| - 1 := Frame(stack[|stack| - 1].node, stack[|stack| - 1].targets - {target})], path, finished, circular')
  {
    var n := |stack| - 1;
    var top := stack[n];
    var stack' := stack[n := Frame(top.node, top.targets - {target})];
    forall i | 0 <= i < |stack'| ensures FrameOk(g, stack'[i], path, finished, circular', i) {
      FrameStays(g, stack[i], path, path, finished, finished, circular, circular', i);
      if i == n {
        forall t | t in Targets(g, path[n]) && t !in stack'[n].targets ensures Handled(g, path, finished, circular', n, t) {}
      }
    }
  }

  lemma PopStack(g: Graph, stack: seq<Frame>, path: seq<Cell>, finished: seq<Cell>, circular: set<Cell>)
    requires StackOk(g, stack, path, finished, circular) && stack != []
    ensures StackOk(g, stack[..|stack| - 1], path[..|path| - 1], finished + [path[|path| - 1]], circular)
  {
    var n := |stack| - 1;
    forall i | 0 <= i < n ensures FrameOk(g, stack[i], path[..n], finished + [path[n]], circular, i) {
      FrameStays(g, stack[i], path, path[..n], finished, finished + [path[n]], circular, circular, i);
    }
  }

  lemma PopSettles(g: Graph, f: Frame, path: seq<Cell>, finished: seq<Cell>, circular: set<Cell>)
    requires path != [] && FrameOk(g, f, path, finished, circular, |path| - 1) && f.targets == {}
    requires Settled(g, finished, circular)
    ensures Settled(g, finished + [path[|path| - 1]], circular)
  {
    var n := |path| - 1;
    var after := finished + [path[n]];
    forall i, t | 0 <= i < |after| && t in Targets(g, after[i]) ensures t in after[..i] || Closes(g, circular, after[i], t) {
      if i < |finished| {
        assert after[..i] == finished[..i] && after[i] == finished[i];
      } else {
        assert after[..i] == finished && Handled(g, path, finished, circular, n, t);
      }
    }
  }

  lemma PushState(state: map<Cell, Visit>, positions: map<Cell, nat>, path: seq<Cell>, finished: seq<Cell>, target: Cell)
    requires StateOk(state, positions, path, finished) && target !in state
    ensures StateOk(state[target := Visiting], positions[target := |path|], path + [target], finished)
  {
    assert target !in path && target !in finished;
  }

  lemma PopState(state: map<Cell, Visit>, positions: map<Cell, nat>, path: seq<Cell>, finished: seq<Cell>)
    requires StateOk(state, positions, path, finished) && path != []
    ensures
      var node := path[|path| - 1];
      && node in state && node !in finished
      && StateOk(state[node := Visited], positions - {node}, path[..|path| - 1], finished + [node])
  {
    var node := path[|path| - 1];
    var rest := path[..|path| - 1];
    assert node in path && node !in rest;
    assert path == rest + [node];
    assert forall c :: c in path <==> c in rest || c == node;
    var state' := state[node := Visited];
    assert forall c :: c in state' && state'[c].Visiting? <==> c in rest;
    assert forall c :: c in state' && state'[c].Visited? <==> c in finished + [node];
    assert forall c :: c in positions - {node} <==> c in rest;
  }

  lemma MoreOnCycles(g: Graph, path: seq<Cell>, k: nat, target: Cell, circular: set<Cell>)
    requires AllOnCycles(g, circular) && k < |path| && Path(g, path) && Distinct(path) && path[k] == target
    requires target in Targets(g, path[|path| - 1])
    ensures
      var circular' := circular + set c | c in path[k..];
      AllOnCycles(g, circular') && Closes(g, circular', path[|path| - 1], target)
  {
    var circular' := circular + set c | c in path[k..];
    BackReferenceCloses(g, path, k, target);
    var q := path[k..] + [target];
    assert SimpleCycle(g, q) && Within(q, circular');
    hide SimpleCycle;
    assert q[|q| - 1] == target;
    forall c | c in circular' ensures exists r :: SimpleCycle(g, r) && Within(r, circular') && c in r {
      if c in circular {
        var r :| SimpleCycle(g, r) && Within(r, circular) && c in r;
        assert Within(r, circular');
      } else {
        assert c in q;
      }
    }
  }

  lemma SettledGrows(g: Graph, finished: seq<Cell>, circular: set<Cell>, circular': set<Cell>)
    requires Settled(g, finished, circular) && circular <= circular'
    ensures Settled(g, finished, circular')
  {
    hide Closes;
    forall i, t | 0 <= i < |finished| && t in Targets(g, finished[i]) ensures t in finished[..i] || Closes(g, circular', finished[i], t) {
      ClosesGrows(g, circular, circular', finished[i], t);
    }
  }

  /** Between two roots every known cell is finished. */
  ghost predicate Idle(g: Graph, locations: set<Cell>, state: map<Cell, Visit>, finished: seq<Cell>, circular: set<Cell>) {
    && (forall c :: c in state <==> c in finished) && (forall c | c in state :: state[c].Visited?)
    && Distinct(finished) && Settled(g, finished, circular) && AllOnCycles(g, circular)
    && (forall c | c in finished :: c in locations)
  }

  lemma StartSearch(g: Graph, locations: set<Cell>, state: map<Cell, Visit>, finished: seq<Cell>, circular: set<Cell>, root: Cell)
    requires Idle(g, locations, state, finished, circular) && root !in state && root in locations
    ensures Searching(g, locations, [Frame(root, Targets(g, root))], [root], map[root := 0], state[root := Visiting], finished, circular)
  {}

  lemma EndSearch(g: Graph, locations: set<Cell>, positions: map<Cell, nat>, state: map<Cell, Visit>, finished: seq<Cell>, circular: set<Cell>)
    requires Searching(g, locations, [], [], positions, state, finished, circular)
    ensures Idle(g, locations, state, finished, circular)
  {
    assert forall c | c in state :: state[c].Visiting? || state[c].Visited?;
  }

  lemma PushKeeps(g: Graph, locations: set<Cell>, stack: seq<Frame>, path: seq<Cell>, positions: map<Cell, nat>,
                  state: map<Cell, Visit>, finished: seq<Cell>, circular: set<Cell>, target: Cell)
    requires Searching(g, locations, stack, path, positions, state, finished, circular)
    requires stack != [] && target in stack[|stack| - 1].targets && target !in state && target in locations
    ensures
      var top := stack[|stack| - 1];
      Searching(g, locations, stack[|stack| - 1 := Frame(top.node, top.targets - {target})] + [Frame(target, Targets(g, target))],
                path + [target], positions[target := |path|], state[target := Visiting], finished, circular)
  {
    hide StackOk, StateOk, Settled, AllOnCycles, Distinct;
    PushStack(g, stack, path, finished, circular, target);
    PushState(state, positions, path, finished, target);
  }

  lemma SkipKeeps(g: Graph, locations: set<Cell>, stack: seq<Frame>, path: seq<Cell>, positions: map<Cell, nat>,
                  state: map<Cell, Visit>, finished: seq<Cell>, circular: set<Cell>, target: Cell)
    requires Searching(g, locations, stack, path, positions, state, finished, circular)
    requires stack != [] && target in stack[|stack| - 1].targets && target in state && state[target].Visited?
    ensures
      var top := stack[|stack| - 1];
      Searching(g, locations, stack[|stack| - 1 := Frame(top.node, top.targets - {target})], path, positions, state, finished, circular)
  {
    assert target in finished;
    hide StackOk, StateOk, Settled, AllOnCycles, Distinct;
    ConsumeStack(g, stack, path, finished, circular, circular, target);
  }

  lemma BackKeeps(g: Graph, locations: set<Cell>, stack: seq<Frame>, path: seq<Cell>, positions: map<Cell, nat>,
                  state: map<Cell, Visit>, finished: seq<Cell>, circular: set<Cell>, target: Cell)
    requires Searching(g, locations, stack, path, positions, state, finished, circular)
    requires stack != [] && target in stack[|stack| - 1].targets && target in state && state[target].Visiting?
    ensures target in positions && positions[target] < |path|
    ensures
      var top := stack[|stack| - 1];
      Searching(g, locations, stack[|stack| - 1 := Frame(top.node, top.targets - {target})], path, positions, state, finished,
                circular + (set c | c in path[positions[target]..]))
  {
    var n := |stack| - 1;
    assert target in path && FrameOk(g, stack[n], path, finished, circular, n);
    var k := positions[target];
    assert path[k] == target;
    var circular' := circular + (set c | c in path[k..]);
    MoreOnCycles(g, path, k, target, circular);
    hide StackOk, StateOk, Settled, AllOnCycles, Distinct;
    SettledGrows(g, finished, circular, circular');
    ConsumeStack(g, stack, path, finished, circular, circular', target);
  }

  lemma PopKeeps(g: Graph, locations: set<Cell>, stack: seq<Frame>, path: seq<Cell>, positions: map<Cell, nat>,
                 state: map<Cell, Visit>, finished: seq<Cell>, circular: set<Cell>)
    requires Searching(g, locations, stack, path, positions, state, finished, circular)
    requires stack != [] && stack[|stack| - 1].targets == {}
    ensures
      var top := stack[|stack| - 1];
      && |path| == |stack| && top.node == path[|path| - 1]
      && top.node in state && top.node !in finished && top.node in locations
      && Searching(g, locations, stack[..|stack| - 1], path[..|path| - 1], positions - {top.node}, state[top.node := Visited],
                   finished + [top.node], circular)
  {
    var n := |stack| - 1;
    assert |path| == |stack| && FrameOk(g, stack[n], path, finished, circular, n) && stack[n].node == path[n];
    assert path[n] in path;
    hide StackOk, StateOk, Settled, AllOnCycles, FrameOk;
    PopStack(g, stack, path, finished, circular);
    PopState(state, positions, path, finished);
    PopSettles(g, stack[n], path, finished, circular);
  }

  // ---------------------------------------------------------------- the search as moves

  /** The search's variables between two turns of its loops, with the order in which cells were finished. */
  datatype Search = Search(
    stack: seq<Frame>, path: seq<Cell>, positions: map<Cell, nat>, state: map<Cell, Visit>, finished: seq<Cell>, circular: set<Cell>)

  const START := Search([], [], map[], map[], [], {})

  /** The cell the loops may take next: an unknown root, or a remaining target of the top frame, in any order. */
  predicate May(locations: set<Cell>, s: Search, c: Cell) {
    if s.stack == [] then c in locations && c !in s.state
    else
      var top := s.stack[|s.stack| - 1];
      if top.targets == {} then c == top.node else c in top.targets
  }

  /** One turn: start at a root, close the top frame, or follow a reference. */
  function Move(g: Graph, s: Search, c: Cell): Search {
    if s.stack == [] then Search([Frame(c, Targets(g, c))], [c], map[c := 0], s.state[c := Visiting], s.finished, s.circular)
    else
      var n := |s.stack| - 1;
      var top := s.stack[n];
      var rest := s.stack[n := Frame(top.node, top.targets - {c})];
      if top.targets == {} then
        Search(s.stack[..n], if s.path == [] then [] else s.path[..|s.path| - 1], s.positions - {top.node}, s.state[top.node := Visited],
               s.finished + [top.node], s.circular)
      else if c in s.state && s.state[c].Visiting? then
        s.(stack := rest,
           circular := s.circular + if c in s.positions && s.positions[c] <= |s.path| then set x | x in s.path[s.positions[c]..] else {})
      else if c !in s.state then
        s.(stack := rest + [Frame(c, Targets(g, c))], path := s.path + [c], positions := s.positions[c := |s.path|],
           state := s.state[c := Visiting])
      else s.(stack := rest)
  }

  ghost predicate Playable(g: Graph, locations: set<Cell>, s: Search, cs: seq<Cell>)
    decreases |cs|
  {
    cs == [] || (May(locations, s, cs[0]) && Playable(g, locations, Move(g, s, cs[0]), cs[1..]))
  }

  function Play(g: Graph, s: Search, cs: seq<Cell>): Search
    decreases |cs|
  {
    if cs == [] then s else Play(g, Move(g, s, cs[0]), cs[1..])
  }

  /** No root is left. */
  predicate Over(locations: set<Cell>, s: Search) { s.stack == [] && locations <= s.state.Keys }

  /** A whole search of the formulas, in some order of roots and targets. */
  ghost predicate IsSearch(g: Graph, locations: set<Cell>, cs: seq<Cell>, circular: set<Cell>) {
    Playable(g, locations, START, cs) && Over(locations, Play(g, START, cs)) && Play(g, START, cs).circular == circular
  }

  lemma {:induction false} PlayMore(g: Graph, locations: set<Cell>, s: Search, cs: seq<Cell>, c: Cell)
    requires Playable(g, locations, s, cs) && May(locations, Play(g, s, cs), c)
    ensures Playable(g, locations, s, cs + [c]) && Play(g, s, cs + [c]) == Move(g, Play(g, s, cs), c)
    decreases |cs|
  {
    hide Move, May;
    if cs == [] {
      assert (cs + [c])[1..] == [] && Playable(g, locations, Move(g, s, c), []);
    } else {
      assert (cs + [c])[1..] == cs[1..] + [c];
      PlayMore(g, locations, Move(g, s, cs[0]), cs[1..], c);
    }
  }

  /** What holds between two turns. */
  ghost predicate Keeps(g: Graph, locations: set<Cell>, s: Search) {
    if s.stack == [] then Idle(g, locations, s.state, s.finished, s.circular)
    else Searching(g, locations, s.stack, s.path, s.positions, s.state, s.finished, s.circular)
  }

  lemma MoveKeeps(g: Graph, locations: set<Cell>, s: Search, c: Cell)
    requires Keeps(g, locations, s) && May(locations, s, c) && forall x :: Targets(g, x) <= locations
    ensures Keeps(g, locations, Move(g, s, c))
    ensures s.stack != [] ==> |s.path| == |s.stack| && s.stack[|s.stack| - 1].node == s.path[|s.path| - 1]
    ensures s.stack != [] && s.stack[|s.stack| - 1].targets != {} && c in s.state && s.state[c].Visiting? ==>
              c in s.positions && s.positions[c] < |s.path|
    ensures s.stack != [] ==>
              (s.stack[|s.stack| - 1].targets == {} ==> c in s.state && c !in s.finished && c in locations)
              && (s.stack[|s.stack| - 1].targets != {} ==> c in locations)
  {
    hide StackOk, StateOk, Settled, AllOnCycles, Distinct, Idle, Searching;
    if s.stack == [] {
      StartSearch(g, locations, s.state, s.finished, s.circular, c);
    } else {
      var top := s.stack[|s.stack| - 1];
      SamePath(g, locations, s);
      if top.targets == {} {
        PopKeeps(g, locations, s.stack, s.path, s.positions, s.state, s.finished, s.circular);
        if |s.stack| == 1 {
          assert s.stack[..0] == [] && s.path[..0] == [];
          EndSearch(g, locations, s.positions - {top.node}, s.state[top.node := Visited], s.finished + [top.node], s.circular);
        }
      } else {
        TargetIsFormula(g, locations, s.stack, s.path, s.positions, s.state, s.finished, s.circular, c);
        if c in s.state && s.state[c].Visiting? {
          BackKeeps(g, locations, s.stack, s.path, s.positions, s.state, s.finished, s.circular, c);
        } else if c !in s.state {
          PushKeeps(g, locations, s.stack, s.path, s.positions, s.state, s.finished, s.circular, c);
        } else {
          SkipKeeps(g, locations, s.stack, s.path, s.positions, s.state, s.finished, s.circular, c);
        }
      }
    }
  }

  lemma SamePath(g: Graph, locations: set<Cell>, s: Search)
    requires Searching(g, locations, s.stack, s.path, s.positions, s.state, s.finished, s.circular) && s.stack != []
    ensures |s.path| == |s.stack| && s.stack[|s.stack| - 1].node == s.path[|s.path| - 1]
  {
    var n := |s.stack| - 1;
    assert FrameOk(g, s.stack[n], s.path, s.finished, s.circular, n);
  }

  lemma {:induction false} PlayKeeps(g: Graph, locations: set<Cell>, s: Search, cs: seq<Cell>)
    requires Keeps(g, locations, s) && Playable(g, locations, s, cs) && forall x :: Targets(g, x) <= locations
    ensures Keeps(g, locations, Play(g, s, cs))
    decreases |cs|
  {
    hide Keeps, Move, May;
    if cs != [] {
      MoveKeeps(g, locations, s, cs[0]);
      PlayKeeps(g, locations, Move(g, s, cs[0]), cs[1..]);
    }
  }

  lemma StartKeeps(g: Graph, locations: set<Cell>)
    ensures Keeps(g, locations, START)
  {}

  // ---------------------------------------------------------------- what every search reports

  /**
   Every search, in whatever order it takes roots and targets: each reported cell lies on a cycle reported whole, and
   each cycle has a reference that closed such a cycle, so deleting the reported cells leaves no cycle.
   */
  lemma SearchReports(g: Graph, locations: set<Cell>, cs: seq<Cell>, circular: set<Cell>)
    requires IsSearch(g, locations, cs, circular) && forall x :: Targets(g, x) <= locations
    ensures AllOnCycles(g, circular) && forall p | Cycle(g, p) :: Broken(g, p, circular)
    ensures circular != {} <==> exists p :: Cycle(g, p)
  {
    StartKeeps(g, locations);
    PlayKeeps(g, locations, START, cs);
    var s := Play(g, START, cs);
    assert Idle(g, locations, s.state, s.finished, circular);
    hide Play, Playable, Closes;
    forall p | Cycle(g, p) ensures Broken(g, p, circular) {
      CycleStartsAtFormula(locations, g, p);
      CycleReported(g, s.finished, circular, p);
    }
    ReportedIffCyclic(g, circular);
  }

  lemma ReportedIffCyclic(g: Graph, circular: set<Cell>)
    requires AllOnCycles(g, circular) && forall p | Cycle(g, p) :: Broken(g, p, circular)
    ensures circular != {} <==> exists p :: Cycle(g, p)
  {
    hide Cycle, Closes;
    if circular != {} {
      var c :| c in circular;
      ReportedHasCycle(g, circular, c);
    }
    if exists p :: Cycle(g, p) {
      var p :| Cycle(g, p);
      assert Broken(g, p, circular);
      var j :| 0 <= j < |p| - 1 && Closes(g, circular, p[j], p[j + 1]);
      ClosedIsReported(g, circular, p[j], p[j + 1]);
    }
  }

  lemma ReportedHasCycle(g: Graph, circular: set<Cell>, c: Cell)
    requires AllOnCycles(g, circular) && c in circular
    ensures exists q :: Cycle(g, q) && c in q
  {
    hide Cycle;
    var q :| SimpleCycle(g, q) && Within(q, circular) && c in q;
  }

  lemma ClosedIsReported(g: Graph, circular: set<Cell>, u: Cell, t: Cell)
    requires Closes(g, circular, u, t)
    ensures u in circular && t in circular
  {
    hide Path, Distinct;
    var q :| SimpleCycle(g, q) && Within(q, circular) && q[|q| - 2] == u && q[|q| - 1] == t;
    assert u in q && t in q;
  }

  /** The two cycles use one and the same reference. */
  ghost predicate Share(p: seq<Cell>, q: seq<Cell>) {
    exists i, j :: 0 <= i < |p| - 1 && 0 <= j < |q| - 1 && p[i] == q[j] && p[i + 1] == q[j + 1]
  }

  /** Simple cycles that share a reference have the same cells: no reference lies on two different cycles. */
  ghost predicate Apart(g: Graph) {
    forall p, q | SimpleCycle(g, p) && SimpleCycle(g, q) && Share(p, q) :: Elements(p) == Elements(q)
  }

  /** Cutting the closed walk between two visits of a cell. */
  lemma CutWalk(g: Graph, p: seq<Cell>, i: nat, j: nat) returns (q: seq<Cell>)
    requires Cycle(g, p) && i < j < |p| - 1 && p[i] == p[j]
    ensures Cycle(g, q) && |q| < |p| && q[0] == p[0]
  {
    if i == 0 {
      q := p[..j + 1];
    } else {
      q := p[..i + 1] + p[j + 1..];
      forall k | 0 <= k < |q| - 1 ensures q[k + 1] in Targets(g, q[k]) {
        if k > i {
          assert q[k] == p[k + j - i] && q[k + 1] == p[k + j - i + 1];
        } else if k == i {
          assert q[k + 1] == p[j + 1];
        }
      }
    }
  }

  /** Through the start of any closed walk goes a simple cycle. */
  lemma {:induction false} SimpleFrom(g: Graph, p: seq<Cell>) returns (q: seq<Cell>)
    requires Cycle(g, p)
    ensures SimpleCycle(g, q) && q[0] == p[0]
    decreases |p|
  {
    if Distinct(p[..|p| - 1]) {
      q := p;
    } else {
      var i, j :| 0 <= i < j < |p| - 1 && p[..|p| - 1][i] == p[..|p| - 1][j];
      var r := CutWalk(g, p, i, j);
      q := SimpleFrom(g, r);
    }
  }

  lemma SimpleThrough(g: Graph, c: Cell) returns (q: seq<Cell>)
    requires OnCycle(g, c)
    ensures SimpleCycle(g, q) && c in q
  {
    var p :| Cycle(g, p) && c in p;
    var k :| 0 <= k < |p| && p[k] == c;
    var r := p[k..] + p[1..k + 1];
    forall i | 0 <= i < |r| - 1 ensures r[i + 1] in Targets(g, r[i]) {
      if i < |p| - 1 - k {
        assert r[i] == p[k + i] && r[i + 1] == p[k + i + 1];
      } else {
        var m := i - (|p| - 1 - k);
        assert r[i] == p[m] && r[i + 1] == p[m + 1];
      }
    }
    q := SimpleFrom(g, r);
  }

  /** A simple cycle one of whose references closed a reported cycle is reported whole. */
  lemma BrokenIsReported(g: Graph, circular: set<Cell>, p: seq<Cell>)
    requires SimpleCycle(g, p) && Broken(g, p, circular) && Apart(g)
    ensures Within(p, circular)
  {
    hide Path, Distinct;
    var j :| 0 <= j < |p| - 1 && Closes(g, circular, p[j], p[j + 1]);
    var q :| SimpleCycle(g, q) && Within(q, circular) && q[|q| - 2] == p[j] && q[|q| - 1] == p[j + 1];
    assert q[|q| - 2 + 1] == p[j + 1];
    assert Share(p, q);
    hide SimpleCycle, Closes, Share;
    assert Elements(p) == Elements(q);
    forall c | c in p ensures c in circular {
      assert c in Elements(q);
    }
  }

  /** When no reference lies on two different cycles, every search reports exactly the cells on cycles. */
  lemma ApartReportsAll(g: Graph, locations: set<Cell>, cs: seq<Cell>, circular: set<Cell>, c: Cell)
    requires IsSearch(g, locations, cs, circular) && (forall x :: Targets(g, x) <= locations) && Apart(g)
    ensures c in circular <==> OnCycle(g, c)
  {
    SearchReports(g, locations, cs, circular);
    hide IsSearch, Cycle, Apart, Broken, Closes, Distinct;
    if c in circular {
      ReportedHasCycle(g, circular, c);
    } else if OnCycle(g, c) {
      var p := SimpleThrough(g, c);
      assert Cycle(g, p);
      BrokenIsReported(g, circular, p);
    }
  }

  // ---------------------------------------------------------------- a cell on a cycle that is not reported

  function At(c: string): Cell { Cell("s", c) }

  /** a refers to b, b to c and d, c to a, and d to c: all four lie on the cycle a, b, d, c. */
  function Diamond(): Graph {
    map[At("a") := {At("b")}, At("b") := {At("c"), At("d")}, At("c") := {At("a")}, At("d") := {At("c")}]
  }

  /** From a to b to c and back, then from b to d, whose target c is finished. */
  function DiamondOrder(): seq<Cell> {
    [At("a"), At("b"), At("c"), At("a"), At("c"), At("d"), At("c"), At("d"), At("b"), At("a")]
  }

  lemma FourCells()
    ensures At("a") != At("b") && At("a") != At("c") && At("a") != At("d") && At("b") != At("c") && At("b") != At("d") && At("c") != At("d")
  {
    assert "a"[0] != "b"[0] && "a"[0] != "c"[0] && "a"[0] != "d"[0] && "b"[0] != "c"[0] && "b"[0] != "d"[0] && "c"[0] != "d"[0];
  }

  /** The search has come to `s` after these cells. */
  ghost predicate Comes(g: Graph, locations: set<Cell>, cs: seq<Cell>, s: Search) {
    Playable(g, locations, START, cs) && Play(g, START, cs) == s
  }

  lemma ComesOn(g: Graph, locations: set<Cell>, cs: seq<Cell>, s: Search, c: Cell)
    requires Comes(g, locations, cs, s) && May(locations, s, c)
    ensures Comes(g, locations, cs + [c], Move(g, s, c))
  {
    hide Move, May, Play, Playable;
    PlayMore(g, locations, START, cs, c);
  }

  function Four(): set<Cell> { {At("a"), At("b"), At("c"), At("d")} }

  /** Down to c, and the reference back from c to a. */
  lemma DiamondDown()
    ensures
      Comes(Diamond(), Four(), [At("a"), At("b"), At("c"), At("a")],
            Search([Frame(At("a"), {}), Frame(At("b"), {At("d")}), Frame(At("c"), {})], [At("a"), At("b"), At("c")],
                   map[At("a") := 0, At("b") := 1, At("c") := 2],
                   map[At("a") := Visiting, At("b") := Visiting, At("c") := Visiting], [], {At("a"), At("b"), At("c")}))
  {
    hide Comes, At;
    FourCells();
    var (g, a, b, c, d) := (Diamond(), At("a"), At("b"), At("c"), At("d"));
    var s1 := Search([Frame(a, {b})], [a], map[a := 0], map[a := Visiting], [], {});
    var s2 := Search([Frame(a, {}), Frame(b, {c, d})], [a, b], map[a := 0, b := 1], map[a := Visiting, b := Visiting], [], {});
    var s3 := Search([Frame(a, {}), Frame(b, {d}), Frame(c, {a})], [a, b, c], map[a := 0, b := 1, c := 2],
                     map[a := Visiting, b := Visiting, c := Visiting], [], {});
    AtStart(g, Four());
    assert Move(g, START, a) == s1;
    ComesOn(g, Four(), [], START, a);
    assert [] + [a] == [a];
    assert {b} - {b} == {} && Move(g, s1, b) == s2;
    ComesOn(g, Four(), [a], s1, b);
    assert [a] + [b] == [a, b];
    assert {c, d} - {c} == {d} && Move(g, s2, c) == s3;
    ComesOn(g, Four(), [a, b], s2, c);
    assert [a, b] + [c] == [a, b, c];
    DiamondBack(a, b, c, d, s3);
    ComesOn(g, Four(), [a, b, c], s3, a);
    assert [a, b, c] + [a] == [a, b, c, a];
  }

  lemma AtStart(g: Graph, locations: set<Cell>)
    ensures Comes(g, locations, [], START)
  {}

  lemma DiamondBack(a: Cell, b: Cell, c: Cell, d: Cell, s: Search)
    requires a != b && a != c && b != c
    requires s == Search([Frame(a, {}), Frame(b, {d}), Frame(c, {a})], [a, b, c], map[a := 0, b := 1, c := 2],
                         map[a := Visiting, b := Visiting, c := Visiting], [], {})
    ensures Move(Diamond(), s, a) == s.(stack := [Frame(a, {}), Frame(b, {d}), Frame(c, {})], circular := {a, b, c})
  {
    assert s.path[0..] == [a, b, c] && {a} - {a} == {};
    assert (set x | x in s.path[0..]) == {a, b, c};
    assert s.stack[2 := Frame(c, {a} - {a})] == [Frame(a, {}), Frame(b, {d}), Frame(c, {})];
  }

  /** Back at b with c finished, and down to d, whose only target is finished. */
  lemma DiamondAcross()
    ensures
      Comes(Diamond(), Four(), [At("a"), At("b"), At("c"), At("a"), At("c"), At("d"), At("c")],
            Search([Frame(At("a"), {}), Frame(At("b"), {}), Frame(At("d"), {})], [At("a"), At("b"), At("d")],
                   map[At("a") := 0, At("b") := 1, At("d") := 2],
                   map[At("a") := Visiting, At("b") := Visiting, At("c") := Visited, At("d") := Visiting], [At("c")],
                   {At("a"), At("b"), At("c")}))
  {
    hide Comes, At;
    FourCells();
    DiamondDown();
    var (g, a, b, c, d) := (Diamond(), At("a"), At("b"), At("c"), At("d"));
    var s4 := Search([Frame(a, {}), Frame(b, {d}), Frame(c, {})], [a, b, c], map[a := 0, b := 1, c := 2],
                     map[a := Visiting, b := Visiting, c := Visiting], [], {a, b, c});
    var s5 := Search([Frame(a, {}), Frame(b, {d})], [a, b], map[a := 0, b := 1], map[a := Visiting, b := Visiting, c := Visited], [c], {a, b, c});
    var s6 := Search([Frame(a, {}), Frame(b, {}), Frame(d, {c})], [a, b, d], map[a := 0, b := 1, d := 2],
                     map[a := Visiting, b := Visiting, c := Visited, d := Visiting], [c], {a, b, c});
    hide Move;
    Finishes(g, s4, [Frame(a, {}), Frame(b, {d})], [a, b], c);
    assert Move(g, s4, c) == s5;
    ComesOn(g, Four(), [a, b, c, a], s4, c);
    assert [a, b, c, a] + [c] == [a, b, c, a, c];
    DiamondDescends(g, a, b, c, d, s5, s6);
    ComesOn(g, Four(), [a, b, c, a, c], s5, d);
    assert [a, b, c, a, c] + [d] == [a, b, c, a, c, d];
    ComesOn(g, Four(), [a, b, c, a, c, d], s6, c);
    assert [a, b, c, a, c, d] + [c] == [a, b, c, a, c, d, c];
  }

  lemma DiamondDescends(g: Graph, a: Cell, b: Cell, c: Cell, d: Cell, s5: Search, s6: Search)
    requires a != b && a != c && a != d && b != c && b != d && c != d && Targets(g, d) == {c}
    requires s5 == Search([Frame(a, {}), Frame(b, {d})], [a, b], map[a := 0, b := 1], map[a := Visiting, b := Visiting, c := Visited], [c], {a, b, c})
    requires s6 == Search([Frame(a, {}), Frame(b, {}), Frame(d, {c})], [a, b, d], map[a := 0, b := 1, d := 2],
                          map[a := Visiting, b := Visiting, c := Visited, d := Visiting], [c], {a, b, c})
    ensures Move(g, s5, d) == s6 && Move(g, s6, c) == s6.(stack := [Frame(a, {}), Frame(b, {}), Frame(d, {})])
  {
    hide Targets;
    assert {d} - {d} == {} && {c} - {c} == {};
    assert s5.stack[1 := Frame(b, {})] + [Frame(d, {c})] == s6.stack;
    assert s6.stack[2 := Frame(d, {})] == [Frame(a, {}), Frame(b, {}), Frame(d, {})];
  }

  /** A cell without targets left is finished. */
  lemma Finishes(g: Graph, s: Search, rest: seq<Frame>, way: seq<Cell>, c: Cell)
    requires s.stack == rest + [Frame(c, {})] && s.path == way + [c]
    ensures Move(g, s, c) == Search(rest, way, s.positions - {c}, s.state[c := Visited], s.finished + [c], s.circular)
  {
    assert s.stack[..|s.stack| - 1] == rest && s.path[..|s.path| - 1] == way;
  }

  lemma DiamondEnds(g: Graph, a: Cell, b: Cell, c: Cell, d: Cell, s7: Search, s8: Search, s9: Search)
    requires a != b && a != c && a != d && b != c && b != d && c != d
    requires s7 == Search([Frame(a, {}), Frame(b, {}), Frame(d, {})], [a, b, d], map[a := 0, b := 1, d := 2],
                          map[a := Visiting, b := Visiting, c := Visited, d := Visiting], [c], {a, b, c})
    requires s8 == Search([Frame(a, {}), Frame(b, {})], [a, b], map[a := 0, b := 1],
                          map[a := Visiting, b := Visiting, c := Visited, d := Visited], [c, d], {a, b, c})
    requires s9 == Search([Frame(a, {})], [a], map[a := 0], map[a := Visiting, b := Visited, c := Visited, d := Visited], [c, d, b], {a, b, c})
    ensures Move(g, s7, d) == s8 && Move(g, s8, b) == s9
    ensures Move(g, s9, a) == Search([], [], map[], map[a := Visited, b := Visited, c := Visited, d := Visited], [c, d, b, a], {a, b, c})
  {
    hide Move;
    Finishes(g, s7, [Frame(a, {}), Frame(b, {})], [a, b], d);
    Finishes(g, s8, [Frame(a, {})], [a], b);
    Finishes(g, s9, [], [], a);
  }

  lemma DiamondUp()
    ensures IsSearch(Diamond(), Four(), DiamondOrder(), {At("a"), At("b"), At("c")})
  {
    hide Comes, At, Diamond, IsSearch, Targets, Move;
    FourCells();
    DiamondAcross();
    var (g, a, b, c, d) := (Diamond(), At("a"), At("b"), At("c"), At("d"));
    var s7 := Search([Frame(a, {}), Frame(b, {}), Frame(d, {})], [a, b, d], map[a := 0, b := 1, d := 2],
                     map[a := Visiting, b := Visiting, c := Visited, d := Visiting], [c], {a, b, c});
    var s8 := Search([Frame(a, {}), Frame(b, {})], [a, b], map[a := 0, b := 1],
                     map[a := Visiting, b := Visiting, c := Visited, d := Visited], [c, d], {a, b, c});
    var s9 := Search([Frame(a, {})], [a], map[a := 0], map[a := Visiting, b := Visited, c := Visited, d := Visited], [c, d, b], {a, b, c});
    DiamondEnds(g, a, b, c, d, s7, s8, s9);
    ComesOn(g, Four(), [a, b, c, a, c, d, c], s7, d);
    assert [a, b, c, a, c, d, c] + [d] == [a, b, c, a, c, d, c, d];
    ComesOn(g, Four(), [a, b, c, a, c, d, c, d], s8, b);
    assert [a, b, c, a, c, d, c, d] + [b] == [a, b, c, a, c, d, c, d, b];
    ComesOn(g, Four(), [a, b, c, a, c, d, c, d, b], s9, a);
    assert [a, b, c, a, c, d, c, d, b] + [a] == DiamondOrder();
    DiamondOver(Move(g, s9, a), a, b, c, d);
    WhatComes(g, Four(), DiamondOrder(), Move(g, s9, a));
  }

  lemma DiamondOver(s: Search, a: Cell, b: Cell, c: Cell, d: Cell)
    requires s.stack == [] && s.state == map[a := Visited, b := Visited, c := Visited, d := Visited]
    requires a != b && a != c && a != d && b != c && b != d && c != d
    ensures Over({a, b, c, d}, s)
  {}

  lemma WhatComes(g: Graph, locations: set<Cell>, cs: seq<Cell>, s: Search)
    requires Comes(g, locations, cs, s) && Over(locations, s)
    ensures IsSearch(g, locations, cs, s.circular)
  {}

  lemma DiamondTargets()
    ensures Targets(Diamond(), At("a")) == {At("b")} && Targets(Diamond(), At("b")) == {At("c"), At("d")}
    ensures Targets(Diamond(), At("c")) == {At("a")} && Targets(Diamond(), At("d")) == {At("c")}
  {
    FourCells();
    hide At;
  }

  lemma DiamondCycles()
    ensures SimpleCycle(Diamond(), [At("a"), At("b"), At("d"), At("c"), At("a")])
    ensures SimpleCycle(Diamond(), [At("a"), At("b"), At("c"), At("a")])
  {
    DiamondTargets();
    FourCells();
    hide At, Diamond, Targets;
    var p := [At("a"), At("b"), At("d"), At("c"), At("a")];
    var q := [At("a"), At("b"), At("c"), At("a")];
    assert p[..4] == [At("a"), At("b"), At("d"), At("c")] && q[..3] == [At("a"), At("b"), At("c")];
  }

  /** A search that leaves out a cell on a cycle. */
  lemma SearchCanMiss()
    ensures IsSearch(Diamond(), Four(), DiamondOrder(), {At("a"), At("b"), At("c")})
    ensures OnCycle(Diamond(), At("d")) && At("d") !in {At("a"), At("b"), At("c")} && !Apart(Diamond())
  {
    DiamondUp();
    FourCells();
    DiamondCycles();
    hide At, Diamond, IsSearch, Path, Distinct;
    var p := [At("a"), At("b"), At("d"), At("c"), At("a")];
    var q := [At("a"), At("b"), At("c"), At("a")];
    assert p[2] == At("d") && At("d") in Elements(p) && At("d") !in Elements(q);
    assert p[0] == q[0] && p[0 + 1] == q[0 + 1];
    assert Share(p, q);
  }

  // ---------------------------------------------------------------- the loops

  /** The search has come to these variables in some order of roots and targets. */
  ghost predicate Arrived(g: Graph, locations: set<Cell>, cs: seq<Cell>, s: Search) {
    Comes(g, locations, cs, s) && Keeps(g, locations, s)
  }

  lemma ArrivedOn(g: Graph, locations: set<Cell>, cs: seq<Cell>, s: Search, c: Cell)
    requires Arrived(g, locations, cs, s) && May(locations, s, c) && forall x :: Targets(g, x) <= locations
    ensures Arrived(g, locations, cs + [c], Move(g, s, c))
  {
    hide Move, May, Keeps, Comes;
    ComesOn(g, locations, cs, s, c);
    MoveKeeps(g, locations, s, c);
  }

  /**
   The iterative depth-first search. It terminates on every finite graph and is a search as above, so it reports only
   cells on cycles, breaks every cycle, and reports something if and only if there is one; and it reports every cell
   on a cycle when no reference lies on two.
   */
  method CircularCells(locations: set<Cell>, dependencies: Graph) returns (circular: set<Cell>)
    requires dependencies.Keys <= locations
    ensures
      var g := FormulaReferences(locations, dependencies);
      && (exists cs :: IsSearch(g, locations, cs, circular))
      && AllOnCycles(g, circular) && (forall p | Cycle(g, p) :: Broken(g, p, circular))
      && (circular != {} <==> exists p :: Cycle(g, p))
      && (Apart(g) ==> forall c :: c in circular <==> OnCycle(g, c))
  {
    hide StackOk, StateOk, Settled, AllOnCycles, Distinct, Idle, Cycle, OnCycle, Searching, Comes, Keeps, Move, May, Closes, Apart;
    var g := FormulaReferences(locations, dependencies);
    var stack: seq<Frame>, path: seq<Cell>, positions: map<Cell, nat>, state: map<Cell, Visit> := [], [], map[], map[];
    ghost var finished: seq<Cell>, cs: seq<Cell> := [], [];
    circular := {};
    var roots := locations;
    AtStart(g, locations);
    StartKeeps(g, locations);
    while roots != {}
      invariant roots <= locations && stack == []
      invariant Arrived(g, locations, cs, Search(stack, path, positions, state, finished, circular))
      invariant forall c | c in locations && c !in roots :: c in state
      decreases roots
    {
      var root :| root in roots;
      roots := roots - {root};
      if root in state {
        continue;
      }
      TakeRoot(g, locations, cs, Search(stack, path, positions, state, finished, circular), root);
      path := [root];
      positions := map[root := 0];
      state := state[root := Visiting];
      stack := [Frame(root, Targets(g, root))];
      cs := cs + [root];
      while stack != []
        invariant Arrived(g, locations, cs, Search(stack, path, positions, state, finished, circular))
        invariant forall c | c in locations && c !in roots :: c in state
        decreases locations - state.Keys, locations - Elements(finished), if stack == [] then {} else stack[|stack| - 1].targets
      {
        var top := stack[|stack| - 1];
        ghost var known, done := state.Keys, Elements(finished);
        if top.targets == {} {
          CloseTop(g, locations, cs, Search(stack, path, positions, state, finished, circular));
          stack := stack[..|stack| - 1];
          state := state[top.node := Visited];
          positions := positions - {top.node};
          path := path[..|path| - 1];
          finished := finished + [top.node];
          cs := cs + [top.node];
          assert state.Keys == known && Elements(finished) == done + {top.node};
        } else {
          var target :| target in top.targets;
          FollowTarget(g, locations, cs, Search(stack, path, positions, state, finished, circular), target);
          cs := cs + [target];
          if target in state && state[target].Visiting? {
            circular := circular + (set c | c in path[positions[target]..]);
            stack := stack[|stack| - 1 := Frame(top.node, top.targets - {target})];
          } else if target !in state {
            state := state[target := Visiting];
            positions := positions[target := |path|];
            stack := stack[|stack| - 1 := Frame(top.node, top.targets - {target})] + [Frame(target, Targets(g, target))];
            path := path + [target];
            assert target in locations - known;
          } else {
            stack := stack[|stack| - 1 := Frame(top.node, top.targets - {target})];
          }
        }
      }
    }
    Finished(g, locations, cs, Search(stack, path, positions, state, finished, circular));
  }

  lemma TakeRoot(g: Graph, locations: set<Cell>, cs: seq<Cell>, s: Search, root: Cell)
    requires Arrived(g, locations, cs, s) && s.stack == [] && root in locations && root !in s.state
    requires forall x :: Targets(g, x) <= locations
    ensures Arrived(g, locations, cs + [root], Search([Frame(root, Targets(g, root))], [root], map[root := 0], s.state[root := Visiting], s.finished, s.circular))
  {
    hide Arrived;
    ArrivedOn(g, locations, cs, s, root);
  }

  lemma CloseTop(g: Graph, locations: set<Cell>, cs: seq<Cell>, s: Search)
    requires Arrived(g, locations, cs, s) && s.stack != [] && s.stack[|s.stack| - 1].targets == {}
    requires forall x :: Targets(g, x) <= locations
    ensures
      var node := s.stack[|s.stack| - 1].node;
      && s.path != [] && node in s.state && node !in s.finished && node in locations
      && Arrived(g, locations, cs + [node],
                 Search(s.stack[..|s.stack| - 1], s.path[..|s.path| - 1], s.positions - {node}, s.state[node := Visited],
                        s.finished + [node], s.circular))
  {
    hide Keeps, Comes;
    var node := s.stack[|s.stack| - 1].node;
    MoveKeeps(g, locations, s, node);
    ArrivedOn(g, locations, cs, s, node);
  }

  lemma FollowTarget(g: Graph, locations: set<Cell>, cs: seq<Cell>, s: Search, target: Cell)
    requires Arrived(g, locations, cs, s) && s.stack != [] && target in s.stack[|s.stack| - 1].targets
    requires forall x :: Targets(g, x) <= locations
    ensures
      var top := s.stack[|s.stack| - 1];
      var rest := s.stack[|s.stack| - 1 := Frame(top.node, top.targets - {target})];
      && target in locations
      && if target in s.state && s.state[target].Visiting? then
           target in s.positions && s.positions[target] < |s.path|
           && Arrived(g, locations, cs + [target], s.(stack := rest, circular := s.circular + set c | c in s.path[s.positions[target]..]))
         else if target !in s.state then
           Arrived(g, locations, cs + [target],
                   s.(stack := rest + [Frame(target, Targets(g, target))], path := s.path + [target],
                      positions := s.positions[target := |s.path|], state := s.state[target := Visiting]))
         else Arrived(g, locations, cs + [target], s.(stack := rest))
  {
    hide Keeps, Comes;
    MoveKeeps(g, locations, s, target);
    ArrivedOn(g, locations, cs, s, target);
  }

  lemma Finished(g: Graph, locations: set<Cell>, cs: seq<Cell>, s: Search)
    requires Arrived(g, locations, cs, s) && s.stack == [] && locations <= s.state.Keys && forall x :: Targets(g, x) <= locations
    ensures IsSearch(g, locations, cs, s.circular) && AllOnCycles(g, s.circular)
    ensures (forall p | Cycle(g, p) :: Broken(g, p, s.circular)) && (s.circular != {} <==> exists p :: Cycle(g, p))
    ensures Apart(g) ==> forall c :: c in s.circular <==> OnCycle(g, c)
  {
    WhatComes(g, locations, cs, s);
    hide IsSearch, Cycle, Broken, AllOnCycles, Apart, OnCycle, Arrived;
    SearchReports(g, locations, cs, s.circular);
    if Apart(g) {
      forall c ensures c in s.circular <==> OnCycle(g, c) {
        ApartReportsAll(g, locations, cs, s.circular, c);
      }
    }
  }
}
