/** Sampling the memory of a process tree from one procfs snapshot. Sizes are in kB. */
module ProcessTree {
  import opened Graphs

  const MAX_TRACKED_PROCESS_TREE_PIDS: nat := 4096

  /** The VmRSS line of a status file. */
  datatype Rss = NoRss | Kb(n: nat) | MalformedRss

  /** A status file: gone, unreadable, or read. `dead` is state Z, X or x; `alone` is a thread
      count of zero or one. */
  datatype StatusFile = StatusGone | StatusError | Status(dead: bool, alone: bool, rss: Rss)

  /** Whether the stat file shows the exiting flag. */
  datatype StatFile = StatGone | StatError | Stat(exiting: bool)

  datatype Child = Pid(pid: Process) | MalformedPid

  datatype ChildrenFile = ChildrenGone | ChildrenError | Children(pids: seq<Child>)

  datatype Task = Task(status: StatusFile, children: ChildrenFile)

  datatype TaskDir = TasksGone | TasksError | Tasks(tasks: seq<Task>)

  datatype Proc = Proc(status: StatusFile, stat: StatFile, taskDir: TaskDir)

  /** A process identifier. */
  datatype Process = Process(id: int)

  type Snapshot = map<Process, Proc>

  datatype Reason =
    | ProcessCountLimit | StatusReadError | MalformedStatusRss | ExitStateReadError | LiveProcessMissingRss
    | TaskCountLimit | SiblingRssReadError | ChildrenReadError | MalformedChildPid | TaskDirectoryReadError
    | UnreadableAfterRetries

  /** A sample: a sum, a failure, or nothing yet (an exiting group whose memory is not readable). */
  datatype Sample = Sum(kb: nat) | Failure(reason: Reason) | NotReadable

  // ----- One process -----

  /** What visiting one process gives: no process; no address space and no children; a size with
      the children of all its tasks; or a reason to give up. */
  datatype Visit =
    | Absent
    | Empty
    | Counted(kb: nat, children: seq<Process>)
    | Rejected(reason: Reason)
    | Unready

  function StatusOf(s: Snapshot, p: Process): StatusFile {
    if p in s then s[p].status else StatusGone
  }

  /** The size a task's status contributes: the first readable one counts for the whole group. */
  datatype Sibling = Found(kb: nat) | Nothing | Broken

  function SiblingOf(t: Task): Sibling {
    match t.status
    case StatusGone => Nothing
    case StatusError => Broken
    case Status(_, _, rss) => match rss case NoRss => Nothing case Kb(n) => Found(n) case MalformedRss => Broken
  }

  function PidsOf(cs: seq<Child>): seq<Process>
    requires forall c | c in cs :: c.Pid?
  {
    seq(|cs|, i requires 0 <= i < |cs| => cs[i].pid)
  }

  function ChildrenOf(t: Task): seq<Process>
    requires ChildrenOk(t)
  {
    if t.children.Children? then PidsOf(t.children.pids) else []
  }

  predicate ChildrenOk(t: Task) {
    match t.children
    case ChildrenGone => true
    case ChildrenError => false
    case Children(cs) => forall c | c in cs :: c.Pid?
  }

  /** What is left when every task has been looked at. */
  function Finish(need: bool, size: Sibling): Visit
    requires !size.Broken?
  {
    if need && size.Nothing? then Unready else Counted(if size.Found? then size.kb else 0, [])
  }

  function Prepend(children: seq<Process>, v: Visit): Visit {
    if v.Counted? then Counted(v.kb, children + v.children) else v
  }

  /** The scan of a task directory from entry `k`, with `size` known or, when it must come from a
      task, looked for. */
  function ScanTasks(tasks: seq<Task>, k: nat, need: bool, size: Sibling): Visit
    requires k <= |tasks| && !size.Broken?
    decreases |tasks| - k
  {
    if k == |tasks| then Finish(need, size)
    else if k >= MAX_TRACKED_PROCESS_TREE_PIDS then Rejected(TaskCountLimit)
    else
      var looked := if need && size.Nothing? then SiblingOf(tasks[k]) else size;
      if looked.Broken? then Rejected(SiblingRssReadError)
      else if tasks[k].children.ChildrenError? then Rejected(ChildrenReadError)
      else if !ChildrenOk(tasks[k]) then Rejected(MalformedChildPid)
      else Prepend(ChildrenOf(tasks[k]), ScanTasks(tasks, k + 1, need, looked))
  }

  function VisitTasks(p: Proc, need: bool, size: Sibling): Visit
    requires !size.Broken?
  {
    match p.taskDir
    case TasksGone => Finish(need, size)
    case TasksError => Rejected(TaskDirectoryReadError)
    case Tasks(tasks) => ScanTasks(tasks, 0, need, size)
  }

  /** The first task with a readable size from entry `k` on. */
  predicate FirstSized(tasks: seq<Task>, k: nat, i: int) {
    k <= i < |tasks| && SiblingOf(tasks[i]).Found? && forall j | k <= j < i :: SiblingOf(tasks[j]).Nothing?
  }

  /** A counted directory: the children are those of all its tasks, and the size is the one already
      known or, when it must come from a task, that of the first task with one. */
  lemma {:induction false} ScanCounted(tasks: seq<Task>, k: nat, need: bool, size: Sibling)
    requires k <= |tasks| && !size.Broken? && ScanTasks(tasks, k, need, size).Counted?
    ensures forall i | k <= i < |tasks| :: ChildrenOk(tasks[i])
    ensures forall c :: c in ScanTasks(tasks, k, need, size).children
                    <==> exists i :: k <= i < |tasks| && c in ChildrenOf(tasks[i])
    ensures !need || size.Found? ==> ScanTasks(tasks, k, need, size).kb == if size.Found? then size.kb else 0
    ensures need && size.Nothing? ==> exists i :: FirstSized(tasks, k, i)
                                               && ScanTasks(tasks, k, need, size).kb == SiblingOf(tasks[i]).kb
    decreases |tasks| - k
  {
    if k < |tasks| {
      var looked := if need && size.Nothing? then SiblingOf(tasks[k]) else size;
      ScanCounted(tasks, k + 1, need, looked);
      if need && size.Nothing? {
        if looked.Found? {
          assert FirstSized(tasks, k, k);
        } else {
          var i :| FirstSized(tasks, k + 1, i) && ScanTasks(tasks, k + 1, need, looked).kb == SiblingOf(tasks[i]).kb;
          assert FirstSized(tasks, k, i);
        }
      }
    }
  }

  function VisitOf(s: Snapshot, p: Process): Visit {
    match StatusOf(s, p)
    case StatusGone => Absent
    case StatusError => Rejected(StatusReadError)
    case Status(dead, alone, rss) =>
      if dead then (if alone then Empty else VisitTasks(s[p], true, Nothing))
      else
        match rss
        case MalformedRss => Rejected(MalformedStatusRss)
        case Kb(n) => VisitTasks(s[p], false, Found(n))
        case NoRss =>
          match s[p].stat
          case StatGone => Empty
          case StatError => Rejected(ExitStateReadError)
          case Stat(exiting) =>
            if exiting then VisitTasks(s[p], !alone, Nothing) else Rejected(LiveProcessMissingRss)
  }

  /** The inner loop over a task directory. `need` says that the size must come from a task. */
  method VisitTaskDir(p: Proc, need: bool, size: Sibling) returns (v: Visit)
    requires !size.Broken?
    ensures v == VisitTasks(p, need, size)
  {
    match p.taskDir {
      case TasksGone =>
        v := Finish(need, size);
      case TasksError =>
        v := Rejected(TaskDirectoryReadError);
      case Tasks(tasks) =>
        v := VisitEachTask(tasks, need, size);
    }
  }

  method VisitEachTask(tasks: seq<Task>, need: bool, size: Sibling) returns (v: Visit)
    requires !size.Broken?
    ensures v == ScanTasks(tasks, 0, need, size)
  {
    hide Prepend, ChildrenOk, SiblingOf;
    var found := size;
    var children: seq<Process> := [];
    PrependLaws(children, [], ScanTasks(tasks, 0, need, size));
    for k := 0 to |tasks|
      invariant !found.Broken?
      invariant ScanTasks(tasks, 0, need, size) == Prepend(children, ScanTasks(tasks, k, need, found))
    {
      PrependLaws(children, [], ScanTasks(tasks, k, need, found));
      if k + 1 > MAX_TRACKED_PROCESS_TREE_PIDS {
        return Rejected(TaskCountLimit);
      }
      if need && found.Nothing? {
        found := SiblingOf(tasks[k]);
        if found.Broken? {
          return Rejected(SiblingRssReadError);
        }
      }
      var listed := ReadChildren(tasks[k]);
      if listed.Rejected? {
        return listed;
      }
      PrependLaws(children, ChildrenOf(tasks[k]), ScanTasks(tasks, k + 1, need, found));
      children := children + listed.children;
    }
    v := Prepend(children, Finish(need, found));
  }

  /** Reading one task's children file. */
  method ReadChildren(t: Task) returns (v: Visit)
    ensures v == if t.children.ChildrenError? then Rejected(ChildrenReadError)
                 else if !ChildrenOk(t) then Rejected(MalformedChildPid)
                 else Counted(0, ChildrenOf(t))
  {
    match t.children {
      case ChildrenGone =>
        v := Counted(0, []);
      case ChildrenError =>
        v := Rejected(ChildrenReadError);
      case Children(cs) =>
        if c :| c in cs && !c.Pid? {
          return Rejected(MalformedChildPid);
        }
        v := Counted(0, PidsOf(cs));
    }
  }

  lemma PrependLaws(a: seq<Process>, b: seq<Process>, v: Visit)
    ensures Prepend(a, Prepend(b, v)) == Prepend(a + b, v)
    ensures !v.Counted? ==> Prepend(a, v) == v
    ensures Prepend([], v) == v
  {
    if v.Counted? {
      assert a + b + v.children == a + (b + v.children);
      assert [] + v.children == v.children;
    }
  }

  // ----- The tree -----

  predicate IsChild(s: Snapshot, p: Process, c: Process) {
    VisitOf(s, p).Counted? && c in VisitOf(s, p).children
  }

  /** One address space, counted once: a live process counts with its own size, a dead leader of
      a running group with that of its first sized task, and the children are those of every task. */
  lemma CountedProcess(s: Snapshot, p: Process, tasks: seq<Task>)
    requires p in s && s[p].status.Status? && s[p].taskDir == Tasks(tasks) && VisitOf(s, p).Counted?
    ensures !s[p].status.dead && s[p].status.rss.Kb? ==> VisitOf(s, p).kb == s[p].status.rss.n
    ensures s[p].status.dead ==> exists i :: FirstSized(tasks, 0, i) && VisitOf(s, p).kb == SiblingOf(tasks[i]).kb
    ensures forall i | 0 <= i < |tasks| :: ChildrenOk(tasks[i])
    ensures forall c :: IsChild(s, p, c) <==> exists i :: 0 <= i < |tasks| && c in ChildrenOf(tasks[i])
  {
    var live := !s[p].status.dead;
    if live && s[p].status.rss.Kb? {
      ScanCounted(tasks, 0, false, Found(s[p].status.rss.n));
    } else {
      ScanCounted(tasks, 0, !(live && s[p].status.alone), Nothing);
    }
  }

  ghost function ChildEdge(s: Snapshot): (Process, Process) -> bool {
    (p: Process, c: Process) => IsChild(s, p, c)
  }

  /** A process with a status entry that the children lists lead to. */
  ghost predicate InTree(s: Snapshot, root: Process, p: Process) {
    Reaches(ChildEdge(s), root, p) && VisitOf(s, p) != Absent
  }

  ghost function Tree(s: Snapshot, root: Process): (r: set<Process>)
    ensures forall p :: p in r <==> InTree(s, root, p)
  {
    set p | p in s && InTree(s, root, p)
  }

  predicate Readable(v: Visit) {
    v.Absent? || v.Empty? || v.Counted?
  }

  ghost predicate TreeReadable(s: Snapshot, root: Process) {
    forall p | InTree(s, root, p) :: Readable(VisitOf(s, p))
  }

  function SizeOf(v: Visit): nat {
    if v.Counted? then v.kb else 0
  }

  /** The sum of the sizes of a set of processes, each once. */
  ghost function TotalKb(s: Snapshot, ps: set<Process>): nat {
    if ps == {} then 0 else
      var p :| p in ps;
      SizeOf(VisitOf(s, p)) + TotalKb(s, ps - {p})
  }

  lemma {:induction false} TotalKbRemove(s: Snapshot, ps: set<Process>, p: Process)
    requires p in ps
    ensures TotalKb(s, ps) == SizeOf(VisitOf(s, p)) + TotalKb(s, ps - {p})
    decreases |ps|
  {
    var q :| q in ps && TotalKb(s, ps) == SizeOf(VisitOf(s, q)) + TotalKb(s, ps - {q});
    if q != p {
      TotalKbRemove(s, ps - {q}, p);
      TotalKbRemove(s, ps - {p}, q);
      assert ps - {q} - {p} == ps - {p} - {q};
    }
  }

  lemma TotalKbAdd(s: Snapshot, ps: set<Process>, p: Process)
    requires p !in ps
    ensures TotalKb(s, ps + {p}) == TotalKb(s, ps) + SizeOf(VisitOf(s, p))
  {
    TotalKbRemove(s, ps + {p}, p);
    assert ps + {p} - {p} == ps;
  }

  /** What the traversal knows: the visited processes are in the tree and were readable, the
      frontier is reachable, and every child of a visited process is visited, waiting or absent. */
  ghost predicate Progress(s: Snapshot, root: Process, pids: set<Process>, frontier: set<Process>) {
    && (forall p | p in pids :: InTree(s, root, p) && Readable(VisitOf(s, p)))
    && (forall p | p in frontier :: Reaches(ChildEdge(s), root, p))
    && (root in pids || root in frontier)
    && (forall p, c | p in pids && IsChild(s, p, c) :: c in pids || c in frontier || VisitOf(s, c) == Absent)
  }

  lemma ProgressStart(s: Snapshot, root: Process)
    ensures Progress(s, root, {}, {root}) && TotalKb(s, {}) == 0
  {
    ReachesSelf(ChildEdge(s), root);
  }

  lemma ProgressVisit(s: Snapshot, root: Process, pids: set<Process>, frontier: set<Process>, rest: set<Process>,
                      p: Process, children: set<Process>)
    requires Progress(s, root, pids, frontier) && p in frontier && frontier == rest + {p}
    requires Readable(VisitOf(s, p)) && VisitOf(s, p) != Absent
    requires forall c :: c in children <==> IsChild(s, p, c) && c !in pids + {p}
    ensures Progress(s, root, pids + {p}, rest + children)
  {
    hide VisitOf;
    forall c | c in children ensures Reaches(ChildEdge(s), root, c) {
      ReachesExtend(ChildEdge(s), root, p, c);
    }
  }

  lemma ProgressSkip(s: Snapshot, root: Process, pids: set<Process>, frontier: set<Process>, rest: set<Process>,
                     p: Process)
    requires Progress(s, root, pids, frontier) && p in frontier && frontier == rest + {p}
    requires p in pids || (VisitOf(s, p) == Absent && p != root)
    ensures Progress(s, root, pids, rest)
  {
    hide VisitOf;
  }

  function SetOf(ps: seq<Process>): set<Process> {
    set p | p in ps
  }

  lemma ProgressDone(s: Snapshot, root: Process, pids: set<Process>)
    requires Progress(s, root, pids, {})
    requires root.id > 0 && |pids| <= MAX_TRACKED_PROCESS_TREE_PIDS
    ensures Says(s, root, Sum(TotalKb(s, pids)))
  {
    hide VisitOf;
    forall p | InTree(s, root, p) ensures p in pids {
      forall x, y | (x in pids || VisitOf(s, x) == Absent) && ChildEdge(s)(x, y)
        ensures y in pids || VisitOf(s, y) == Absent
      {
      }
      ReachesInduction(ChildEdge(s), x => x in pids || VisitOf(s, x) == Absent, root, p);
    }
    assert pids == Tree(s, root);
  }

  /** All processes the children lists lead to, present or not, are few enough to track. */
  ghost predicate FewEnough(s: Snapshot, root: Process) {
    |Tree(s, root)| < MAX_TRACKED_PROCESS_TREE_PIDS
    || (|Tree(s, root)| == MAX_TRACKED_PROCESS_TREE_PIDS
        && forall p | Reaches(ChildEdge(s), root, p) :: VisitOf(s, p) != Absent)
  }

  method VisitProcess(s: Snapshot, p: Process) returns (v: Visit)
    ensures v == VisitOf(s, p)
  {
    match StatusOf(s, p) {
      case StatusGone =>
        return Absent;
      case StatusError =>
        return Rejected(StatusReadError);
      case Status(dead, alone, rss) =>
        var need := false;
        var size := Nothing;
        if dead {
          if alone {
            return Empty;
          }
          need := true;
        } else {
          match rss {
            case MalformedRss =>
              return Rejected(MalformedStatusRss);
            case Kb(n) =>
              size := Found(n);
            case NoRss =>
              match s[p].stat {
                case StatGone =>
                  return Empty;
                case StatError =>
                  return Rejected(ExitStateReadError);
                case Stat(exiting) =>
                  if !exiting {
                    return Rejected(LiveProcessMissingRss);
                  }
                  need := !alone;
              }
          }
        }
        v := VisitTaskDir(s[p], need, size);
    }
  }

  /** What a sample says about the snapshot it was taken from. A sum is the exact total over the
      tree, each process once, and the whole tree was readable; a failure names a process it is
      about, or too many were reachable. */
  ghost predicate Says(s: Snapshot, root: Process, r: Sample) {
    if root.id <= 0 || VisitOf(s, root) == Absent then r == Sum(0)
    else
      match r
      case Sum(kb) =>
        && TreeReadable(s, root)
        && |Tree(s, root)| <= MAX_TRACKED_PROCESS_TREE_PIDS
        && kb == TotalKb(s, Tree(s, root))
      case Failure(reason) =>
        if reason == ProcessCountLimit then !FewEnough(s, root)
        else exists p :: InTree(s, root, p) && VisitOf(s, p) == Rejected(reason)
      case NotReadable => exists p :: InTree(s, root, p) && VisitOf(s, p) == Unready
  }

  /** A readable tree of few enough processes always gives its sum. */
  lemma ReadableTreeIsSummed(s: Snapshot, root: Process, r: Sample)
    requires root.id > 0 && TreeReadable(s, root) && FewEnough(s, root) && Says(s, root, r)
    ensures r == Sum(TotalKb(s, Tree(s, root)))
  {
    hide VisitOf, FewEnough;
    if VisitOf(s, root) == Absent {
      RootAbsent(s, root);
    }
  }

  /** A live process without a size is never passed over: wherever it is in the tree, no sum comes
      out. */
  lemma LiveProcessNeedsSize(s: Snapshot, root: Process, p: Process, r: Sample)
    requires root.id > 0 && Reaches(ChildEdge(s), root, p) && p in s && Says(s, root, r)
    requires s[p].status.Status? && !s[p].status.dead && s[p].status.rss == NoRss && s[p].stat == Stat(false)
    ensures !r.Sum?
  {
    assert InTree(s, root, p) && VisitOf(s, p) == Rejected(LiveProcessMissingRss);
    hide VisitOf;
    if VisitOf(s, root) == Absent {
      OnlyRoot(s, root, p);
    }
  }

  /** _sample_process_tree_rss_mb. */
  method SampleProcessTree(s: Snapshot, root: Process) returns (r: Sample)
    ensures Says(s, root, r)
  {
    hide *;
    if root.id <= 0 {
      SaysZero(s, root);
      return Sum(0);
    }
    var pids: set<Process> := {};
    var frontier := [root];
    var total := 0;
    ProgressStart(s, root);
    Pop(frontier);
    while frontier != []
      invariant Progress(s, root, pids, SetOf(frontier))
      invariant |pids| <= MAX_TRACKED_PROCESS_TREE_PIDS
      invariant total == TotalKb(s, pids)
      decreases MAX_TRACKED_PROCESS_TREE_PIDS - |pids|, |frontier|
    {
      var p := frontier[|frontier| - 1];
      var rest := frontier[..|frontier| - 1];
      Pop(frontier);
      if p in pids {
        ProgressSkip(s, root, pids, SetOf(frontier), SetOf(rest), p);
        frontier := rest;
        continue;
      }
      if |pids| >= MAX_TRACKED_PROCESS_TREE_PIDS {
        TooMany(s, root, pids, SetOf(frontier), p);
        return Failure(ProcessCountLimit);
      }
      var v := VisitProcess(s, p);
      match v {
        case Absent =>
          if p == root {
            SaysZero(s, root);
            return Sum(0);
          }
          ProgressSkip(s, root, pids, SetOf(frontier), SetOf(rest), p);
          frontier := rest;
        case Rejected(reason) =>
          SaysNotReadable(s, root, pids, SetOf(frontier), p, Failure(reason));
          return Failure(reason);
        case Unready =>
          SaysNotReadable(s, root, pids, SetOf(frontier), p, NotReadable);
          return NotReadable;
        case Empty =>
          ProgressEmpty(s, root, pids, SetOf(frontier), SetOf(rest), p);
          pids := pids + {p};
          frontier := rest;
        case Counted(kb, children) =>
          var unvisited := Unvisited(children, pids + {p});
          ProgressCounted(s, root, pids, SetOf(frontier), rest, p, unvisited);
          pids := pids + {p};
          frontier := rest + unvisited;
          total := total + kb;
      }
    }
    assert SetOf(frontier) == {};
    ProgressDone(s, root, pids);
    r := Sum(total);
  }

  /** The children not yet visited, in order. */
  function Unvisited(children: seq<Process>, pids: set<Process>): (r: seq<Process>)
    ensures forall c :: c in r <==> c in children && c !in pids
  {
    if children == [] then [] else
      var rest := Unvisited(children[1..], pids);
      assert forall c :: c in children <==> c == children[0] || c in children[1..];
      if children[0] in pids then rest else [children[0]] + rest
  }

  lemma Pop(ps: seq<Process>)
    requires ps != []
    ensures SetOf(ps) == SetOf(ps[..|ps| - 1]) + {ps[|ps| - 1]}
    ensures |ps| == 1 ==> SetOf(ps) == {ps[0]}
    ensures SetOf([]) == {}
  {
    assert ps == ps[..|ps| - 1] + [ps[|ps| - 1]];
  }

  lemma ProgressEmpty(s: Snapshot, root: Process, pids: set<Process>, frontier: set<Process>, rest: set<Process>,
                      p: Process)
    requires Progress(s, root, pids, frontier) && p in frontier && frontier == rest + {p} && p !in pids
    requires VisitOf(s, p).Empty?
    ensures Progress(s, root, pids + {p}, rest)
    ensures TotalKb(s, pids + {p}) == TotalKb(s, pids)
  {
    ProgressVisit(s, root, pids, frontier, rest, p, {});
    TotalKbAdd(s, pids, p);
    assert rest + {} == rest;
  }

  lemma ProgressCounted(s: Snapshot, root: Process, pids: set<Process>, frontier: set<Process>, rest: seq<Process>,
                        p: Process, unvisited: seq<Process>)
    requires Progress(s, root, pids, frontier) && p in frontier && frontier == SetOf(rest) + {p} && p !in pids
    requires VisitOf(s, p).Counted? && unvisited == Unvisited(VisitOf(s, p).children, pids + {p})
    ensures Progress(s, root, pids + {p}, SetOf(rest + unvisited))
    ensures TotalKb(s, pids + {p}) == TotalKb(s, pids) + VisitOf(s, p).kb
  {
    hide VisitOf;
    ProgressVisit(s, root, pids, frontier, SetOf(rest), p, SetOf(unvisited));
    TotalKbAdd(s, pids, p);
    assert SetOf(rest + unvisited) == SetOf(rest) + SetOf(unvisited);
  }

  lemma SaysZero(s: Snapshot, root: Process)
    requires root.id <= 0 || VisitOf(s, root) == Absent
    ensures Says(s, root, Sum(0))
  {
  }

  lemma SaysNotReadable(s: Snapshot, root: Process, pids: set<Process>, frontier: set<Process>, p: Process, r: Sample)
    requires root.id > 0 && Progress(s, root, pids, frontier) && p in frontier
    requires (r.Failure? && VisitOf(s, p) == Rejected(r.reason)) || (r.NotReadable? && VisitOf(s, p) == Unready)
    ensures Says(s, root, r)
  {
    assert InTree(s, root, p);
    VisitIsNoCountLimit(s, p);
    hide VisitOf;
    if VisitOf(s, root) == Absent {
      OnlyRoot(s, root, p);
    }
  }

  lemma VisitIsNoCountLimit(s: Snapshot, p: Process)
    ensures VisitOf(s, p) != Rejected(ProcessCountLimit)
  {
    if p in s && s[p].taskDir.Tasks? {
      forall need, size: Sibling | !size.Broken?
        ensures ScanTasks(s[p].taskDir.tasks, 0, need, size) != Rejected(ProcessCountLimit)
      {
        ScanIsNoCountLimit(s[p].taskDir.tasks, 0, need, size);
      }
    }
  }

  lemma {:induction false} ScanIsNoCountLimit(tasks: seq<Task>, k: nat, need: bool, size: Sibling)
    requires k <= |tasks| && !size.Broken?
    ensures ScanTasks(tasks, k, need, size) != Rejected(ProcessCountLimit)
    decreases |tasks| - k
  {
    if k < |tasks| && k < MAX_TRACKED_PROCESS_TREE_PIDS {
      var looked := if need && size.Nothing? then SiblingOf(tasks[k]) else size;
      if !looked.Broken? {
        ScanIsNoCountLimit(tasks, k + 1, need, looked);
      }
    }
  }

  lemma OnlyRoot(s: Snapshot, root: Process, p: Process)
    requires VisitOf(s, root) == Absent && Reaches(ChildEdge(s), root, p)
    ensures p == root
  {
    ReachesInduction(ChildEdge(s), x => x == root, root, p);
  }

  lemma RootAbsent(s: Snapshot, root: Process)
    requires VisitOf(s, root) == Absent
    ensures Tree(s, root) == {} && TreeReadable(s, root)
  {
    forall p | Reaches(ChildEdge(s), root, p) ensures p == root {
      OnlyRoot(s, root, p);
    }
  }

  lemma SubsetSize<T>(a: set<T>, b: set<T>)
    requires a <= b
    ensures |a| <= |b|
  {
    assert b == a + (b - a);
  }

  lemma TooMany(s: Snapshot, root: Process, pids: set<Process>, frontier: set<Process>, p: Process)
    requires Progress(s, root, pids, frontier) && p in frontier && p !in pids
    requires |pids| >= MAX_TRACKED_PROCESS_TREE_PIDS
    ensures root.id > 0 ==> Says(s, root, Failure(ProcessCountLimit))
  {
    SubsetSize(pids, Tree(s, root));
    if VisitOf(s, p) != Absent {
      SubsetSize(pids + {p}, Tree(s, root));
    }
    if VisitOf(s, root) == Absent {
      RootAbsent(s, root);
    }
    assert !FewEnough(s, root);
  }

  /** _process_tree_rss_mb: up to three samples, of successive snapshots; the first that is
      readable counts. */
  method ProcessTreeRss(attempts: seq<Snapshot>, root: Process) returns (r: Sample)
    requires |attempts| == 3
    ensures !r.NotReadable?
    ensures (exists k :: FirstReadable(attempts, root, k) && Says(attempts[k], root, r))
         || (r == Failure(UnreadableAfterRetries) && forall k | 0 <= k < 3 :: Says(attempts[k], root, NotReadable))
  {
    hide Says;
    for k := 0 to 3
      invariant forall j | 0 <= j < k :: Says(attempts[j], root, NotReadable)
    {
      var sample := SampleProcessTree(attempts[k], root);
      if !sample.NotReadable? {
        assert FirstReadable(attempts, root, k);
        return sample;
      }
    }
    r := Failure(UnreadableAfterRetries);
  }

  ghost predicate FirstReadable(attempts: seq<Snapshot>, root: Process, k: int) {
    0 <= k < |attempts| && forall j | 0 <= j < k :: Says(attempts[j], root, NotReadable)
  }
}
