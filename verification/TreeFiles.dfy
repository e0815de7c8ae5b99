/** What a sample says about the files of procfs themselves: which processes are summed, with which
    size, and which files rule a sum out. */
module TreeFiles {
  import opened Graphs
  import opened ProcessTree

  // ----- One process -----

  /** The processes that are passed over with nothing to add and nothing to follow: a dead leader without
      siblings, and a process without RSS whose stat file is gone. */
  predicate Exempt(p: Proc) {
    && p.status.Status?
    && ((p.status.dead && p.status.alone) || (!p.status.dead && p.status.rss == NoRss && p.stat == StatGone))
  }

  /** Some task's children file names the process. */
  ghost predicate Names(p: Proc, c: Process) {
    && p.taskDir.Tasks?
    && exists t :: t in p.taskDir.tasks && t.children.Children? && Pid(c) in t.children.pids
  }

  /** The size must come from a task: the leader is dead, or has released its memory and has siblings. */
  predicate NeedsTask(p: Proc) {
    p.status.Status? && (p.status.dead || (p.status.rss == NoRss && !p.status.alone))
  }

  /** A task without memory of its own: its status is gone or has no RSS line. */
  predicate Sizeless(t: Task) {
    t.status == StatusGone || (t.status.Status? && t.status.rss == NoRss)
  }

  /** The first task that is not without a size has one. */
  predicate SizedAt(tasks: seq<Task>, i: int) {
    && 0 <= i < |tasks| && tasks[i].status.Status? && tasks[i].status.rss.Kb?
    && forall j | 0 <= j < i :: Sizeless(tasks[j])
  }

  predicate ChildrenRead(t: Task) {
    t.children != ChildrenError && (t.children.Children? ==> MalformedPid !in t.children.pids)
  }

  /** Every file the process needs can be read. */
  ghost predicate FilesRead(p: Proc) {
    && p.status.Status?
    && (!p.status.dead ==> p.status.rss != MalformedRss && (p.status.rss == NoRss ==> p.stat == Stat(true)))
    && p.taskDir != TasksError
    && (p.taskDir.Tasks? ==> |p.taskDir.tasks| <= 4096 && forall t | t in p.taskDir.tasks :: ChildrenRead(t))
    && (NeedsTask(p) ==> p.taskDir.Tasks? && exists i :: SizedAt(p.taskDir.tasks, i))
  }

  /** The size of a process: its own, or that of its first sized task. */
  ghost function FileSize(p: Proc): nat {
    if !p.status.Status? || Exempt(p) then 0
    else if !p.status.dead && p.status.rss.Kb? then p.status.rss.n
    else if NeedsTask(p) && p.taskDir.Tasks? && exists i :: SizedAt(p.taskDir.tasks, i) then
      var i :| SizedAt(p.taskDir.tasks, i);
      p.taskDir.tasks[i].status.rss.n
    else 0
  }

  lemma SizedIsFirst(tasks: seq<Task>, i: int)
    ensures SizedAt(tasks, i) <==> FirstSized(tasks, 0, i)
  {
    forall j | 0 <= j < |tasks| ensures SiblingOf(tasks[j]).Nothing? <==> Sizeless(tasks[j]) {}
    hide Sizeless;
  }

  lemma SizedOnce(tasks: seq<Task>, i: int, j: int)
    requires SizedAt(tasks, i) && SizedAt(tasks, j)
    ensures i == j
  {
    assert !Sizeless(tasks[i]) && !Sizeless(tasks[j]);
  }

  lemma ChildrenReadIsOk(t: Task)
    ensures ChildrenRead(t) <==> ChildrenOk(t)
    ensures ChildrenOk(t) ==> forall c :: c in ChildrenOf(t) <==> t.children.Children? && Pid(c) in t.children.pids
  {
    if t.children.Children? {
      var cs := t.children.pids;
      assert forall x | x in cs :: x.Pid? || x == MalformedPid;
      if ChildrenOk(t) {
        forall c ensures c in PidsOf(cs) <==> Pid(c) in cs {
          if c in PidsOf(cs) {
            var i :| 0 <= i < |cs| && PidsOf(cs)[i] == c;
            assert cs[i] in cs && cs[i].Pid?;
            assert cs[i] == Pid(c);
          }
          if Pid(c) in cs {
            var i :| 0 <= i < |cs| && cs[i] == Pid(c);
            assert PidsOf(cs)[i] == c;
          }
        }
      }
    }
  }

  /** A directory of few enough tasks, all with readable children and, if a size is needed, a first
      sized one, is scanned to its end. */
  lemma {:induction false} ScanSucceeds(tasks: seq<Task>, k: nat, need: bool, size: Sibling)
    requires k <= |tasks| <= MAX_TRACKED_PROCESS_TREE_PIDS && !size.Broken?
    requires forall i | k <= i < |tasks| :: ChildrenOk(tasks[i])
    requires need && size.Nothing? ==> exists i :: FirstSized(tasks, k, i)
    ensures ScanTasks(tasks, k, need, size).Counted?
    decreases |tasks| - k
  {
    if k < |tasks| {
      var looked := if need && size.Nothing? then SiblingOf(tasks[k]) else size;
      if need && size.Nothing? {
        var i :| FirstSized(tasks, k, i);
        if i > k {
          assert FirstSized(tasks, k + 1, i);
        }
      }
      ScanSucceeds(tasks, k + 1, need, looked);
    }
  }

  lemma {:induction false} ScanBounded(tasks: seq<Task>, k: nat, need: bool, size: Sibling)
    requires k <= |tasks| && !size.Broken? && k <= MAX_TRACKED_PROCESS_TREE_PIDS
    requires ScanTasks(tasks, k, need, size).Counted?
    ensures |tasks| <= MAX_TRACKED_PROCESS_TREE_PIDS
    decreases |tasks| - k
  {
    if k < |tasks| {
      ScanBounded(tasks, k + 1, need, if need && size.Nothing? then SiblingOf(tasks[k]) else size);
    }
  }

  /** The scan, exactly: counted iff the files allow it, with the named children. */
  lemma ScanOnFiles(tasks: seq<Task>, need: bool, size: Sibling)
    requires !size.Broken? && (need ==> size == Nothing)
    ensures ScanTasks(tasks, 0, need, size).Counted? <==>
      && |tasks| <= 4096 && (forall t | t in tasks :: ChildrenRead(t)) && (need ==> exists i :: SizedAt(tasks, i))
    ensures var v := ScanTasks(tasks, 0, need, size);
      v.Counted? ==>
        && (forall c :: c in v.children <==>
              exists t :: t in tasks && t.children.Children? && Pid(c) in t.children.pids)
        && (!need ==> v.kb == if size.Found? then size.kb else 0)
        && (need ==> exists i :: SizedAt(tasks, i) && v.kb == tasks[i].status.rss.n)
  {
    forall i ensures SizedAt(tasks, i) <==> FirstSized(tasks, 0, i) {
      SizedIsFirst(tasks, i);
    }
    forall t | t in tasks
      ensures ChildrenRead(t) <==> ChildrenOk(t)
      ensures ChildrenOk(t) ==> forall c :: c in ChildrenOf(t) <==> t.children.Children? && Pid(c) in t.children.pids
    {
      ChildrenReadIsOk(t);
    }
    hide ScanTasks, ChildrenRead, ChildrenOk, ChildrenOf, SizedAt;
    if ScanTasks(tasks, 0, need, size).Counted? {
      ScanBounded(tasks, 0, need, size);
      ScanCounted(tasks, 0, need, size);
      NamedBySome(tasks, ScanTasks(tasks, 0, need, size).children);
      if need {
        var i :| FirstSized(tasks, 0, i) && ScanTasks(tasks, 0, need, size).kb == SiblingOf(tasks[i]).kb;
        assert SizedAt(tasks, i) && SiblingOf(tasks[i]).kb == tasks[i].status.rss.n;
      }
    } else if |tasks| <= 4096 && (forall t | t in tasks :: ChildrenRead(t))
              && (need ==> exists i :: SizedAt(tasks, i)) {
      ScanSucceeds(tasks, 0, need, size);
      assert false;
    }
  }

  lemma NamedBySome(tasks: seq<Task>, children: seq<Process>)
    requires forall i | 0 <= i < |tasks| :: ChildrenOk(tasks[i])
    requires forall t, c | t in tasks && ChildrenOk(t) ::
               c in ChildrenOf(t) <==> t.children.Children? && Pid(c) in t.children.pids
    requires forall c :: c in children <==> exists i :: 0 <= i < |tasks| && c in ChildrenOf(tasks[i])
    ensures forall c :: c in children <==>
      exists t :: t in tasks && t.children.Children? && Pid(c) in t.children.pids
  {
    forall c
      ensures c in children <==> exists t :: t in tasks && t.children.Children? && Pid(c) in t.children.pids
    {
      if c in children {
        var i :| 0 <= i < |tasks| && c in ChildrenOf(tasks[i]);
        assert tasks[i] in tasks;
      }
      if t :| t in tasks && t.children.Children? && Pid(c) in t.children.pids {
        var i :| 0 <= i < |tasks| && tasks[i] == t;
        assert c in ChildrenOf(tasks[i]);
      }
    }
  }

  /** The process's own status and stat files allow it to be looked into. */
  predicate OwnFilesRead(p: Proc) {
    && p.status.Status?
    && (!p.status.dead ==> p.status.rss != MalformedRss && (p.status.rss == NoRss ==> p.stat == Stat(true)))
  }

  function OwnSize(p: Proc): Sibling
    requires p.status.Status?
  {
    if !p.status.dead && p.status.rss.Kb? then Found(p.status.rss.n) else Nothing
  }

  lemma VisitIsScan(s: Snapshot, p: Process)
    requires p in s && s[p].status.Status? && !Exempt(s[p])
    ensures OwnFilesRead(s[p]) ==> VisitOf(s, p) == VisitTasks(s[p], NeedsTask(s[p]), OwnSize(s[p]))
    ensures !OwnFilesRead(s[p]) ==> VisitOf(s, p).Rejected?
    ensures NeedsTask(s[p]) ==> OwnSize(s[p]) == Nothing
  {
    hide ScanTasks, VisitTasks;
  }

  lemma NoEmptyScan(tasks: seq<Task>, k: nat, need: bool, size: Sibling)
    requires k <= |tasks| && !size.Broken?
    ensures !ScanTasks(tasks, k, need, size).Absent? && !ScanTasks(tasks, k, need, size).Empty?
    decreases |tasks| - k
  {
  }

  lemma TasksOnFiles(p: Proc, need: bool, size: Sibling)
    requires p.status.Status? && need == NeedsTask(p) && size == OwnSize(p) && (need ==> size == Nothing)
    requires !Exempt(p) && OwnFilesRead(p)
    ensures var v := VisitTasks(p, need, size);
      && !v.Absent? && !v.Empty?
      && (v.Counted? <==> FilesRead(p))
      && (v.Counted? ==> v.kb == FileSize(p) && forall c :: c in v.children <==> Names(p, c))
  {
    if p.taskDir.Tasks? {
      var tasks := p.taskDir.tasks;
      ScanOnFiles(tasks, need, size);
      NoEmptyScan(tasks, 0, need, size);
      hide ScanTasks, ChildrenRead, SizedAt;
      if need && VisitTasks(p, need, size).Counted? {
        var i :| SizedAt(tasks, i) && VisitTasks(p, need, size).kb == tasks[i].status.rss.n;
        forall j | SizedAt(tasks, j) ensures j == i {
          SizedOnce(tasks, i, j);
        }
      }
    }
  }

  /** One visit on the files: absent iff there is no status, empty iff exempt, and otherwise counted iff
      every file it needs can be read, with the size and the children those files give. An exiting
      process without RSS is no exception: its children are followed. */
  lemma VisitOnFiles(s: Snapshot, p: Process)
    ensures VisitOf(s, p).Absent? <==> p !in s || s[p].status == StatusGone
    ensures VisitOf(s, p).Empty? <==> p in s && Exempt(s[p])
    ensures VisitOf(s, p).Counted? <==> p in s && !Exempt(s[p]) && FilesRead(s[p])
    ensures VisitOf(s, p).Counted? ==>
      VisitOf(s, p).kb == FileSize(s[p]) && forall c :: c in VisitOf(s, p).children <==> Names(s[p], c)
  {
    if p in s && s[p].status.Status? && !Exempt(s[p]) {
      VisitIsScan(s, p);
      if OwnFilesRead(s[p]) {
        TasksOnFiles(s[p], NeedsTask(s[p]), OwnSize(s[p]));
      }
      hide VisitOf, VisitTasks, FileSize, Names;
    }
  }

  // ----- The tree -----

  /** A process that is followed, and one its tasks' children files name. */
  ghost function FileEdge(s: Snapshot): (Process, Process) -> bool {
    (p: Process, c: Process) => p in s && s[p].status.Status? && !Exempt(s[p]) && Names(s[p], c)
  }

  /** The processes with a status entry that the children files lead to. */
  ghost function FileTree(s: Snapshot, root: Process): set<Process> {
    set p | p in s && s[p].status != StatusGone && Reaches(FileEdge(s), root, p)
  }

  /** Every file that any process of the tree needs can be read. */
  ghost predicate TreeFilesRead(s: Snapshot, root: Process) {
    forall p | p in FileTree(s, root) :: Exempt(s[p]) || FilesRead(s[p])
  }

  /** The sizes of a set of processes, each once. */
  ghost function FileTotal(s: Snapshot, ps: set<Process>): nat
    requires forall p | p in ps :: p in s
  {
    if ps == {} then 0 else
      var p :| p in ps;
      FileSize(s[p]) + FileTotal(s, ps - {p})
  }

  lemma {:induction false} FileTotalRemove(s: Snapshot, ps: set<Process>, p: Process)
    requires p in ps && forall q | q in ps :: q in s
    ensures FileTotal(s, ps) == FileSize(s[p]) + FileTotal(s, ps - {p})
    decreases |ps|
  {
    var q :| q in ps && FileTotal(s, ps) == FileSize(s[q]) + FileTotal(s, ps - {q});
    if q != p {
      FileTotalRemove(s, ps - {q}, p);
      FileTotalRemove(s, ps - {p}, q);
      assert ps - {q} - {p} == ps - {p} - {q};
    }
  }

  lemma {:induction false} TotalsAgree(s: Snapshot, ps: set<Process>)
    requires forall p | p in ps :: p in s && (Exempt(s[p]) || FilesRead(s[p]))
    ensures TotalKb(s, ps) == FileTotal(s, ps)
    decreases |ps|
  {
    if ps != {} {
      var p :| p in ps && TotalKb(s, ps) == SizeOf(VisitOf(s, p)) + TotalKb(s, ps - {p});
      VisitOnFiles(s, p);
      TotalsAgree(s, ps - {p});
      FileTotalRemove(s, ps, p);
      assert SizeOf(VisitOf(s, p)) == FileSize(s[p]);
      hide VisitOf, FilesRead, FileSize;
    }
  }

  lemma EdgeIsFileEdge(s: Snapshot, p: Process, c: Process)
    ensures IsChild(s, p, c) ==> FileEdge(s)(p, c)
    ensures FileEdge(s)(p, c) && FilesRead(s[p]) ==> IsChild(s, p, c)
  {
    VisitOnFiles(s, p);
    hide VisitOf, Names, Exempt;
  }

  /** What is reached over the visits is reached over the files. */
  lemma TreeInFiles(s: Snapshot, root: Process, p: Process)
    requires Reaches(ChildEdge(s), root, p)
    ensures Reaches(FileEdge(s), root, p)
    ensures VisitOf(s, p) != Absent ==> p in FileTree(s, root)
  {
    forall x, y ensures ChildEdge(s)(x, y) ==> FileEdge(s)(x, y) {
      EdgeIsFileEdge(s, x, y);
    }
    VisitOnFiles(s, p);
    ReachesMonotone(ChildEdge(s), FileEdge(s), root, p);
  }

  /** And conversely, provided that every process reached over the visits could be read. */
  lemma FilesInTree(s: Snapshot, root: Process, p: Process)
    requires TreeReadable(s, root) && Reaches(FileEdge(s), root, p)
    ensures Reaches(ChildEdge(s), root, p)
  {
    forall x, y | Reaches(ChildEdge(s), root, x) && FileEdge(s)(x, y) ensures Reaches(ChildEdge(s), root, y) {
      VisitOnFiles(s, x);
      assert InTree(s, root, x);
      EdgeIsFileEdge(s, x, y);
      ReachesExtend(ChildEdge(s), root, x, y);
      hide VisitOf, Names, FilesRead, Exempt;
    }
    ReachesSelf(ChildEdge(s), root);
    ReachesInduction(FileEdge(s), x => Reaches(ChildEdge(s), root, x), root, p);
  }

  lemma TreesAgree(s: Snapshot, root: Process)
    requires TreeReadable(s, root)
    ensures Tree(s, root) == FileTree(s, root) && TreeFilesRead(s, root)
  {
    hide FileEdge, ChildEdge, FilesRead, Exempt;
    forall p ensures p in Tree(s, root) <==> p in FileTree(s, root) {
      VisitOnFiles(s, p);
      if p in Tree(s, root) {
        TreeInFiles(s, root, p);
      }
      if p in FileTree(s, root) {
        FilesInTree(s, root, p);
      }
      hide VisitOf, Reaches;
    }
    forall p | p in FileTree(s, root) ensures Exempt(s[p]) || FilesRead(s[p]) {
      VisitOnFiles(s, p);
      assert p in Tree(s, root);
      hide VisitOf, Reaches;
    }
  }

  /** A tree whose files can all be read is readable. */
  lemma FilesMakeReadable(s: Snapshot, root: Process)
    requires TreeFilesRead(s, root)
    ensures TreeReadable(s, root)
  {
    hide FileEdge, ChildEdge, FilesRead, Exempt;
    forall p | InTree(s, root, p) ensures Readable(VisitOf(s, p)) {
      TreeInFiles(s, root, p);
      VisitOnFiles(s, p);
      hide VisitOf, Reaches;
    }
  }

  lemma ReadHasStatus(p: Proc)
    requires FilesRead(p)
    ensures p.status.Status?
  {
  }

  /** A sum, on the files: every file that any process of the tree needs was readable, everything that any
      task of a followed process names is in the summed set or has no status file, that set is small
      enough, and the sum is that of its sizes, each process once. */
  lemma SumOnFiles(s: Snapshot, root: Process, kb: nat)
    requires root.id > 0 && Says(s, root, Sum(kb))
    ensures TreeFilesRead(s, root)
    ensures forall p, c | p in FileTree(s, root) && !Exempt(s[p]) && Names(s[p], c) ::
      c in FileTree(s, root) || c !in s || s[c].status == StatusGone
    ensures |FileTree(s, root)| <= 4096
    ensures kb == FileTotal(s, FileTree(s, root))
  {
    hide VisitOf, FilesRead, Exempt, Names, FileSize;
    if VisitOf(s, root) == Absent {
      RootAbsent(s, root);
    }
    TreesAgree(s, root);
    var tree := FileTree(s, root);
    TotalsAgree(s, tree);
    forall p, c | p in tree && !Exempt(s[p]) && Names(s[p], c)
      ensures c in tree || c !in s || s[c].status == StatusGone
    {
      assert s[p].status.Status? by {
        ReadHasStatus(s[p]);
      }
      ReachesExtend(FileEdge(s), root, p, c);
    }
  }

  /** And every such tree gives its sum, when it is small enough. */
  lemma ReadFilesAreSummed(s: Snapshot, root: Process, r: Sample)
    requires root.id > 0 && Says(s, root, r) && TreeFilesRead(s, root)
    requires || |FileTree(s, root)| < 4096
             || (|FileTree(s, root)| == 4096
                 && forall p | Reaches(FileEdge(s), root, p) :: p in s && s[p].status != StatusGone)
    ensures r == Sum(FileTotal(s, FileTree(s, root)))
  {
    FilesMakeReadable(s, root);
    TreesAgree(s, root);
    TotalsAgree(s, FileTree(s, root));
    forall p | Reaches(ChildEdge(s), root, p)
      ensures Reaches(FileEdge(s), root, p) && (VisitOf(s, p) == Absent <==> p !in s || s[p].status == StatusGone)
    {
      TreeInFiles(s, root, p);
      VisitOnFiles(s, p);
    }
    hide VisitOf, FilesRead, Exempt, Names, FileSize, Reaches, FileTree, Says;
    assert FewEnough(s, root);
    ReadableTreeIsSummed(s, root, r);
  }

  // ----- What goes wrong -----

  /** A file of the process that cannot be read, or that does not hold what it must. */
  ghost predicate Fails(p: Proc) {
    || p.status == StatusError
    || (p.status.Status? && !p.status.dead && p.status.rss == MalformedRss)
    || (p.status.Status? && !p.status.dead && p.status.rss == NoRss && p.stat != StatGone && p.stat != Stat(true))
    || (p.status.Status? && !Exempt(p) && p.taskDir == TasksError)
    || (p.status.Status? && !Exempt(p) && p.taskDir.Tasks?
        && (|p.taskDir.tasks| > 4096
            || exists t :: t in p.taskDir.tasks
                 && (t.children == ChildrenError || (t.children.Children? && MalformedPid in t.children.pids))))
    || (NeedsTask(p) && !Exempt(p) && !(p.taskDir.Tasks? && exists i :: SizedAt(p.taskDir.tasks, i)))
  }

  lemma FailsIsUnread(p: Proc)
    requires p.status != StatusGone
    ensures Fails(p) <==> !Exempt(p) && !FilesRead(p)
  {
    hide SizedAt;
  }

  /** A failing file anywhere in the tree rules out a sum: an unreadable status, RSS line, stat file, task
      directory or children file, a malformed child, or a size that no task has. */
  lemma FailingFileRulesOutSum(s: Snapshot, root: Process, p: Process, r: Sample)
    requires root.id > 0 && Says(s, root, r)
    requires p in FileTree(s, root) && Fails(s[p])
    ensures !r.Sum?
  {
    FailsIsUnread(s[p]);
    hide Fails, FilesRead, Exempt, Says, FileTree, FileTotal;
    if r.Sum? {
      SumOnFiles(s, root, r.kb);
    }
  }

  /** What each reason blames a process for. */
  ghost predicate Blamed(p: Proc, reason: Reason) {
    match reason
    case StatusReadError => p.status == StatusError
    case MalformedStatusRss => p.status.Status? && !p.status.dead && p.status.rss == MalformedRss
    case ExitStateReadError => p.status.Status? && !p.status.dead && p.status.rss == NoRss && p.stat == StatError
    case LiveProcessMissingRss => p.status.Status? && !p.status.dead && p.status.rss == NoRss && p.stat == Stat(false)
    case TaskDirectoryReadError => p.taskDir == TasksError
    case TaskCountLimit => p.taskDir.Tasks? && |p.taskDir.tasks| > 4096
    case SiblingRssReadError =>
      NeedsTask(p) && p.taskDir.Tasks?
      && exists t :: t in p.taskDir.tasks
           && (t.status == StatusError || (t.status.Status? && t.status.rss == MalformedRss))
    case ChildrenReadError => p.taskDir.Tasks? && exists t :: t in p.taskDir.tasks && t.children == ChildrenError
    case MalformedChildPid =>
      p.taskDir.Tasks? && exists t :: t in p.taskDir.tasks && t.children.Children? && MalformedPid in t.children.pids
    case ProcessCountLimit => false
    case UnreadableAfterRetries => false
  }

  lemma {:induction false} ScanBlames(p: Proc, k: nat, need: bool, size: Sibling)
    requires p.taskDir.Tasks? && k <= |p.taskDir.tasks| && !size.Broken? && (need ==> NeedsTask(p))
    ensures var v := ScanTasks(p.taskDir.tasks, k, need, size);
      && (v.Rejected? ==> !Exempt(p) ==> Blamed(p, v.reason))
      && (v.Unready? ==> need && size.Nothing?
                         && forall i | k <= i < |p.taskDir.tasks| :: Sizeless(p.taskDir.tasks[i]))
    decreases |p.taskDir.tasks| - k
  {
    var tasks := p.taskDir.tasks;
    if k < |tasks| {
      var t := tasks[k];
      assert t in tasks;
      ChildrenReadIsOk(t);
      var looked := if need && size.Nothing? then SiblingOf(t) else size;
      if !looked.Broken? {
        ScanBlames(p, k + 1, need, looked);
      }
    }
  }

  lemma VisitBlames(s: Snapshot, p: Process)
    requires p in s
    ensures VisitOf(s, p).Rejected? ==> Blamed(s[p], VisitOf(s, p).reason)
    ensures VisitOf(s, p).Unready? ==>
      && NeedsTask(s[p])
      && (s[p].taskDir.TasksGone? || (s[p].taskDir.Tasks? && forall t | t in s[p].taskDir.tasks :: Sizeless(t)))
  {
    if s[p].status.Status? && !Exempt(s[p]) {
      VisitIsScan(s, p);
      if OwnFilesRead(s[p]) && s[p].taskDir.Tasks? {
        ScanBlames(s[p], 0, NeedsTask(s[p]), OwnSize(s[p]));
        hide ScanTasks, Sizeless, Blamed;
      }
    }
  }

  /** A failure names a file of the tree that is at fault, or the tree is too large; and nothing comes out
      yet only when some group's memory has no task left to show it. */
  lemma FailureOnFiles(s: Snapshot, root: Process, r: Sample)
    requires root.id > 0 && Says(s, root, r)
    ensures r.Failure? && r.reason != ProcessCountLimit ==>
      exists p :: p in FileTree(s, root) && Blamed(s[p], r.reason)
    ensures r == Failure(ProcessCountLimit) ==>
      || |FileTree(s, root)| > 4096
      || (|FileTree(s, root)| == 4096
          && exists p :: Reaches(FileEdge(s), root, p) && (p !in s || s[p].status == StatusGone))
    ensures r.NotReadable? ==>
      exists p :: p in FileTree(s, root) && NeedsTask(s[p])
        && (s[p].taskDir.TasksGone?
            || (s[p].taskDir.Tasks? && forall t | t in s[p].taskDir.tasks :: Sizeless(t)))
  {
    hide VisitOf, Blamed, NeedsTask, FileEdge, ChildEdge, Sizeless;
    if VisitOf(s, root) != Absent {
      if r == Failure(ProcessCountLimit) {
        TooLarge(s, root);
      } else if !r.Sum? {
        var p :| InTree(s, root, p) && (VisitOf(s, p) == Unready || VisitOf(s, p).Rejected?)
                 && (r.Failure? ==> VisitOf(s, p) == Rejected(r.reason))
                 && (r.NotReadable? ==> VisitOf(s, p) == Unready);
        TreeInFiles(s, root, p);
        VisitBlames(s, p);
      }
    }
  }

  lemma TooLarge(s: Snapshot, root: Process)
    requires !FewEnough(s, root)
    ensures || |FileTree(s, root)| > 4096
            || (|FileTree(s, root)| == 4096
                && exists p :: Reaches(FileEdge(s), root, p) && (p !in s || s[p].status == StatusGone))
  {
    hide VisitOf, FileEdge, ChildEdge;
    forall p | p in Tree(s, root) ensures p in FileTree(s, root) {
      TreeInFiles(s, root, p);
    }
    SubsetSize(Tree(s, root), FileTree(s, root));
    if p :| Reaches(ChildEdge(s), root, p) && VisitOf(s, p) == Absent {
      TreeInFiles(s, root, p);
      VisitOnFiles(s, p);
    }
  }
}
