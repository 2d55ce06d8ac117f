/** The multi-agent scope board as a protocol: its entries, what the repository shows of them, and every
    command as one atomic step. `Board.dfy` implements the commands over mutable entries. */
module ScopeBoard {
  import opened Results
  import opened Ordering
  import opened CommitGraph

  const MAX_ADMISSION_DIAGNOSTICS := 5
  const MAX_ACKNOWLEDGED_PATHS := 20
  const DEFAULT_STALE_HOURS := 72

  type Path = string

  datatype Acknowledgment = Acknowledgment(withId: string, withTask: string, paths: set<Path>, reason: string, at: int)

  datatype Conflict = Conflict(id: string, task: string, path: Path)

  datatype Admission = Undecided | Wait(conflicts: seq<Conflict>, waitAt: int) | Run(runAt: int)

  /** One entry of the board file. `baseHead` is the branch head at registration. */
  datatype Item = Item(id: string, task: string, scope: string, branch: string, worktree: string,
                       baseHead: Option<Commit>, heartbeat: int, claims: seq<Path>,
                       acks: seq<Acknowledgment>, admission: Admission)

  // ---- the world a command observes

  datatype Problem = WorktreeMissing | BranchPathMismatch | BranchMissing | StaleHeartbeat | Merged(kind: MergeProblem)

  /** Facts a command reads outside the board. Hours are whole numbers; a `None` is an unobserved
      origin/main or an unreadable task diff, which stops the command. `status` lists the problems of an
      entry under a staleness limit; `RepositoryStatus.dfy` computes it, the protocol works for any. */
  datatype World = World(
    now: int,
    root: string,
    branches: map<string, Commit>,
    checkedOut: map<string, Option<string>>,
    registered: set<string>,
    clean: set<string>,
    status: (Item, int) -> seq<Problem>,
    concrete: string -> set<Path>,
    factual: string -> Option<set<Path>>,
    generated: Option<set<Path>>)

  datatype Failure = ScopeGateUnavailable | BadIdentity | AlreadyRegistered | UnknownEntry | UnknownOther
                   | OtherNotActive | EmptyReason | NoPath | TooManyPaths | NotConflicting | DiagnosticsFailed

  // ---- eligibility

  datatype Eligibility = ValidActive | Terminal | Degraded

  function EligibilityOf(problems: seq<Problem>): Eligibility {
    if Merged(MergedBranch) in problems || Merged(MergedPr) in problems then Terminal
    else if problems == [] then ValidActive
    else Degraded
  }

  predicate Active(w: World, e: Item) {
    EligibilityOf(w.status(e, DEFAULT_STALE_HOURS)) == ValidActive
  }

  predicate SafeToRemove(w: World, e: Item, staleHours: int) {
    var problems := w.status(e, staleHours);
    || WorktreeMissing in problems
    || ((Merged(MergedBranch) in problems || Merged(MergedPr) in problems)
        && (e.worktree == "" || (e.worktree in w.checkedOut && e.worktree in w.clean)))
  }

  // ---- claims and conflicts

  function ToSet(q: seq<Path>): (s: set<Path>)
    ensures forall p :: p in s <==> p in q
  {
    set p | p in q
  }

  function FactualPaths(w: World, e: Item): Option<set<Path>> {
    if e.worktree == "" then Some({}) else w.factual(e.worktree)
  }

  /** What an entry asks to claim: its concrete declared paths and the files it really changed. */
  function Candidates(w: World, e: Item): Option<set<Path>> {
    match FactualPaths(w, e)
    case None => None
    case Some(files) => Some(w.concrete(e.scope) + files)
  }

  /** What an entry owns against others: its stored claims and the files it really changed. */
  function Owned(w: World, e: Item): Option<set<Path>> {
    match FactualPaths(w, e)
    case None => None
    case Some(files) => Some(ToSet(e.claims) + files)
  }

  predicate Acknowledged(e: Item, otherId: string, p: Path) {
    exists k :: 0 <= k < |e.acks| && e.acks[k].withId == otherId && p in e.acks[k].paths
  }

  /** How another entry enters the scan of `current`. Passed over: same worktree, same branch, or no proof of an active owner. */
  datatype Rival = Ignored | Unreadable | Owner(paths: set<Path>)

  function RivalOf(w: World, current: Item, other: Item): Rival {
    if other.worktree == current.worktree || other.branch == current.branch || !Active(w, other) then Ignored
    else
      match Owned(w, other)
      case None => Unreadable
      case Some(paths) => Owner(paths)
  }

  function Rivals(w: World, items: seq<Item>, i: nat): (r: seq<Rival>)
    requires i < |items|
    ensures |r| == |items|
  {
    seq(|items|, k requires 0 <= k < |items| => if k == i then Ignored else RivalOf(w, items[i], items[k]))
  }

  function Report(found: seq<Conflict>, c: Conflict): seq<Conflict> {
    if c in found then found else found + [c]
  }

  function ScanPaths(current: Item, other: Item, paths: seq<Path>, found: seq<Conflict>): seq<Conflict>
    decreases |paths|
  {
    if paths == [] || |found| >= MAX_ADMISSION_DIAGNOSTICS then found
    else if Acknowledged(current, other.id, paths[0]) then ScanPaths(current, other, paths[1..], found)
    else ScanPaths(current, other, paths[1..], Report(found, Conflict(other.id, other.task, paths[0])))
  }

  function ScanItems(current: Item, items: seq<Item>, rivals: seq<Rival>, claims: set<Path>, j: nat, found: seq<Conflict>): Result<seq<Conflict>, Failure>
    requires |rivals| == |items| && j <= |items|
    decreases |items| - j
  {
    if j == |items| || |found| >= MAX_ADMISSION_DIAGNOSTICS then Ok(found)
    else
      match rivals[j]
      case Ignored => ScanItems(current, items, rivals, claims, j + 1, found)
      case Unreadable => Err(ScopeGateUnavailable)
      case Owner(paths) =>
        ScanItems(current, items, rivals, claims, j + 1, ScanPaths(current, items[j], Sorted(claims * paths), found))
  }

  /** The hard conflicts of entry `i`, cut off at the diagnostic limit. */
  function Conflicts(w: World, items: seq<Item>, i: nat): Result<seq<Conflict>, Failure>
    requires i < |items|
  {
    match Candidates(w, items[i])
    case None => Err(ScopeGateUnavailable)
    case Some(claims) =>
      if claims == {} then Ok([])
      else if w.generated.None? then Err(ScopeGateUnavailable)
      else ScanItems(items[i], items, Rivals(w, items, i), claims - w.generated.value, 0, [])
  }

  // ---- commands

  datatype Command =
    | Start(id: string, task: string, scope: string, branch: string, worktree: string, diagnosticsFail: bool)
    | Update(id: string, newTask: Option<string>, newScope: Option<string>)
    | Admit(worktree: string, branch: string, newScope: Option<string>)
    | Acknowledge(worktree: string, branch: string, withId: string, paths: set<Path>, reason: string)
    | Finish(id: string)
    | DoctorFix(staleHours: int)

  predicate ValidIdentity(w: World, worktree: string, branch: string) {
    && worktree != w.root
    && worktree in w.checkedOut
    && worktree in w.registered
    && w.checkedOut[worktree] == Some(branch)
    && branch in w.branches
  }

  predicate Taken(items: seq<Item>, worktree: string, branch: string) {
    exists k :: 0 <= k < |items| && (items[k].worktree == worktree || items[k].branch == branch)
  }

  /** The first entry at or after `k` of exactly this worktree and branch. */
  function Find(items: seq<Item>, worktree: string, branch: string, k: nat := 0): (r: Option<nat>)
    requires k <= |items|
    ensures r.Some? ==> k <= r.value < |items| && items[r.value].worktree == worktree && items[r.value].branch == branch
    decreases |items| - k
  {
    if k == |items| then None
    else if items[k].worktree == worktree && items[k].branch == branch then Some(k)
    else Find(items, worktree, branch, k + 1)
  }

  /** The first entry at or after `k` with this id, entry `except` not considered. */
  function FindId(items: seq<Item>, id: string, except: int, k: nat := 0): (r: Option<nat>)
    requires k <= |items|
    ensures r.Some? ==> k <= r.value < |items| && items[r.value].id == id && r.value != except
    decreases |items| - k
  {
    if k == |items| then None
    else if items[k].id == id && k != except then Some(k)
    else FindId(items, id, except, k + 1)
  }

  function Keep(items: seq<Item>, dropped: set<string>): seq<Item> {
    if items == [] then []
    else if items[0].id in dropped then Keep(items[1..], dropped)
    else [items[0]] + Keep(items[1..], dropped)
  }

  function Removable(w: World, items: seq<Item>, staleHours: int): (ids: set<string>) {
    set e | e in items && SafeToRemove(w, e, staleHours) :: e.id
  }

  function Touched(w: World, e: Item, scope: Option<string>): Item {
    e.(scope := if scope.Some? then scope.value else e.scope, heartbeat := w.now)
  }

  function Decided(w: World, items: seq<Item>, i: nat): Result<seq<Item>, Failure>
    requires i < |items|
  {
    match Conflicts(w, items, i)
    case Err(f) => Err(f)
    case Ok(conflicts) =>
      if conflicts != [] then Ok(items[i := items[i].(admission := Wait(conflicts, w.now))])
      else Ok(items[i := items[i].(claims := Sorted(Candidates(w, items[i]).value), admission := Run(w.now))])
  }

  function Registering(w: World, items: seq<Item>, id: string, task: string, scope: string, branch: string, worktree: string,
                       diagnosticsFail: bool): Result<seq<Item>, Failure>
  {
    if !ValidIdentity(w, worktree, branch) then Err(BadIdentity)
    else if Taken(items, worktree, branch) then Err(AlreadyRegistered)
    else if diagnosticsFail then Err(DiagnosticsFailed)
    else Ok(items + [Item(id, task, scope, branch, worktree, Some(w.branches[branch]), w.now, [], [], Undecided)])
  }

  function Updating(w: World, items: seq<Item>, id: string, newTask: Option<string>, newScope: Option<string>): Result<seq<Item>, Failure> {
    match FindId(items, id, -1)
    case None => Err(UnknownEntry)
    case Some(i) =>
      Ok(items[i := Touched(w, items[i], newScope).(task := if newTask.Some? then newTask.value else items[i].task)])
  }

  function Admitting(w: World, items: seq<Item>, worktree: string, branch: string, newScope: Option<string>): Result<seq<Item>, Failure> {
    if !ValidIdentity(w, worktree, branch) then Err(BadIdentity)
    else
      match Find(items, worktree, branch)
      case None => Err(UnknownEntry)
      case Some(i) => Decided(w, items[i := Touched(w, items[i], newScope)], i)
  }

  function Acknowledging(w: World, items: seq<Item>, i: nat, withId: string, paths: set<Path>, reason: string): Result<seq<Item>, Failure>
    requires i < |items|
  {
    match FindId(items, withId, i)
    case None => Err(UnknownOther)
    case Some(o) =>
      if !Active(w, items[o]) then Err(OtherNotActive)
      else if Candidates(w, items[i]).None? || Owned(w, items[o]).None? then Err(ScopeGateUnavailable)
      else if !(paths <= Candidates(w, items[i]).value * Owned(w, items[o]).value) then Err(NotConflicting)
      else Ok(items[i := items[i].(acks := items[i].acks + [Acknowledgment(items[o].id, items[o].task, paths, reason, w.now)])])
  }

  function AcknowledgingAt(w: World, items: seq<Item>, worktree: string, branch: string, withId: string, paths: set<Path>,
                           reason: string): Result<seq<Item>, Failure>
  {
    if !ValidIdentity(w, worktree, branch) then Err(BadIdentity)
    else if reason == "" then Err(EmptyReason)
    else if paths == {} then Err(NoPath)
    else if |paths| > MAX_ACKNOWLEDGED_PATHS then Err(TooManyPaths)
    else
      match Find(items, worktree, branch)
      case None => Err(UnknownEntry)
      case Some(i) => Acknowledging(w, items, i, withId, paths, reason)
  }

  /** One command against the board file; an error leaves the file as it was. */
  function Apply(w: World, c: Command, items: seq<Item>): Result<seq<Item>, Failure> {
    match c
    case Start(id, task, scope, branch, worktree, diagnosticsFail) =>
      Registering(w, items, id, task, scope, branch, worktree, diagnosticsFail)
    case Update(id, newTask, newScope) => Updating(w, items, id, newTask, newScope)
    case Admit(worktree, branch, newScope) => Admitting(w, items, worktree, branch, newScope)
    case Acknowledge(worktree, branch, withId, paths, reason) =>
      AcknowledgingAt(w, items, worktree, branch, withId, paths, reason)
    case Finish(id) => Ok(Keep(items, {id}))
    case DoctorFix(staleHours) => Ok(Keep(items, Removable(w, items, staleHours)))
  }

  function After(w: World, c: Command, items: seq<Item>): seq<Item> {
    var r := Apply(w, c, items);
    if r.Ok? then r.value else items
  }
}
