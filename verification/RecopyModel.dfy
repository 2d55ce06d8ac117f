/** The guarded rollout of a template release: a smart update by an external tool, and the recopy that may follow it.
    The tool and the bootstrap script are taken to write anything; only the checks around them are relied on. */
module RecopyModel {
  import opened Results

  /** A path relative to the project, as in "docs/context". */
  type Path = string

  const Agents: Path := "AGENTS.md"
  const PlatformConfig: Path := ".dev-platform.toml"
  const IntakeContract: Path := "docs/engineering/task-intake.md"
  const BootstrapScript: Path := "scripts/platform_bootstrap.py"
  const ProductCi: Path := ".github/workflows/ci.yml"

  /** Whether `p` lies somewhere in the folder `q`. */
  predicate Below(p: Path, q: Path) {
    |q| < |p| && p[..|q|] == q && p[|q|] == '/'
  }

  /** What the tool leaves beside a file it could not merge. */
  predicate IsReject(p: Path) {
    |p| >= 4 && p[|p| - 4..] == ".rej"
  }

  /** What a fingerprint tells of a path. Digests are taken to be injective, so content stands for its digest, and all
      that is below a folder for that of the folder. A folder in a commit is only known to be there. */
  datatype Print = File(content: string) | Link(target: string) | Folder(below: map<Path, Print>) | Listed

  /** The files and links of a tree, and its empty folders. */
  type Tree = map<Path, Print>

  function Entry(x: Print): Print {
    if x.File? || x.Link? then x else Folder(map[])
  }

  function Inside(t: Tree, p: Path): map<Path, Print> {
    map q | q in t && Below(q, p) :: t[q]
  }

  /** `path_fingerprint`: of a folder, it tells everything below. */
  function At(t: Tree, p: Path): Option<Print> {
    if p in t then Some(Entry(t[p])) else if Inside(t, p) != map[] then Some(Folder(Inside(t, p))) else None
  }

  /** `git_tree_path_fingerprint` */
  function Committed(t: Tree, p: Path): Option<Print> {
    var x := At(t, p);
    if x.Some? && x.value.Folder? then Some(Listed) else x
  }

  datatype Harness = ProjectHarness | PlatformHarness | OtherHarness(name: string)

  /** The configuration without the platform version; `others` is every key that the rollout does not read. */
  datatype Config = Config(mode: Harness, managed: bool, required: set<Path>, operator: Option<string>, others: string)

  /** What a rollout meets: the commit, the template, its renders with the recorded answers, and how files are read. */
  datatype Setting = Setting(
    head: Tree,
    template: Tree,
    oldRender: Tree,
    newRender: Tree,
    parse: string -> Option<Config>,
    ignored: Tree -> set<string>,
    blockScalar: string -> bool,
    sheltered: set<Path>,
    alwaysOwned: set<Path>,
    harnessOwned: set<Path>,
    reclaimed: set<Path>,
    formatted: set<Path>,
    operatorIntegration: bool,
    operatorDefault: string,
    marker: string,
    tail: string)

  datatype Refusal = ConfigUnreadable | OwnedChanged | IgnoreLost | ContractMissing | AgentsMissing | BadMarker | NoBootstrap
                   | ConfigChanged | Unrecoverable(paths: set<Path>) | ReclaimedChanged | ProofChanged | StillRejected
                   | NotTarget | ModeChanged

  // ---- the blank-line normalisation of one generated workflow

  predicate IsByteSpace(c: char) {
    c == ' ' || '\t' <= c <= '\r'
  }

  predicate BlankLine(line: string) {
    forall k :: 0 <= k < |line| ==> IsByteSpace(line[k])
  }

  predicate IsBreak(c: char) {
    c == '\n' || c == '\r'
  }

  /** Position of the first line break. */
  function BreakAt(s: string): (n: nat)
    ensures n <= |s| && (n < |s| ==> IsBreak(s[n])) && forall k :: 0 <= k < n ==> !IsBreak(s[k])
  {
    if s == [] || IsBreak(s[0]) then 0 else 1 + BreakAt(s[1..])
  }

  /** `bytes.splitlines()` */
  function SplitLines(s: string): seq<string>
    decreases |s|
  {
    if s == [] then []
    else
      var n := BreakAt(s);
      if n == |s| then [s]
      else if s[n] == '\r' && n + 1 < |s| && s[n + 1] == '\n' then [s[..n]] + SplitLines(s[n + 2..])
      else [s[..n]] + SplitLines(s[n + 1..])
  }

  /** The lines without blank ones that follow a blank one. */
  function Squeezed(lines: seq<string>, previousBlank: bool): seq<string> {
    if lines == [] then []
    else if BlankLine(lines[0]) && previousBlank then Squeezed(lines[1..], true)
    else [lines[0]] + Squeezed(lines[1..], BlankLine(lines[0]))
  }

  function Joined(lines: seq<string>): string {
    if lines == [] then [] else if |lines| == 1 then lines[0] else lines[0] + ['\n'] + Joined(lines[1..])
  }

  function NormalContent(e: Setting, p: Path, content: string): string {
    if p !in e.formatted || e.blockScalar(content) then content
    else Joined(Squeezed(SplitLines(content), false)) + if content != [] && IsBreak(content[|content| - 1]) then ['\n'] else []
  }

  function NormalPrint(e: Setting, p: Path, x: Option<Print>): Option<Print> {
    if x.Some? && x.value.File? then Some(File(NormalContent(e, p, x.value.content))) else x
  }

  // ---- ownership

  function ContentOf(x: Option<Print>): Option<string> {
    if x.Some? && x.value.File? then Some(x.value.content) else None
  }

  /** The configuration, read from its file. */
  function ConfigOf(e: Setting, t: Tree): Option<Config> {
    match ContentOf(At(t, PlatformConfig)) case None => None case Some(text) => e.parse(text)
  }

  function OwnedPaths(e: Setting, c: Config): set<Path> {
    e.alwaysOwned + (if c.mode.ProjectHarness? then e.harnessOwned else {}) + c.required + {ProductCi}
  }

  /** Prints of the owned paths that are there. */
  function Snapshot(e: Setting, t: Tree, c: Config): map<Path, Print> {
    map p | p in OwnedPaths(e, c) && At(t, p).Some? :: At(t, p).value
  }

  predicate Kept(snapshot: map<Path, Print>, t: Tree, permitted: map<Path, Print>) {
    forall p :: p in snapshot ==> At(t, p) == Some(snapshot[p]) || (p in permitted && At(t, p) == Some(permitted[p]))
  }

  function Rejects(e: Setting, t: Tree): set<Path> {
    set p | p in t && IsReject(p) && p !in e.sheltered
  }

  function ConflictTargets(e: Setting, t: Tree): set<Path> {
    set p | p in Rejects(e, t) :: p[..|p| - 4]
  }

  predicate MatchesTemplate(e: Setting, t: Tree, p: Path) {
    p in e.reclaimed && At(t, p).Some? && At(t, p) == At(e.template, p)
  }

  /** Paths whose committed content is the old render, up to normalisation. */
  function BaselineProven(e: Setting, paths: set<Path>): set<Path> {
    set p | p in paths && NormalPrint(e, p, Committed(e.head, p)) == NormalPrint(e, p, At(e.oldRender, p))
  }

  /** Paths whose committed file is the target render already. */
  function TargetProven(e: Setting, paths: set<Path>): set<Path> {
    set p | p in paths && At(e.head, p).Some? && At(e.head, p).value.File? && At(e.head, p) == At(e.newRender, p)
  }

  // ---- the one addition to AGENTS.md

  predicate Occurs(text: string, word: string, i: nat) {
    i + |word| <= |text| && text[i..i + |word|] == word
  }

  /** `str.count` of a word that cannot overlap itself. */
  function CountFrom(text: string, word: string, i: nat): nat
    requires i <= |text| && word != []
    decreases |text| - i
  {
    if i == |text| then 0
    else if Occurs(text, word, i) then 1 + CountFrom(text, word, i + |word|)
    else CountFrom(text, word, i + 1)
  }

  /** `str.index` */
  function IndexFrom(text: string, word: string, i: nat): (r: Option<nat>)
    requires i <= |text|
    ensures r.Some? ==> i <= r.value <= |text|
    decreases |text| - i
  {
    if Occurs(text, word, i) then Some(i) else if i == |text| then None else IndexFrom(text, word, i + 1)
  }

  function TrimNewlines(s: string): (r: string)
    ensures r <= s
  {
    if s != [] && s[|s| - 1] == '\n' then TrimNewlines(s[..|s| - 1]) else s
  }

  function Block(e: Setting): string {
    ['\n', '\n'] + e.marker + e.tail
  }

  function Canonical(e: Setting, text: string): Option<string>
    requires e.marker != []
  {
    var n := CountFrom(text, e.marker, 0);
    if n == 0 then Some(TrimNewlines(text) + Block(e))
    else if n != 1 then None
    else
      match IndexFrom(text, e.marker, 0)
      case None => None
      case Some(i) => if text == TrimNewlines(text[..i]) + Block(e) then Some(text) else None
  }

  function Reconciled(e: Setting, t: Tree): Result<Tree, Refusal>
    requires e.marker != []
  {
    match ConfigOf(e, t)
    case None => Err(ConfigUnreadable)
    case Some(c) =>
      if !c.managed then Ok(t)
      else if ContentOf(At(t, IntakeContract)).None? then Err(ContractMissing)
      else if ContentOf(At(t, Agents)).None? then Err(AgentsMissing)
      else
        match Canonical(e, ContentOf(At(t, Agents)).value)
        case None => Err(BadMarker)
        case Some(text) => Ok(t[Agents := File(text)])
  }

  /** The prints that AGENTS.md may have afterwards, besides its own. */
  function Permitted(e: Setting, t: Tree, agentsBefore: Option<string>): Result<map<Path, Print>, Refusal>
    requires e.marker != []
  {
    if agentsBefore.None? then Ok(map[])
    else
      match ConfigOf(e, t)
      case None => Err(ConfigUnreadable)
      case Some(c) =>
        if !c.managed then Ok(map[])
        else
          match Canonical(e, agentsBefore.value)
          case None => Err(BadMarker)
          case Some(text) => Ok(map[Agents := File(text)])
  }

  // ---- the run

  /** What the external programs leave in the working tree. */
  datatype External = External(updated: Tree, reset: Tree, recopied: Tree, bootstrapped: Tree)

  datatype Strategy = Updated | Recopied

  predicate ContractKept(e: Setting, before: Config, after: Config) {
    || after == before
    || (e.operatorIntegration && before.operator.None? && after == before.(operator := Some(e.operatorDefault)))
  }

  /** After the tool is done without rejects: check, reconcile, bootstrap, check again. */
  function Settled(e: Setting, before: Tree, c: Config, t: Tree, bootstrapped: Tree): Result<Tree, Refusal>
    requires e.marker != []
  {
    if !Kept(Snapshot(e, before, c), t, map[]) then Err(OwnedChanged)
    else if !(e.ignored(before) <= e.ignored(t)) then Err(IgnoreLost)
    else
      match Reconciled(e, t)
      case Err(r) => Err(r)
      case Ok(t') =>
        if ContentOf(At(t', BootstrapScript)).None? then Err(NoBootstrap)
        else
          match Permitted(e, bootstrapped, ContentOf(At(before, Agents)))
          case Err(r) => Err(r)
          case Ok(permitted) =>
            if Kept(Snapshot(e, before, c), bootstrapped, permitted) then Ok(bootstrapped) else Err(OwnedChanged)
  }

  function ConfigCheck(e: Setting, c: Config, t: Tree): Result<Config, Refusal> {
    match ConfigOf(e, t)
    case None => Err(ConfigUnreadable)
    case Some(after) => if ContractKept(e, c, after) then Ok(after) else Err(ConfigChanged)
  }

  /** How the conflicts of a failed update are told apart. */
  datatype Sorting = Sorting(owned: set<Path>, reclaimed: set<Path>, baseline: set<Path>, target: set<Path>, rest: set<Path>)

  /** `now` is the configuration in the tree that the failed update left, `before` the tree it started from. */
  function Sorted(e: Setting, before: Tree, c: Config, now: Config, conflicts: set<Path>): Sorting {
    var owned := if c.mode.ProjectHarness? then OwnedPaths(e, now) else {};
    var reclaimed := set p | p in conflicts && MatchesTemplate(e, before, p);
    var baseline := if c.mode.PlatformHarness? then BaselineProven(e, conflicts - reclaimed) else {};
    var target := if c.mode.PlatformHarness? then TargetProven(e, conflicts - reclaimed - baseline) else {};
    Sorting(owned, reclaimed, baseline, target, conflicts - owned - reclaimed - baseline - target)
  }

  /** The last checks of a recopy. */
  function Confirmed(e: Setting, c: Config, s: Sorting, t: Tree): Result<(Strategy, Tree), Refusal> {
    if exists p :: p in s.reclaimed && !MatchesTemplate(e, t, p) then Err(ReclaimedChanged)
    else if exists p :: p in s.baseline + s.target && At(t, p) != At(e.newRender, p) then Err(NotTarget)
    else
      match ConfigCheck(e, c, t)
      case Err(r) => Err(r)
      case Ok(after) => if after.mode != c.mode then Err(ModeChanged) else Ok((Recopied, t))
  }

  function AfterRecopy(e: Setting, before: Tree, c: Config, s: Sorting, x: External): Result<(Strategy, Tree), Refusal>
    requires e.marker != []
  {
    if Rejects(e, x.recopied) != {} then Err(StillRejected)
    else
      match Settled(e, before, c, x.recopied, x.bootstrapped)
      case Err(r) => Err(r)
      case Ok(t) => Confirmed(e, c, s, t)
  }

  /** After an update without rejects. */
  function AfterUpdate(e: Setting, before: Tree, c: Config, x: External): Result<(Strategy, Tree), Refusal>
    requires e.marker != []
  {
    match Settled(e, before, c, x.updated, x.bootstrapped)
    case Err(r) => Err(r)
    case Ok(t) =>
      match ConfigCheck(e, c, t)
      case Err(r) => Err(r)
      case Ok(_) => Ok((Updated, t))
  }

  /** After an update with rejects, its conflicts told apart. */
  function AfterRejects(e: Setting, before: Tree, c: Config, s: Sorting, x: External): Result<(Strategy, Tree), Refusal>
    requires e.marker != []
  {
    if s.rest != {} then Err(Unrecoverable(s.rest))
    else if !Kept(Snapshot(e, before, c), x.reset, map[]) then Err(OwnedChanged)
    else if exists p :: p in s.reclaimed && !MatchesTemplate(e, x.reset, p) then Err(ReclaimedChanged)
    else if BaselineProven(e, s.baseline) != s.baseline || TargetProven(e, s.target) != s.target then Err(ProofChanged)
    else AfterRecopy(e, before, c, s, x)
  }

  /** The whole of `copier_update_with_guarded_recopy`. */
  function Rollout(e: Setting, before: Tree, x: External): Result<(Strategy, Tree), Refusal>
    requires e.marker != []
  {
    match ConfigOf(e, before)
    case None => Err(ConfigUnreadable)
    case Some(c) =>
      if Rejects(e, x.updated) == {} then AfterUpdate(e, before, c, x)
      else
        match ConfigOf(e, x.updated)
        case None => Err(ConfigUnreadable)
        case Some(now) => AfterRejects(e, before, c, Sorted(e, before, c, now, ConflictTargets(e, x.updated)), x)
  }
}
