/**
 `mark_branch` as a protocol: it archives `branch` as `stranded/branch` on the remote with one leased,
 atomic push, while other writers may change anything between its commands.

 A push has two halves.  The client looks at the refs the server advertises, checks its leases against
 them and decides on the ref updates; the server then applies all of them or none, each only if its
 ref still has the value the client saw.  `skipsUpToDate` says whether the client leaves an update out,
 lease and all, when the advertised ref already has the wanted value.
 */
module BranchArchive {
  import opened Options
  import opened TicketMatch
  import opened TicketCheck

  type Sha = string
  type Refs = map<string, Sha>

  datatype World = World(remote: Refs, prs: seq<PullRequest>, trees: seq<Tree>, markers: map<string, Marker>,
                         locals: seq<string>, defaultBranch: string)

  datatype Pc =
    | Start | Pr1 | Trees1 | List | Fetch | Pr2 | Trees2 | Negotiate
    | Commit(create: bool)             // the updates sent: delete the branch and, unless left out, create the archive
    | Verify | FetchArchive | Locals | Trees3 | Rename | Done | Failed

  /** One run of `mark_branch` (its `branch` without a leading `stranded/`), with what it last saw in each listing. */
  datatype Agent = Agent(ticket: Ticket, branch: string, pc: Pc, original: Sha, prsSeen: seq<PullRequest>,
                         remoteSeen: Refs, treesSeen: seq<Tree>, markersSeen: map<string, Marker>,
                         localsSeen: seq<string>)

  function ArchiveOf(branch: string): (archive: string)
    ensures archive != branch
  {
    STRANDED + branch
  }

  /** The argument may name the branch or its archive. */
  function Launch(ticket: Ticket, argument: string): Agent {
    Agent(ticket, if IsStranded(argument) then argument[9..] else argument, Start, "", [], map[], [], map[], [])
  }

  function Get(refs: Refs, name: string): Option<Sha> { if name in refs then Some(refs[name]) else None }

  /** `no_pr` */
  predicate NoPr(prs: seq<PullRequest>, branch: string) {
    forall k :: 0 <= k < |prs| ==> prs[k].head != branch
  }

  /** `checked_out_trees`: every worktree on the branch bears this ticket's marker. */
  predicate TreesMarked(trees: seq<Tree>, markers: map<string, Marker>, branch: string, ticket: Ticket) {
    forall k :: 0 <= k < |trees| && trees[k].branch == branch ==> MarkerAt(markers, trees[k].path) == Names(ticket)
  }

  predicate CheckedOut(trees: seq<Tree>, branch: string) {
    exists k :: 0 <= k < |trees| && trees[k].branch == branch
  }

  // ----- the push -----

  datatype Plan = Rejected | Send(create: bool)

  /** The client's half, from the advertised refs: both leases, and which updates to send. */
  function Negotiated(advertised: Refs, branch: string, original: Sha, skipsUpToDate: bool): Plan {
    if Get(advertised, branch) != Some(original) then Rejected
    else if skipsUpToDate && Get(advertised, ArchiveOf(branch)) == Some(original) then Send(false)
    else if ArchiveOf(branch) in advertised then Rejected
    else Send(true)
  }

  /** The server's half: all updates or none. */
  function ServerApply(refs: Refs, branch: string, original: Sha, create: bool): Refs {
    if Get(refs, branch) != Some(original) || (create && ArchiveOf(branch) in refs) then refs
    else (if create then refs[ArchiveOf(branch) := original] else refs) - {branch}
  }

  predicate Applied(refs: Refs, branch: string, original: Sha, create: bool) {
    Get(refs, branch) == Some(original) && !(create && ArchiveOf(branch) in refs)
  }

  // ----- the steps of mark_branch -----

  function Go(a: Agent, ok: bool, pc: Pc): Agent { a.(pc := if ok then pc else Failed) }

  /** How far `mark_branch` still has to go. */
  function Rank(pc: Pc): nat {
    match pc
    case Start => 14 case Pr1 => 13 case Trees1 => 12 case List => 11 case Fetch => 10 case Pr2 => 9 case Trees2 => 8
    case Negotiate => 7 case Commit(_) => 6 case Verify => 5 case FetchArchive => 4 case Locals => 3 case Trees3 => 2
    case Rename => 1 case Done => 0 case Failed => 0
  }

  /** The agent's next command, run against the world as it is now. */
  function Move(w: World, a: Agent, skips: bool): (r: (World, Agent))
    ensures r.1.ticket == a.ticket && r.1.branch == a.branch
    ensures !a.pc.Done? && !a.pc.Failed? ==> Rank(r.1.pc) < Rank(a.pc)
  {
    match a.pc
    case Start => (w, Go(a, Matches(a.branch, a.ticket) && a.branch != w.defaultBranch, Pr1))
    case Pr1 => (w, Go(a.(prsSeen := w.prs), NoPr(w.prs, a.branch), Trees1))
    case Trees1 => (w, Go(a, TreesMarked(w.trees, w.markers, a.branch, a.ticket), List))
    case List =>
      var seen := a.(remoteSeen := w.remote);
      if a.branch in w.remote then
        (w, Go(seen.(original := w.remote[a.branch]), ArchiveOf(a.branch) !in w.remote, Fetch))
      else (w, Go(seen, ArchiveOf(a.branch) in w.remote, FetchArchive))
    case Fetch => (w, Go(a, Get(w.remote, a.branch) == Some(a.original), Pr2))
    case Pr2 => (w, Go(a.(prsSeen := w.prs), NoPr(w.prs, a.branch), Trees2))
    case Trees2 => (w, Go(a, TreesMarked(w.trees, w.markers, a.branch, a.ticket), Negotiate))
    case Negotiate =>
      var plan := Negotiated(w.remote, a.branch, a.original, skips);
      (w, if plan.Send? then a.(pc := Commit(plan.create)) else a.(pc := Failed))
    case Commit(create) =>
      (w.(remote := ServerApply(w.remote, a.branch, a.original, create)),
        Go(a, Applied(w.remote, a.branch, a.original, create), Verify))
    case Verify =>
      var moved := Get(w.remote, ArchiveOf(a.branch)) == Some(a.original) && a.branch !in w.remote;
      (w, Go(a.(remoteSeen := w.remote), moved, Locals))
    case FetchArchive => (w, Go(a, ArchiveOf(a.branch) in w.remote, Locals))
    case Locals => (w, a.(localsSeen := w.locals, pc := Trees3))
    case Trees3 =>
      (w, Go(a.(treesSeen := w.trees, markersSeen := w.markers),
        TreesMarked(w.trees, w.markers, a.branch, a.ticket), Rename))
    case Rename =>
      if a.branch in a.localsSeen && !CheckedOut(a.treesSeen, a.branch) then
        if ArchiveOf(a.branch) in a.localsSeen || a.branch !in w.locals || ArchiveOf(a.branch) in w.locals then
          (w, a.(pc := Failed))
        else (w.(locals := Renamed(w.locals, a.branch)), a.(pc := Done, localsSeen := Renamed(a.localsSeen, a.branch)))
      else (w, a.(pc := Done))
    case Done => (w, a)
    case Failed => (w, a)
  }

  /** `git branch -m branch stranded/branch` */
  function Renamed(locals: seq<string>, branch: string): seq<string> {
    seq(|locals|, i requires 0 <= i < |locals| => if locals[i] == branch then ArchiveOf(branch) else locals[i])
  }

  // ----- runs -----

  datatype State = State(world: World, agents: seq<Agent>)

  datatype Step =
    | Other(world: World)              // any other writers: the world becomes anything
    | Moves(k: nat)                    // the next command of one run of `mark_branch`
    | CommandFails(k: nat)             // a command fails before it has any effect
    | ReplyLost(k: nat)                // the push takes effect but its answer is lost

  predicate Enabled(s: State, step: Step) {
    match step
    case Other(_) => true
    case Moves(k) => k < |s.agents|
    case CommandFails(k) => k < |s.agents|
    case ReplyLost(k) => k < |s.agents| && s.agents[k].pc.Commit?
  }

  function Apply(s: State, step: Step, skips: bool): State
    requires Enabled(s, step)
  {
    match step
    case Other(world) => s.(world := world)
    case Moves(k) => var (w, a) := Move(s.world, s.agents[k], skips); State(w, s.agents[k := a])
    case CommandFails(k) => s.(agents := s.agents[k := s.agents[k].(pc := Failed)])
    case ReplyLost(k) => var (w, a) := Move(s.world, s.agents[k], skips); State(w, s.agents[k := a.(pc := Failed)])
  }

  ghost predicate IsRun(s: State, steps: seq<Step>, skips: bool)
    decreases |steps|
  {
    steps == [] || (Enabled(s, steps[0]) && IsRun(Apply(s, steps[0], skips), steps[1..], skips))
  }

  ghost function After(s: State, steps: seq<Step>, skips: bool): State
    requires IsRun(s, steps, skips)
    decreases |steps|
  {
    if steps == [] then s else After(Apply(s, steps[0], skips), steps[1..], skips)
  }

  ghost predicate AllStarting(s: State) {
    forall k :: 0 <= k < |s.agents| ==> s.agents[k].pc.Start? && IsTicket(s.agents[k].ticket)
  }

  // ----- what every step of mark_branch keeps -----

  /** The branch's commit, if it has one, is named by the branch or by its archive. */
  predicate StillNamed(before: Refs, after: Refs, branch: string) {
    branch in before ==>
      Get(after, branch) == Some(before[branch]) || Get(after, ArchiveOf(branch)) == Some(before[branch])
  }

  predicate ArchiveKept(before: Refs, after: Refs, branch: string) {
    ArchiveOf(branch) in before ==> Get(after, ArchiveOf(branch)) == Get(before, ArchiveOf(branch))
  }

  predicate NoThirdRef(before: Refs, after: Refs, branch: string) {
    forall name :: name in before.Keys + after.Keys && name != branch && name != ArchiveOf(branch) ==>
      Get(after, name) == Get(before, name)
  }

  /** Both leases hold on the server at the moment of the push. */
  predicate LeasesHold(refs: Refs, branch: string, original: Sha) {
    Get(refs, branch) == Some(original) && ArchiveOf(branch) !in refs
  }

  /** The world changes only through the push and the local rename, and the push does what its plan says. */
  lemma MoveTouches(w: World, a: Agent, skips: bool)
    ensures var w' := Move(w, a, skips).0;
            && w'.prs == w.prs && w'.trees == w.trees && w'.markers == w.markers && w'.defaultBranch == w.defaultBranch
            && (!a.pc.Commit? ==> w'.remote == w.remote)
            && (a.pc.Commit? ==> w'.remote == ServerApply(w.remote, a.branch, a.original, a.pc.create))
  {
  }

  /**
   In every world, whatever other writers have done: no existing archive is overwritten and no third
   ref is touched.
   */
  lemma StepNeverOverwrites(w: World, a: Agent, skips: bool)
    ensures var after := Move(w, a, skips).0.remote;
            ArchiveKept(w.remote, after, a.branch) && NoThirdRef(w.remote, after, a.branch)
  {
    MoveTouches(w, a, skips);
  }

  /**
   The push that sends both updates (the only push there is when up-to-date updates are not left out)
   keeps the commit named, moves it to the archive exactly when both leases hold, changes nothing
   otherwise, and conserves the set of named commits.
   */
  lemma FullPushIsSafe(refs: Refs, branch: string, original: Sha)
    ensures var after := ServerApply(refs, branch, original, true);
            && StillNamed(refs, after, branch)
            && (!LeasesHold(refs, branch, original) ==> after == refs)
            && (LeasesHold(refs, branch, original) ==>
              branch !in after && Get(after, ArchiveOf(branch)) == Some(original))
            && after.Values == refs.Values
  {
    var after := ServerApply(refs, branch, original, true);
    if LeasesHold(refs, branch, original) {
      forall sha | sha in refs.Values
        ensures sha in after.Values
      {
        var name :| name in refs && refs[name] == sha;
        if name == branch {
          assert after[ArchiveOf(branch)] == sha;
        } else {
          assert after[name] == sha;
        }
      }
      forall sha | sha in after.Values
        ensures sha in refs.Values
      {
        var name :| name in after && after[name] == sha;
        if name == ArchiveOf(branch) {
          assert refs[branch] == sha;
        } else {
          assert refs[name] == sha;
        }
      }
    }
  }

  /**
   The push that leaves the archive's update out deletes the branch without holding the archive: it
   keeps the commit named exactly when it does not apply or the archive names the commit at that moment.
   */
  lemma DeleteOnlyPushIff(refs: Refs, branch: string, original: Sha)
    ensures StillNamed(refs, ServerApply(refs, branch, original, false), branch)
       <==> Get(refs, branch) != Some(original) || Get(refs, ArchiveOf(branch)) == Some(original)
  {
  }

  /** Every step of `mark_branch`, in every world, under a client that sends every update: all four promises. */
  lemma StepIsSafe(w: World, a: Agent)
    requires a.pc.Commit? ==> a.pc.create
    ensures var after := Move(w, a, false).0.remote;
            && StillNamed(w.remote, after, a.branch)
            && ArchiveKept(w.remote, after, a.branch)
            && NoThirdRef(w.remote, after, a.branch)
            && (!LeasesHold(w.remote, a.branch, a.original) ==> after == w.remote)
            && after.Values == w.remote.Values
  {
    MoveTouches(w, a, false);
    StepNeverOverwrites(w, a, false);
    FullPushIsSafe(w.remote, a.branch, a.original);
  }

  // ----- safety over every run -----

  predicate PastPr(pc: Pc) { !pc.Start? && !pc.Pr1? && !pc.Failed? }

  predicate PastArchive(pc: Pc) { pc.FetchArchive? || pc.Locals? || pc.Trees3? || pc.Rename? || pc.Done? }

  predicate PastTrees(pc: Pc) { pc.Rename? || pc.Done? }

  /**
   What a run of `mark_branch` has established, of the listings as it saw them, by the time it reaches each
   command.
   */
  predicate AgentInv(a: Agent, skips: bool) {
    && IsTicket(a.ticket)
    && (!a.pc.Start? && !a.pc.Failed? ==> Matches(a.branch, a.ticket))
    && (a.pc.Commit? && !skips ==> a.pc.create)
    && (PastPr(a.pc) ==> NoPr(a.prsSeen, a.branch))
    && (PastArchive(a.pc) ==> a.branch !in a.remoteSeen && ArchiveOf(a.branch) in a.remoteSeen)
    && (PastTrees(a.pc) ==> TreesMarked(a.treesSeen, a.markersSeen, a.branch, a.ticket))
    && (a.pc.Done? && a.branch in a.localsSeen ==> CheckedOut(a.treesSeen, a.branch))
  }

  predicate Inv(s: State, skips: bool) {
    forall k :: 0 <= k < |s.agents| ==> AgentInv(s.agents[k], skips)
  }

  lemma RenamedAway(locals: seq<string>, branch: string)
    ensures branch !in Renamed(locals, branch)
  {
  }

  lemma RenameKeepsInv(w: World, a: Agent, skips: bool)
    requires AgentInv(a, skips) && a.pc.Rename?
    ensures AgentInv(Move(w, a, skips).1, skips)
  {
    RenamedAway(a.localsSeen, a.branch);
  }

  lemma EarlyMoveKeepsInv(w: World, a: Agent, skips: bool)
    requires AgentInv(a, skips) && !a.pc.Rename? && !PastArchive(a.pc) && !a.pc.List? && !a.pc.Verify?
    ensures AgentInv(Move(w, a, skips).1, skips)
  {
  }

  lemma ListMoveKeepsInv(w: World, a: Agent, skips: bool)
    requires AgentInv(a, skips) && (a.pc.List? || a.pc.Verify?)
    ensures AgentInv(Move(w, a, skips).1, skips)
  {
  }

  lemma LateMoveKeepsInv(w: World, a: Agent, skips: bool)
    requires AgentInv(a, skips) && PastArchive(a.pc) && !a.pc.Rename?
    ensures AgentInv(Move(w, a, skips).1, skips)
  {
  }

  lemma MoveKeepsInv(w: World, a: Agent, skips: bool)
    requires AgentInv(a, skips)
    ensures AgentInv(Move(w, a, skips).1, skips)
  {
    if a.pc.Rename? {
      RenameKeepsInv(w, a, skips);
    } else if PastArchive(a.pc) {
      LateMoveKeepsInv(w, a, skips);
    } else if a.pc.List? || a.pc.Verify? {
      ListMoveKeepsInv(w, a, skips);
    } else {
      EarlyMoveKeepsInv(w, a, skips);
    }
  }

  lemma StepKeepsInv(s: State, step: Step, skips: bool)
    requires Inv(s, skips) && Enabled(s, step)
    ensures Inv(Apply(s, step, skips), skips)
  {
    if !step.Other? {
      MoveKeepsInv(s.world, s.agents[step.k], skips);
    }
  }

  lemma {:induction false} RunKeepsInv(s: State, steps: seq<Step>, skips: bool)
    requires Inv(s, skips) && IsRun(s, steps, skips)
    ensures Inv(After(s, steps, skips), skips)
    decreases |steps|
  {
    if steps != [] {
      StepKeepsInv(s, steps[0], skips);
      RunKeepsInv(Apply(s, steps[0], skips), steps[1..], skips);
    }
  }

  /** The four promises of one command of `mark_branch`. */
  ghost predicate Safe(before: Refs, after: Refs, branch: string, original: Sha) {
    && StillNamed(before, after, branch)
    && ArchiveKept(before, after, branch)
    && NoThirdRef(before, after, branch)
    && (!LeasesHold(before, branch, original) ==> after == before)
  }

  /**
   Any number of runs of `mark_branch`, in every interleaving with each other and with writers that may
   do anything to the repository: in every reachable state, whatever command comes next and whether or
   not its answer arrives, the four promises hold and the set of commits that have a name is unchanged.
   */
  lemma EveryStepIsSafe(s: State, steps: seq<Step>, next: Step)
    requires AllStarting(s) && IsRun(s, steps, false)
    requires Enabled(After(s, steps, false), next) && !next.Other?
    ensures var now := After(s, steps, false);
            var a, before, after := now.agents[next.k], now.world.remote, Apply(now, next, false).world.remote;
            Safe(before, after, a.branch, a.original) && after.Values == before.Values
  {
    RunKeepsInv(s, steps, false);
    var now := After(s, steps, false);
    StepIsSafe(now.world, now.agents[next.k]);
  }

  // ----- the client that leaves up-to-date updates out -----

  /** Does this step reach the server's half of agent `k`'s push? */
  predicate Pushes(s: State, step: Step)
    requires Enabled(s, step) && !step.Other?
  {
    s.agents[step.k].pc.Commit? && !step.CommandFails?
  }

  /**
   With such a client, in every state whatsoever and whether or not the push's answer arrives: exactly when
   a step keeps all four promises, and exactly when it keeps the branch's commit named.
   */
  lemma StepIsSafeIff(s: State, step: Step)
    requires Enabled(s, step) && !step.Other?
    ensures var a, before, after := s.agents[step.k], s.world.remote, Apply(s, step, true).world.remote;
            && (Safe(before, after, a.branch, a.original)
                <==> !Pushes(s, step) || a.pc.create || Get(before, a.branch) != Some(a.original))
            && (StillNamed(before, after, a.branch)
                <==> || !Pushes(s, step) || a.pc.create || Get(before, a.branch) != Some(a.original)
                     || Get(before, ArchiveOf(a.branch)) == Some(a.original))
            && ArchiveKept(before, after, a.branch) && NoThirdRef(before, after, a.branch)
  {
    var w, a := s.world, s.agents[step.k];
    MoveTouches(w, a, true);
    StepNeverOverwrites(w, a, true);
    FullPushIsSafe(w.remote, a.branch, a.original);
    DeleteOnlyPushIff(w.remote, a.branch, a.original);
  }

  /** `stranded/`, `n` times over, in front of the branch. */
  function Deep(branch: string, n: nat): (name: string)
    ensures |name| == |branch| + 9 * n
  {
    if n == 0 then branch else ArchiveOf(Deep(branch, n - 1))
  }

  lemma {:induction false} DeepAdd(branch: string, n: nat, m: nat)
    ensures Deep(Deep(branch, n), m) == Deep(branch, n + m)
  {
    if m > 0 {
      DeepAdd(branch, n, m - 1);
    }
  }

  /** The commit is named by the branch's archive, or by the archive of that archive, and so on. */
  ghost predicate NamedBeyond(refs: Refs, branch: string, sha: Sha) {
    exists n: nat :: n >= 1 && Get(refs, Deep(branch, n)) == Some(sha)
  }

  /** A push that leaves the archive's creation out has, at worst, seen its archive archived in turn. */
  ghost predicate Backed(s: State) {
    forall k :: 0 <= k < |s.agents| && s.agents[k].pc == Commit(false) ==>
      NamedBeyond(s.world.remote, s.agents[k].branch, s.agents[k].original)
  }

  /** A push of either kind keeps a commit named beyond a branch: if it takes that name away, it leaves a deeper one. */
  lemma PushKeepsNamedBeyond(refs: Refs, pushed: string, original: Sha, create: bool, branch: string, sha: Sha)
    requires NamedBeyond(refs, branch, sha)
    requires !create ==> NamedBeyond(refs, pushed, original)
    ensures NamedBeyond(ServerApply(refs, pushed, original, create), branch, sha)
  {
    var after := ServerApply(refs, pushed, original, create);
    var n: nat :| n >= 1 && Get(refs, Deep(branch, n)) == Some(sha);
    if Deep(branch, n) != pushed || !Applied(refs, pushed, original, create) {
      assert Get(after, Deep(branch, n)) == Some(sha);
    } else if create {
      assert Get(after, Deep(branch, n + 1)) == Some(sha);
    } else {
      var m: nat :| m >= 1 && Get(refs, Deep(pushed, m)) == Some(original);
      DeepAdd(branch, n, m);
      assert Get(after, Deep(branch, n + m)) == Some(sha);
    }
  }

  lemma PushConserves(refs: Refs, branch: string, original: Sha, create: bool)
    requires !create ==> NamedBeyond(refs, branch, original)
    ensures ServerApply(refs, branch, original, create).Values == refs.Values
  {
    if create {
      FullPushIsSafe(refs, branch, original);
    } else if Applied(refs, branch, original, create) {
      var n: nat :| n >= 1 && Get(refs, Deep(branch, n)) == Some(original);
      DeletionConserves(refs, branch, Deep(branch, n));
    }
  }

  lemma DeletionConserves(refs: Refs, branch: string, other: string)
    requires other in refs && other != branch && (branch in refs ==> refs[branch] == refs[other])
    ensures (refs - {branch}).Values == refs.Values
  {
    var after := refs - {branch};
    forall sha | sha in refs.Values
      ensures sha in after.Values
    {
      var name :| name in refs && refs[name] == sha;
      assert after[if name == branch then other else name] == sha;
    }
    forall sha | sha in after.Values
      ensures sha in refs.Values
    {
      var name :| name in after && after[name] == sha;
      assert refs[name] == sha;
    }
  }

  /** What a step of an agent does to the remote: its push, or nothing. */
  lemma StepRefs(s: State, step: Step, skips: bool)
    requires Enabled(s, step) && !step.Other?
    ensures var a := s.agents[step.k];
            Apply(s, step, skips).world.remote
            == if Pushes(s, step) then ServerApply(s.world.remote, a.branch, a.original, a.pc.create)
               else s.world.remote
  {
    MoveTouches(s.world, s.agents[step.k], skips);
  }

  /** An agent reaches the push without a creation only from an advertisement that shows the archive. */
  lemma StepReachesCommit(s: State, step: Step, skips: bool, k: nat)
    requires Enabled(s, step) && !step.Other? && k < |s.agents| && Apply(s, step, skips).agents[k].pc == Commit(false)
    ensures var a := Apply(s, step, skips).agents[k];
            && a.branch == s.agents[k].branch && a.original == s.agents[k].original
            && (s.agents[k].pc == Commit(false)
                || (step.k == k && s.agents[k].pc.Negotiate?
                  && Get(s.world.remote, ArchiveOf(a.branch)) == Some(a.original)))
  {
    if step.k == k {
      MoveReachesCommit(s.world, s.agents[k], skips);
    }
  }

  lemma MoveReachesCommit(w: World, a: Agent, skips: bool)
    requires Move(w, a, skips).1.pc == Commit(false)
    ensures a.pc.Negotiate? && Move(w, a, skips).1.original == a.original
    ensures Get(w.remote, ArchiveOf(a.branch)) == Some(a.original)
  {
  }

  lemma StepConserves(s: State, step: Step, skips: bool)
    requires Backed(s) && Enabled(s, step) && !step.Other?
    ensures Backed(Apply(s, step, skips))
    ensures Apply(s, step, skips).world.remote.Values == s.world.remote.Values
  {
    var refs, a := s.world.remote, s.agents[step.k];
    var s' := Apply(s, step, skips);
    StepRefs(s, step, skips);
    if Pushes(s, step) {
      PushConserves(refs, a.branch, a.original, a.pc.create);
    }
    forall k | 0 <= k < |s'.agents| && s'.agents[k].pc == Commit(false)
      ensures NamedBeyond(s'.world.remote, s'.agents[k].branch, s'.agents[k].original)
    {
      var b := s.agents[k];
      StepReachesCommit(s, step, skips, k);
      if !b.pc.Commit? {
        assert Deep(b.branch, 1) == ArchiveOf(b.branch) by { assert Deep(b.branch, 0) == b.branch; }
        assert NamedBeyond(refs, b.branch, b.original);
      } else if Pushes(s, step) {
        PushKeepsNamedBeyond(refs, a.branch, a.original, a.pc.create, b.branch, b.original);
      }
    }
  }

  lemma {:induction false} RunConserves(s: State, steps: seq<Step>, skips: bool)
    requires Backed(s) && IsRun(s, steps, skips)
    requires forall i :: 0 <= i < |steps| ==> !steps[i].Other?
    ensures After(s, steps, skips).world.remote.Values == s.world.remote.Values
    decreases |steps|
  {
    if steps != [] {
      StepConserves(s, steps[0], skips);
      RunConserves(Apply(s, steps[0], skips), steps[1..], skips);
    }
  }

  /**
   With either client, left to themselves, any number of concurrent runs of `mark_branch`, on the same or
   different branches or on each other's archives, lose no named commit and invent none.
   */
  lemma CommitsConserved(s: State, steps: seq<Step>, skips: bool)
    requires AllStarting(s) && IsRun(s, steps, skips)
    requires forall i :: 0 <= i < |steps| ==> !steps[i].Other?
    ensures After(s, steps, skips).world.remote.Values == s.world.remote.Values
  {
    RunConserves(s, steps, skips);
  }

  /**
   Everyone but agent `k` leaves the archive of its branch alone once it exists: other writers and other
   agents alike.
   */
  ghost predicate LeavesArchive(s: State, step: Step, k: nat)
    requires Enabled(s, step) && k < |s.agents|
  {
    step.Other? || step.k != k ==>
      ArchiveKept(s.world.remote, Apply(s, step, true).world.remote, s.agents[k].branch)
  }

  ghost predicate AllLeaveArchive(s: State, steps: seq<Step>, k: nat)
    requires IsRun(s, steps, true)
    decreases |steps|
  {
    steps == []
      || (k < |s.agents| && LeavesArchive(s, steps[0], k) && AllLeaveArchive(Apply(s, steps[0], true), steps[1..], k))
  }

  /** A push that leaves the archive's update out rests on an archive that is really there. */
  predicate RestsOnArchive(s: State, k: nat) {
    && k < |s.agents|
    && (s.agents[k].pc == Commit(false) ==>
          Get(s.world.remote, ArchiveOf(s.agents[k].branch)) == Some(s.agents[k].original))
  }

  lemma StepRests(s: State, step: Step, k: nat)
    requires RestsOnArchive(s, k) && Enabled(s, step) && LeavesArchive(s, step, k)
    ensures RestsOnArchive(Apply(s, step, true), k)
  {
    var s' := Apply(s, step, true);
    if !step.Other? && s'.agents[k].pc == Commit(false) {
      StepReachesCommit(s, step, true, k);
      if step.k == k {
        StepRefs(s, step, true);
        assert !Pushes(s, step);
      }
    }
  }

  /**
   Among any number of agents and other writers, if all of them leave the archive of agent `k`'s branch
   alone once it exists, then even with this client every step of agent `k`, in every reachable
   state and whether or not its answer arrives, keeps its branch's commit named.
   */
  lemma {:induction false} NamedIfArchiveLeftAlone(s: State, steps: seq<Step>, k: nat, next: Step)
    requires RestsOnArchive(s, k) && IsRun(s, steps, true) && AllLeaveArchive(s, steps, k)
    requires Enabled(After(s, steps, true), next) && !next.Other? && next.k == k
    ensures var now := After(s, steps, true);
            StillNamed(now.world.remote, Apply(now, next, true).world.remote, now.agents[k].branch)
    decreases |steps|
  {
    if steps == [] {
      StepIsSafeIff(s, next);
    } else {
      StepRests(s, steps[0], k);
      NamedIfArchiveLeftAlone(Apply(s, steps[0], true), steps[1..], k, next);
    }
  }

  /** Steps that are not agent `k`'s leave it as it is. */
  lemma {:induction false} OthersLeaveAgent(s: State, steps: seq<Step>, k: nat, skips: bool)
    requires k < |s.agents| && IsRun(s, steps, skips)
    requires forall i :: 0 <= i < |steps| ==> steps[i].Other? || steps[i].k != k
    ensures var now := After(s, steps, skips);
            k < |now.agents| && now.agents[k] == s.agents[k]
    decreases |steps|
  {
    if steps != [] {
      OthersLeaveAgent(Apply(s, steps[0], skips), steps[1..], k, skips);
    }
  }

  /**
   The exact condition over runs.  From the moment agent `k` has negotiated a push without a creation, whatever
   everyone else does until the push is applied: the commit stays named if and only if by then the branch has
   moved or the archive is as it was advertised.
   */
  lemma NamedIffArchiveStands(s: State, steps: seq<Step>, k: nat)
    requires k < |s.agents| && s.agents[k].pc == Commit(false) && RestsOnArchive(s, k)
    requires IsRun(s, steps, true) && forall i :: 0 <= i < |steps| ==> steps[i].Other? || steps[i].k != k
    ensures var now, a := After(s, steps, true), s.agents[k];
            && Enabled(now, Moves(k))
            && (StillNamed(now.world.remote, Apply(now, Moves(k), true).world.remote, a.branch)
                <==> || Get(now.world.remote, a.branch) != Some(a.original)
                     || Get(now.world.remote, ArchiveOf(a.branch)) == Get(s.world.remote, ArchiveOf(a.branch)))
  {
    OthersLeaveAgent(s, steps, k, true);
    StepIsSafeIff(After(s, steps, true), Moves(k));
  }

  lemma Prepend(s: State, step: Step, rest: seq<Step>, skips: bool)
    requires Enabled(s, step) && IsRun(Apply(s, step, skips), rest, skips)
    ensures IsRun(s, [step] + rest, skips)
    ensures After(s, [step] + rest, skips) == After(Apply(s, step, skips), rest, skips)
  {
    assert ([step] + rest)[1..] == rest;
  }

  function Bare(remote: Refs): World { World(remote, [], [], map[], [], "") }

  function RacingAgent(ticket: Ticket, branch: string, sha: Sha, pc: Pc, remoteSeen: Refs): Agent {
    Agent(ticket, branch, pc, sha, [], remoteSeen, [], map[], [])
  }

  /** The last three steps of the race: the advertised archive goes away before the server applies the update. */
  lemma ArchiveVanishes(ticket: Ticket, branch: string, sha: Sha)
    ensures var refs: Refs := map[branch := sha];
            var s := State(Bare(refs[ArchiveOf(branch) := sha]), [RacingAgent(ticket, branch, sha, Negotiate, refs)]);
            var steps := [Moves(0)] + ([Other(Bare(refs))] + ([Moves(0)] + []));
            IsRun(s, steps, true) && After(s, steps, true).world.remote == map[]
  {
    var refs: Refs := map[branch := sha];
    var s := State(Bare(refs[ArchiveOf(branch) := sha]), [RacingAgent(ticket, branch, sha, Negotiate, refs)]);
    var s1 := Apply(s, Moves(0), true);
    assert s1 == State(s.world, [RacingAgent(ticket, branch, sha, Commit(false), refs)]);
    var s2 := Apply(s1, Other(Bare(refs)), true);
    var s3 := Apply(s2, Moves(0), true);
    Prepend(s2, Moves(0), [], true);
    assert s3.world.remote == map[];
    Prepend(s1, Other(Bare(refs)), [Moves(0)] + [], true);
    Prepend(s, Moves(0), [Other(Bare(refs))] + ([Moves(0)] + []), true);
  }

  /** Before that, another writer makes the archive appear once the leases have been prepared. */
  lemma ArchiveAppears(ticket: Ticket, branch: string, sha: Sha) returns (steps: seq<Step>)
    ensures var refs: Refs := map[branch := sha];
            var s := State(Bare(refs), [RacingAgent(ticket, branch, sha, Negotiate, refs)]);
            IsRun(s, steps, true) && After(s, steps, true).world.remote == map[]
  {
    var refs: Refs := map[branch := sha];
    var both := Bare(refs[ArchiveOf(branch) := sha]);
    ArchiveVanishes(ticket, branch, sha);
    steps := [Moves(0)] + ([Other(Bare(refs))] + ([Moves(0)] + []));
    var ready := State(Bare(refs), [RacingAgent(ticket, branch, sha, Negotiate, refs)]);
    assert Apply(ready, Other(both), true) == State(both, ready.agents);
    Prepend(ready, Other(both), steps, true);
    steps := [Other(both)] + steps;
  }

  lemma RaceFromFetch(ticket: Ticket, branch: string, sha: Sha) returns (steps: seq<Step>)
    ensures var refs: Refs := map[branch := sha];
            var s := State(Bare(refs), [RacingAgent(ticket, branch, sha, Fetch, refs)]);
            IsRun(s, steps, true) && After(s, steps, true).world.remote == map[]
  {
    var refs: Refs := map[branch := sha];
    steps := ArchiveAppears(ticket, branch, sha);
    var a := RacingAgent(ticket, branch, sha, Fetch, refs);
    steps := FirstMove(Bare(refs), a.(pc := Trees2), steps, true);
    steps := FirstMove(Bare(refs), a.(pc := Pr2), steps, true);
    steps := FirstMove(Bare(refs), a, steps, true);
  }

  /**
   The listing's refusal of an existing archive narrows the race but does not close it: for every
   ticket, branch and commit there is a run, from the very start of `mark_branch`, that leaves the
   commit without a name.
   */
  lemma RaceLosesCommit(ticket: Ticket, branch: string, sha: Sha) returns (steps: seq<Step>)
    requires Matches(branch, ticket) && branch != "" && !IsStranded(branch)
    ensures var s := State(Bare(map[branch := sha]), [Launch(ticket, branch)]);
            IsRun(s, steps, true) && After(s, steps, true).world.remote == map[]
  {
    var refs: Refs := map[branch := sha];
    var w := Bare(refs);
    steps := RaceFromFetch(ticket, branch, sha);
    var start := Launch(ticket, branch);
    var c := start.(pc := List);
    assert Move(w, c, true) == (w, RacingAgent(ticket, branch, sha, Fetch, refs));
    steps := FirstMove(w, c, steps, true);
    steps := FirstMove(w, start.(pc := Trees1), steps, true);
    steps := FirstMove(w, start.(pc := Pr1), steps, true);
    steps := FirstMove(w, start, steps, true);
  }

  /** One more command in front of a run. */
  lemma FirstMove(w: World, a: Agent, rest: seq<Step>, skips: bool) returns (steps: seq<Step>)
    requires var next := Move(w, a, skips); IsRun(State(next.0, [next.1]), rest, skips)
    ensures var next := Move(w, a, skips);
            IsRun(State(w, [a]), steps, skips)
              && After(State(w, [a]), steps, skips) == After(State(next.0, [next.1]), rest, skips)
    ensures steps == [Moves(0)] + rest
  {
    var next := Move(w, a, skips);
    assert Apply(State(w, [a]), Moves(0), skips) == State(next.0, [next.1]);
    Prepend(State(w, [a]), Moves(0), rest, skips);
    steps := [Moves(0)] + rest;
  }

  // ----- a run that is left alone -----

  /** The world and the agent when no command fails and nobody else writes. */
  function Alone(w: World, a: Agent, skips: bool): (World, Agent)
    decreases Rank(a.pc)
  {
    if a.pc.Done? || a.pc.Failed? then (w, a)
    else var next := Move(w, a, skips); Alone(next.0, next.1, skips)
  }

  predicate RenameDue(w: World, branch: string) { branch in w.locals && !CheckedOut(w.trees, branch) }

  predicate LocalsAllow(w: World, branch: string) { RenameDue(w, branch) ==> ArchiveOf(branch) !in w.locals }

  /**
   Exactly what `mark_branch` needs of the repository: the branch matches the ticket and is not the default one, no
   pull request is on it, every worktree on it bears a marker that names the ticket, exactly one of it and its
   archive is on the remote, and an unused local branch can be renamed.
   */
  ghost predicate Archivable(w: World, t: Ticket, branch: string) {
    && Matches(branch, t) && branch != w.defaultBranch
    && (forall k :: 0 <= k < |w.prs| ==> w.prs[k].head != branch)
    && (forall k :: 0 <= k < |w.trees| && w.trees[k].branch == branch ==>
          w.trees[k].path in w.markers && w.markers[w.trees[k].path] == Names(t))
    && (branch in w.remote <==> "stranded/" + branch !in w.remote)
    && (branch in w.locals && "stranded/" + branch in w.locals ==>
          exists k :: 0 <= k < |w.trees| && w.trees[k].branch == branch)
  }

  /**
   The archive stands where the branch stood, an unused local branch has been renamed, and nothing else has
   changed.
   */
  ghost predicate Archived(before: World, after: World, branch: string) {
    && after == before.(remote := after.remote, locals := after.locals)
    && after.remote == (if branch in before.remote
                        then before.remote["stranded/" + branch := before.remote[branch]] - {branch} else before.remote)
    && |after.locals| == |before.locals|
    && forall i :: 0 <= i < |before.locals| ==>
         after.locals[i] == if before.locals[i] == branch && !OnTree(before.trees, branch) then "stranded/" + branch
                            else before.locals[i]
  }

  ghost predicate OnTree(trees: seq<Tree>, branch: string) {
    exists k :: 0 <= k < |trees| && trees[k].branch == branch
  }

  /** The argument without a leading `stranded/`, if it has one. */
  ghost predicate Means(argument: string, branch: string) {
    if "stranded/" <= argument then argument == "stranded/" + branch else argument == branch
  }

  function ArchivedRefs(refs: Refs, branch: string): Refs {
    if branch in refs then refs[ArchiveOf(branch) := refs[branch]] - {branch} else refs
  }

  function LocallyRenamed(w: World, branch: string): World {
    if RenameDue(w, branch) then w.(locals := Renamed(w.locals, branch)) else w
  }

  /** The agent's last look at each listing is what the repository holds. */
  predicate UpToDate(w: World, a: Agent) {
    a.prsSeen == w.prs && a.remoteSeen == w.remote && a.treesSeen == w.trees && a.markersSeen == w.markers
      && a.localsSeen == w.locals
  }

  lemma AloneLocals(w: World, a: Agent, skips: bool)
    requires a.pc.Locals? && a.prsSeen == w.prs && a.remoteSeen == w.remote
    ensures var end := Alone(w, a, skips);
            && (end.1.pc.Done? <==> TreesMarked(w.trees, w.markers, a.branch, a.ticket) && LocalsAllow(w, a.branch))
            && (end.1.pc.Done? ==>
              end.0 == LocallyRenamed(w, a.branch) && UpToDate(end.0, end.1) && end.1.branch == a.branch)
            && (!end.1.pc.Done? ==> end.0 == w)
  {
    var b := Move(w, a, skips).1;
    var c := Move(w, b, skips).1;
    assert Alone(w, a, skips) == Alone(w, b, skips) == Alone(w, c, skips);
    if TreesMarked(w.trees, w.markers, a.branch, a.ticket) {
      assert c.pc.Rename?;
      var d := Move(w, c, skips);
      assert Alone(w, c, skips) == Alone(d.0, d.1, skips) == d;
    }
  }

  lemma AlonePush(w: World, a: Agent, skips: bool)
    requires a.pc.Negotiate? && a.prsSeen == w.prs
    requires LeasesHold(w.remote, a.branch, a.original)
    ensures var pushed := w.(remote := ArchivedRefs(w.remote, a.branch));
            Alone(w, a, skips) == Alone(pushed, a.(pc := Locals, remoteSeen := pushed.remote), skips)
  {
    var b := Move(w, a, skips).1;
    assert b == a.(pc := Commit(true));
    var (w', c) := Move(w, b, skips);
    assert w'.remote == ArchivedRefs(w.remote, a.branch) && c == a.(pc := Verify);
    var d := Move(w', c, skips).1;
    assert d == a.(pc := Locals, remoteSeen := w'.remote);
    assert Alone(w, a, skips) == Alone(w, b, skips) == Alone(w', c, skips) == Alone(w', d, skips);
  }

  lemma AloneFetch(w: World, a: Agent, skips: bool)
    requires a.pc.Fetch? && NoPr(w.prs, a.branch) && TreesMarked(w.trees, w.markers, a.branch, a.ticket)
    requires LeasesHold(w.remote, a.branch, a.original)
    ensures Alone(w, a, skips) == Alone(w, a.(pc := Negotiate, prsSeen := w.prs), skips)
  {
    var b := Move(w, a, skips).1;
    var c := Move(w, b, skips).1;
    var d := Move(w, c, skips).1;
    assert d == a.(pc := Negotiate, prsSeen := w.prs);
    assert Alone(w, a, skips) == Alone(w, b, skips) == Alone(w, c, skips) == Alone(w, d, skips);
  }

  lemma AloneList(w: World, a: Agent, skips: bool)
    requires a.pc.List? && a.prsSeen == w.prs && NoPr(w.prs, a.branch)
             && TreesMarked(w.trees, w.markers, a.branch, a.ticket)
    ensures var end := Alone(w, a, skips);
            && (end.1.pc.Done?
              <==> (a.branch in w.remote <==> ArchiveOf(a.branch) !in w.remote) && LocalsAllow(w, a.branch))
            && (end.1.pc.Done? ==>
                  && end.0 == LocallyRenamed(w.(remote := ArchivedRefs(w.remote, a.branch)), a.branch)
                  && UpToDate(end.0, end.1) && end.1.branch == a.branch)
  {
    var b := Move(w, a, skips).1;
    assert Alone(w, a, skips) == Alone(w, b, skips);
    if b.pc.Fetch? {
      AloneFetch(w, b, skips);
      AlonePush(w, b.(pc := Negotiate, prsSeen := w.prs), skips);
      var pushed := w.(remote := ArchivedRefs(w.remote, a.branch));
      AloneLocals(pushed, b.(pc := Locals, prsSeen := w.prs, remoteSeen := pushed.remote), skips);
    } else if b.pc.FetchArchive? {
      var c := Move(w, b, skips).1;
      assert Alone(w, b, skips) == Alone(w, c, skips);
      AloneLocals(w, c, skips);
      assert w.(remote := ArchivedRefs(w.remote, a.branch)) == w;
    }
  }

  lemma AloneOutcome(w: World, t: Ticket, argument: string, skips: bool)
    ensures var a := Launch(t, argument);
            var end := Alone(w, a, skips);
            && (end.1.pc.Done? <==>
                  && Matches(a.branch, t) && a.branch != w.defaultBranch && NoPr(w.prs, a.branch)
                  && TreesMarked(w.trees, w.markers, a.branch, t)
                  && (a.branch in w.remote <==> ArchiveOf(a.branch) !in w.remote) && LocalsAllow(w, a.branch))
            && (end.1.pc.Done? ==>
                  && end.0 == LocallyRenamed(w.(remote := ArchivedRefs(w.remote, a.branch)), a.branch)
                  && UpToDate(end.0, end.1) && end.1.branch == a.branch)
  {
    var a := Launch(t, argument);
    var b := Move(w, a, skips).1;
    assert Alone(w, a, skips) == Alone(w, b, skips);
    if b.pc.Pr1? {
      var c := Move(w, b, skips).1;
      assert Alone(w, b, skips) == Alone(w, c, skips);
      if c.pc.Trees1? {
        var d := Move(w, c, skips).1;
        assert Alone(w, c, skips) == Alone(w, d, skips);
        if d.pc.List? {
          AloneList(w, d, skips);
        }
      }
    }
  }

  lemma LaunchMeans(t: Ticket, argument: string, branch: string)
    requires Means(argument, branch)
    ensures Launch(t, argument).branch == branch
  {
    if "stranded/" <= argument {
      assert ("stranded/" + branch)[9..] == branch;
    }
  }

  lemma OutcomeArchives(w: World, branch: string)
    ensures Archived(w, LocallyRenamed(w.(remote := ArchivedRefs(w.remote, branch)), branch), branch)
  {
    assert OnTree(w.trees, branch) <==> CheckedOut(w.trees, branch);
    if branch in w.locals {
    }
  }

  /**
   Alone, `mark_branch` succeeds if and only if the branch it was given, by its own name or its archive's, is
   archivable; and then it is archived.
   */
  lemma AloneSucceedsIff(w: World, t: Ticket, argument: string, branch: string, skips: bool)
    requires Means(argument, branch)
    ensures var end := Alone(w, Launch(t, argument), skips);
            && (end.1.pc.Done? <==> Archivable(w, t, branch))
            && (end.1.pc.Done? ==> Archived(w, end.0, branch) && UpToDate(end.0, end.1) && end.1.branch == branch)
  {
    LaunchMeans(t, argument, branch);
    AloneOutcome(w, t, argument, skips);
    OutcomeArchives(w, branch);
    ArchivableIff(w, t, branch);
  }

  lemma ArchivableIff(w: World, t: Ticket, branch: string)
    ensures Archivable(w, t, branch)
       <==> && Matches(branch, t) && branch != w.defaultBranch && NoPr(w.prs, branch)
            && TreesMarked(w.trees, w.markers, branch, t)
            && (branch in w.remote <==> ArchiveOf(branch) !in w.remote) && LocalsAllow(w, branch)
  {
    assert CheckedOut(w.trees, branch) <==> OnTree(w.trees, branch);
  }

  /** Pull requests on other branches and worktrees on other branches make no difference. */
  lemma OthersDoNotMatter(w: World, t: Ticket, argument: string, branch: string, skips: bool, pr: PullRequest,
                          tree: Tree)
    requires Means(argument, branch) && pr.head != branch && tree.branch != branch
    ensures Alone(w.(prs := w.prs + [pr], trees := w.trees + [tree]), Launch(t, argument), skips).1.pc.Done?
       <==> Alone(w, Launch(t, argument), skips).1.pc.Done?
  {
    var w' := w.(prs := w.prs + [pr], trees := w.trees + [tree]);
    AloneSucceedsIff(w, t, argument, branch, skips);
    AloneSucceedsIff(w', t, argument, branch, skips);
    OthersDoNotDecide(w, t, branch, pr, tree);
  }

  lemma OthersDoNotDecide(w: World, t: Ticket, branch: string, pr: PullRequest, tree: Tree)
    requires pr.head != branch && tree.branch != branch
    ensures Archivable(w.(prs := w.prs + [pr], trees := w.trees + [tree]), t, branch) <==> Archivable(w, t, branch)
  {
    var w' := w.(prs := w.prs + [pr], trees := w.trees + [tree]);
    assert forall k :: 0 <= k < |w.prs| ==> w'.prs[k] == w.prs[k];
    assert forall k :: 0 <= k < |w.trees| ==> w'.trees[k] == w.trees[k];
  }

  /** Archiving what is archived succeeds again and changes nothing. */
  lemma AloneIdempotent(w: World, t: Ticket, argument: string, branch: string, skips: bool)
    requires Means(argument, branch) && Archivable(w, t, branch)
    ensures var once := Alone(w, Launch(t, argument), skips).0;
            var twice := Alone(once, Launch(t, argument), skips);
            twice.1.pc.Done? && twice.0 == once
  {
    LaunchMeans(t, argument, branch);
    ArchivableIff(w, t, branch);
    AloneOutcome(w, t, argument, skips);
    var once := Alone(w, Launch(t, argument), skips).0;
    RenamedAway(w.locals, branch);
    assert !RenameDue(once, branch);
    AloneOutcome(once, t, argument, skips);
    assert once.(remote := ArchivedRefs(once.remote, branch)) == once;
  }

  /**
   What each command notices, in any world, whatever has changed since the last one: exactly when the run stops
   there.
   */
  lemma StopsIff(w: World, a: Agent, skips: bool)
    ensures var stops, archive := Move(w, a, skips).1.pc.Failed?, "stranded/" + a.branch;
            && (a.pc.Start? ==> (stops <==> !Matches(a.branch, a.ticket) || a.branch == w.defaultBranch))
            && (a.pc.Pr1? || a.pc.Pr2? ==> (stops <==> exists k :: 0 <= k < |w.prs| && w.prs[k].head == a.branch))
            && (a.pc.Trees1? || a.pc.Trees2? || a.pc.Trees3? ==>
                  (stops <==> exists k :: 0 <= k < |w.trees| && w.trees[k].branch == a.branch
                                     && !(w.trees[k].path in w.markers
                                       && w.markers[w.trees[k].path] == Names(a.ticket))))
            && (a.pc.List? ==> (stops <==> (a.branch in w.remote <==> archive in w.remote)))
            && (a.pc.Fetch? ==> (stops <==> !(a.branch in w.remote && w.remote[a.branch] == a.original)))
            && (a.pc.Negotiate? && !skips ==>
                  (stops <==> !(a.branch in w.remote && w.remote[a.branch] == a.original && archive !in w.remote)))
            && (a.pc.Commit? && a.pc.create ==>
                  (stops <==> !(a.branch in w.remote && w.remote[a.branch] == a.original && archive !in w.remote)))
            && (a.pc.Verify? ==>
                  (stops <==> !(archive in w.remote && w.remote[archive] == a.original && a.branch !in w.remote)))
            && (a.pc.FetchArchive? ==> (stops <==> archive !in w.remote))
            && (a.pc.Locals? ==> !stops)
            && (a.pc.Rename? ==>
                  (stops <==> && a.branch in a.localsSeen && !OnTree(a.treesSeen, a.branch)
                              && (archive in a.localsSeen || a.branch !in w.locals || archive in w.locals)))
  {
    match a.pc
    case Pr1 => PrNoticed(w, a.branch);
    case Pr2 => PrNoticed(w, a.branch);
    case Trees1 => TreeNoticed(w, a.branch, a.ticket);
    case Trees2 => TreeNoticed(w, a.branch, a.ticket);
    case Trees3 => TreeNoticed(w, a.branch, a.ticket);
    case Rename => assert CheckedOut(a.treesSeen, a.branch) <==> OnTree(a.treesSeen, a.branch);
    case _ =>
  }

  lemma PrNoticed(w: World, branch: string)
    ensures NoPr(w.prs, branch) <==> !exists k :: 0 <= k < |w.prs| && w.prs[k].head == branch
  {
  }

  lemma TreeNoticed(w: World, branch: string, t: Ticket)
    ensures TreesMarked(w.trees, w.markers, branch, t)
       <==> !exists k :: 0 <= k < |w.trees| && w.trees[k].branch == branch
                     && !(w.trees[k].path in w.markers && w.markers[w.trees[k].path] == Names(t))
  {
  }

  // ----- the checker agrees -----

  /** The checker's picture of the repository; its listing of the remote may come in any order. */
  ghost predicate Pictures(e: Evidence, w: World) {
    && e.prs == w.prs && e.trees == w.trees && e.markers == w.markers && e.locals == w.locals
    && forall name :: name in e.remote <==> name in w.remote
  }

  lemma ArchiveIsPreserved(e: Evidence, t: Ticket, excluded: set<string>, branch: string)
    requires Matches(branch, t) && ArchiveOf(branch) in e.remote
    ensures RemoteEntry(ArchiveOf(branch))
            in AllPreserved(t, excluded, Listed(e.remote), Listed(e.trees), e.markers, Listed(e.locals))
  {
    var archive := ArchiveOf(branch);
    assert archive[9..] == branch;
    var k :| 0 <= k < |e.remote| && e.remote[k] == archive;
    assert RemoteEntry(archive) in RemotePreserved(t)(e.remote[k]);
    CollectMember(RemotePreserved(t), e.remote, RemoteEntry(archive));
  }

  /**
   Since the agent last looked, someone has opened a pull request on this branch, pushed it, checked it
   out, changed a marker, or moved its local ref.
   */
  ghost predicate Disturbed(w: World, a: Agent) {
    || (exists k :: 0 <= k < |w.prs| && w.prs[k].head == a.branch && w.prs[k] !in a.prsSeen)
    || (a.branch in w.remote && a.branch !in a.remoteSeen)
    || (exists k :: 0 <= k < |w.trees| && w.trees[k].branch == a.branch
                 && (w.trees[k] !in a.treesSeen
                   || MarkerAt(w.markers, w.trees[k].path) != MarkerAt(a.markersSeen, w.trees[k].path)))
    || (a.branch in w.locals && a.branch !in a.localsSeen)
    || (a.branch in w.locals && CheckedOut(a.treesSeen, a.branch) && !CheckedOut(w.trees, a.branch))
  }

  /** After success, only a later disturbance of this very branch can make anything claim it. */
  lemma ClaimMeansDisturbance(w: World, a: Agent, skips: bool, e: Evidence)
    requires AgentInv(a, skips) && a.pc.Done? && Pictures(e, w)
    ensures Claims(e, a.ticket, a.branch) ==> Disturbed(w, a)
  {
    if !Disturbed(w, a) {
      forall k | 0 <= k < |w.trees| && w.trees[k].branch == a.branch
        ensures TreeIsPreserved(a.ticket, e.markers, e.trees[k])
      {
        assert w.trees[k] in a.treesSeen;
      }
      if a.branch in w.locals {
        var k :| 0 <= k < |w.trees| && w.trees[k].branch == a.branch;
        assert TreeIsPreserved(a.ticket, e.markers, e.trees[k]);
      }
    }
  }

  /**
   In every run, with any other writers: once a run of `mark_branch` has succeeded, a check for the same
   ticket whose listings can all be read names the branch as in flight only if that very branch was
   disturbed after the agent last looked; and it reports the archive, while it stands, as preserved.
   */
  lemma MarkedThenClear(s: State, steps: seq<Step>, skips: bool, k: nat, e: Evidence, excluded: set<string>)
    requires AllStarting(s) && IsRun(s, steps, skips)
    requires var now := After(s, steps, skips);
             k < |now.agents| && now.agents[k].pc.Done? && Pictures(e, now.world)
               && Readable(e, now.agents[k].ticket, excluded)
    ensures var now := After(s, steps, skips);
            var a := now.agents[k];
            && (NamedIn(HitsOf(e, a.ticket, excluded), a.branch) ==> Disturbed(now.world, a))
            && (NamedIn(HitsOf(e, a.ticket, excluded), a.branch)
              <==> a.branch !in excluded && Claims(e, a.ticket, a.branch))
            && (ArchiveOf(a.branch) in now.world.remote ==>
                  RemoteEntry(ArchiveOf(a.branch))
                  in AllPreserved(a.ticket, excluded, Listed(e.remote), Listed(e.trees), e.markers, Listed(e.locals)))
  {
    RunKeepsInv(s, steps, skips);
    var now := After(s, steps, skips);
    var a := now.agents[k];
    ClaimMeansDisturbance(now.world, a, skips, e);
    HitIffClaimed(e, a.ticket, excluded, a.branch);
    if ArchiveOf(a.branch) in now.world.remote {
      ArchiveIsPreserved(e, a.ticket, excluded, a.branch);
    }
  }

  /** A repository that is what the agent last saw has not been disturbed. */
  lemma UpToDateIsQuiet(w: World, a: Agent)
    requires UpToDate(w, a)
    ensures !Disturbed(w, a)
  {
  }

  /** A run that is left alone is one of the runs above, without other writers. */
  lemma {:induction false} AloneIsRun(w: World, a: Agent, skips: bool) returns (steps: seq<Step>)
    ensures IsRun(State(w, [a]), steps, skips) && forall i :: 0 <= i < |steps| ==> steps[i] == Moves(0)
    ensures var end := Alone(w, a, skips);
            After(State(w, [a]), steps, skips) == State(end.0, [end.1]) && end.1.ticket == a.ticket
    decreases Rank(a.pc)
  {
    if a.pc.Done? || a.pc.Failed? {
      steps := [];
    } else {
      var next := Move(w, a, skips);
      var rest := AloneIsRun(next.0, next.1, skips);
      steps := FirstMove(w, a, rest, skips);
    }
  }

  /** End to end on a quiet repository: archive, then check. */
  lemma ArchiveThenCheck(w: World, t: Ticket, argument: string, branch: string, skips: bool, e: Evidence,
                         excluded: set<string>)
    requires IsTicket(t) && Means(argument, branch) && Archivable(w, t, branch)
    requires Pictures(e, Alone(w, Launch(t, argument), skips).0) && Readable(e, t, excluded)
    ensures !NamedIn(HitsOf(e, t, excluded), branch)
    ensures RemoteEntry("stranded/" + branch)
            in AllPreserved(t, excluded, Listed(e.remote), Listed(e.trees), e.markers, Listed(e.locals))
  {
    var a := Launch(t, argument);
    LaunchMeans(t, argument, branch);
    AloneSucceedsIff(w, t, argument, branch, skips);
    var steps := AloneIsRun(w, a, skips);
    var end := Alone(w, a, skips);
    UpToDateIsQuiet(end.0, end.1);
    MarkedThenClear(State(w, [a]), steps, skips, 0, e, excluded);
    assert ArchiveOf(branch) in end.0.remote;
  }

  // ----- a claim made while the archiving runs -----

  /** The repository once the archive stands and a pull request has been opened on the branch. */
  function LateWorld(branch: string, sha: Sha): World {
    Bare(map[ArchiveOf(branch) := sha]).(prs := [PullRequest(1, branch)])
  }

  /** From `s` these steps form a run that ends in `final`. */
  ghost predicate Leads(s: State, steps: seq<Step>, skips: bool, final: State) {
    IsRun(s, steps, skips) && After(s, steps, skips) == final
  }

  /** One more command in front. */
  lemma MoveLeads(w: World, a: Agent, w': World, a': Agent, rest: seq<Step>, skips: bool, final: State)
    requires Move(w, a, skips) == (w', a') && Leads(State(w', [a']), rest, skips, final)
    ensures Leads(State(w, [a]), [Moves(0)] + rest, skips, final)
  {
    var _ := FirstMove(w, a, rest, skips);
  }

  function LateEnd(ticket: Ticket, branch: string, sha: Sha): State {
    var archived: Refs := map[ArchiveOf(branch) := sha];
    State(LateWorld(branch, sha), [RacingAgent(ticket, branch, sha, Done, archived)])
  }

  /** From the local half on, nothing looks at the pull requests again. */
  lemma LocalHalf(w: World, a: Agent, skips: bool, final: State) returns (steps: seq<Step>)
    requires a.pc.Locals? && w.locals == [] && w.trees == []
    requires final == State(w, [a.(pc := Done, localsSeen := [], treesSeen := [], markersSeen := w.markers)])
    ensures Leads(State(w, [a]), steps, skips, final)
  {
    var b := a.(pc := Trees3, localsSeen := []);
    var c := b.(pc := Rename, treesSeen := [], markersSeen := w.markers);
    MoveLeads(w, c, w, c.(pc := Done), [], skips, final);
    steps := [Moves(0)] + [];
    MoveLeads(w, b, w, c, steps, skips, final);
    steps := [Moves(0)] + steps;
    MoveLeads(w, a, w, b, steps, skips, final);
    steps := [Moves(0)] + steps;
  }

  /** Just before it, another writer opens a pull request. */
  lemma LateFromLocals(ticket: Ticket, branch: string, sha: Sha, skips: bool) returns (steps: seq<Step>)
    ensures var archived: Refs := map[ArchiveOf(branch) := sha];
            var s := State(Bare(archived), [RacingAgent(ticket, branch, sha, Locals, archived)]);
            Leads(s, steps, skips, LateEnd(ticket, branch, sha))
  {
    var archived: Refs := map[ArchiveOf(branch) := sha];
    var w := LateWorld(branch, sha);
    var s := State(Bare(archived), [RacingAgent(ticket, branch, sha, Locals, archived)]);
    var rest := LocalHalf(w, s.agents[0], skips, LateEnd(ticket, branch, sha));
    assert Apply(s, Other(w), skips) == State(w, s.agents);
    Prepend(s, Other(w), rest, skips);
    steps := [Other(w)] + rest;
  }

  lemma LateFromNegotiate(ticket: Ticket, branch: string, sha: Sha, skips: bool) returns (steps: seq<Step>)
    ensures var refs: Refs := map[branch := sha];
            var s := State(Bare(refs), [RacingAgent(ticket, branch, sha, Negotiate, refs)]);
            Leads(s, steps, skips, LateEnd(ticket, branch, sha))
  {
    var refs: Refs, archived: Refs := map[branch := sha], map[ArchiveOf(branch) := sha];
    var a := RacingAgent(ticket, branch, sha, Negotiate, refs);
    var final := LateEnd(ticket, branch, sha);
    var rest := LateFromLocals(ticket, branch, sha, skips);
    assert ServerApply(refs, branch, sha, true) == archived;
    var b := RacingAgent(ticket, branch, sha, Locals, archived);
    MoveLeads(Bare(archived), a.(pc := Verify), Bare(archived), b, rest, skips, final);
    rest := [Moves(0)] + rest;
    MoveLeads(Bare(refs), a.(pc := Commit(true)), Bare(archived), a.(pc := Verify), rest, skips, final);
    rest := [Moves(0)] + rest;
    MoveLeads(Bare(refs), a, Bare(refs), a.(pc := Commit(true)), rest, skips, final);
    steps := [Moves(0)] + rest;
  }

  lemma LateFromFetch(ticket: Ticket, branch: string, sha: Sha, skips: bool) returns (steps: seq<Step>)
    ensures var refs: Refs := map[branch := sha];
            var s := State(Bare(refs), [RacingAgent(ticket, branch, sha, Fetch, refs)]);
            Leads(s, steps, skips, LateEnd(ticket, branch, sha))
  {
    var refs: Refs := map[branch := sha];
    var w, a := Bare(refs), RacingAgent(ticket, branch, sha, Fetch, refs);
    var final := LateEnd(ticket, branch, sha);
    var rest := LateFromNegotiate(ticket, branch, sha, skips);
    MoveLeads(w, a.(pc := Trees2), w, a.(pc := Negotiate), rest, skips, final);
    rest := [Moves(0)] + rest;
    MoveLeads(w, a.(pc := Pr2), w, a.(pc := Trees2), rest, skips, final);
    rest := [Moves(0)] + rest;
    MoveLeads(w, a, w, a.(pc := Pr2), rest, skips, final);
    steps := [Moves(0)] + rest;
  }

  lemma LateFromStart(ticket: Ticket, branch: string, sha: Sha, skips: bool) returns (steps: seq<Step>)
    requires Matches(branch, ticket) && branch != "" && !IsStranded(branch)
    ensures Leads(State(Bare(map[branch := sha]), [Launch(ticket, branch)]), steps, skips, LateEnd(ticket, branch, sha))
  {
    var refs: Refs := map[branch := sha];
    var w, a := Bare(refs), Launch(ticket, branch);
    var final := LateEnd(ticket, branch, sha);
    var rest := LateFromFetch(ticket, branch, sha, skips);
    MoveLeads(w, a.(pc := List), w, RacingAgent(ticket, branch, sha, Fetch, refs), rest, skips, final);
    rest := [Moves(0)] + rest;
    MoveLeads(w, a.(pc := Trees1), w, a.(pc := List), rest, skips, final);
    rest := [Moves(0)] + rest;
    MoveLeads(w, a.(pc := Pr1), w, a.(pc := Trees1), rest, skips, final);
    rest := [Moves(0)] + rest;
    MoveLeads(w, a, w, a.(pc := Pr1), rest, skips, final);
    steps := [Moves(0)] + rest;
  }

  /**
   Success followed by quiet is not enough: for every ticket, branch and commit there is a run from the very
   start of `mark_branch`, in which another writer opens a pull request on the branch after the second look at
   the pull requests, that succeeds and whose last state a check reports as in flight through that branch.
   */
  lemma LatePullRequestIsReported(ticket: Ticket, branch: string, sha: Sha, skips: bool, e: Evidence,
                                  excluded: set<string>) returns (steps: seq<Step>)
    requires IsTicket(ticket) && Matches(branch, ticket) && branch != "" && !IsStranded(branch) && branch !in excluded
    requires Pictures(e, LateWorld(branch, sha))
    ensures var s := State(Bare(map[branch := sha]), [Launch(ticket, branch)]);
            && AllStarting(s) && IsRun(s, steps, skips)
            && var now := After(s, steps, skips);
               now.world == LateWorld(branch, sha) && |now.agents| == 1 && now.agents[0].pc.Done?
    ensures Readable(e, ticket, excluded) && NamedIn(HitsOf(e, ticket, excluded), branch)
  {
    steps := LateFromStart(ticket, branch, sha, skips);
    LatePullRequestClaims(ticket, branch, sha, e, excluded);
  }

  lemma LatePullRequestClaims(ticket: Ticket, branch: string, sha: Sha, e: Evidence, excluded: set<string>)
    requires IsTicket(ticket) && Matches(branch, ticket) && branch !in excluded && Pictures(e, LateWorld(branch, sha))
    ensures Readable(e, ticket, excluded) && NamedIn(HitsOf(e, ticket, excluded), branch)
  {
    assert e.prs[0].head == branch;
    HitIffClaimed(e, ticket, excluded, branch);
  }
}
