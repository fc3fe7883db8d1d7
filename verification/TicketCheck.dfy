/**
 The in-flight checker: it lists pull requests, remote branches, worktrees and local branches, and
 reports what still claims a ticket and what is preserved for salvage.
 */
module TicketCheck {
  import opened Options
  import opened TicketMatch

  datatype PullRequest = PullRequest(number: int, head: string)

  datatype Tree = Tree(path: string, branch: string)   // the branch is empty when detached

  /** The STRANDED.md of a worktree: absent, naming one ticket, or not readable unambiguously. */
  datatype Marker = Absent | Names(ticket: Ticket) | Bad(error: string)

  datatype Listing<+T> = Listed(items: seq<T>) | Unlisted(error: string)

  datatype Entry =
    | PrEntry(number: int, branch: string)
    | RemoteEntry(branch: string)
    | TreeEntry(path: string, branch: string)
    | LocalEntry(branch: string)

  datatype Report = Report(hits: seq<Entry>, preserved: seq<Entry>, errors: seq<string>, code: int)

  predicate IsStranded(branch: string) { STRANDED <= branch }

  // ----- collecting -----

  /** What `f` contributes for each item, in order. */
  function Collect<A, B>(f: A -> seq<B>, items: seq<A>): seq<B> {
    if items == [] then [] else Collect(f, items[..|items| - 1]) + f(items[|items| - 1])
  }

  lemma CollectStep<A, B>(f: A -> seq<B>, items: seq<A>, k: nat)
    requires k < |items|
    ensures Collect(f, items[..k + 1]) == Collect(f, items[..k]) + f(items[k])
  {
    assert items[..k + 1][..k] == items[..k];
  }

  lemma {:induction false} CollectMember<A, B>(f: A -> seq<B>, items: seq<A>, y: B)
    ensures y in Collect(f, items) <==> exists k :: 0 <= k < |items| && y in f(items[k])
  {
    if items != [] {
      var n := |items| - 1;
      var front := items[..n];
      CollectMember(f, front, y);
      if y in Collect(f, front) {
        var k :| 0 <= k < |front| && y in f(front[k]);
        assert y in f(items[k]);
      }
      if exists k :: 0 <= k < |items| && y in f(items[k]) {
        var k :| 0 <= k < |items| && y in f(items[k]);
        if k < n {
          assert y in f(front[k]);
        }
      }
    }
  }

  // ----- what each listing contributes -----

  function PrHit(t: Ticket, excluded: set<string>): PullRequest -> seq<Entry> {
    (row: PullRequest) => if Matches(row.head, t) && row.head !in excluded then [PrEntry(row.number, row.head)] else []
  }

  function RemotePreserved(t: Ticket): string -> seq<Entry> {
    (branch: string) => if IsStranded(branch) && Matches(branch[9..], t) then [RemoteEntry(branch)] else []
  }

  function RemoteHit(t: Ticket, excluded: set<string>): string -> seq<Entry> {
    (branch: string) =>
      if IsStranded(branch) && Matches(branch[9..], t) then []
      else if Matches(branch, t) && branch !in excluded then [RemoteEntry(branch)] else []
  }

  function MarkerAt(markers: map<string, Marker>, path: string): Marker {
    if path in markers then markers[path] else Absent
  }

  /** Worktrees the checker looks at closely. */
  predicate TreeConcerns(t: Ticket, excluded: set<string>, tree: Tree) {
    Matches(tree.branch, t) && tree.branch !in excluded
  }

  predicate TreeIsPreserved(t: Ticket, markers: map<string, Marker>, tree: Tree) {
    IsStranded(tree.branch) || MarkerAt(markers, tree.path) == Names(t)
  }

  function TreePreserved(t: Ticket, excluded: set<string>, markers: map<string, Marker>): Tree -> seq<Entry> {
    (tree: Tree) =>
      if TreeConcerns(t, excluded, tree) && TreeIsPreserved(t, markers, tree) then [TreeEntry(tree.path, tree.branch)]
      else []
  }

  function TreeHit(t: Ticket, excluded: set<string>, markers: map<string, Marker>): Tree -> seq<Entry> {
    (tree: Tree) =>
      if TreeConcerns(t, excluded, tree) && !TreeIsPreserved(t, markers, tree) then [TreeEntry(tree.path, tree.branch)]
      else []
  }

  function Tombstone(t: Ticket, excluded: set<string>, markers: map<string, Marker>): Tree -> seq<string> {
    (tree: Tree) => if TreeConcerns(t, excluded, tree) && TreeIsPreserved(t, markers, tree) then [tree.branch] else []
  }

  /** How far the worktree loop gets: up to the first one whose marker cannot be read. */
  function TreesRead(t: Ticket, excluded: set<string>, markers: map<string, Marker>, trees: seq<Tree>): (n: nat)
    ensures n <= |trees|
    ensures forall k :: 0 <= k < n ==> !(TreeConcerns(t, excluded, trees[k]) && MarkerAt(markers, trees[k].path).Bad?)
    ensures n < |trees| ==> TreeConcerns(t, excluded, trees[n]) && MarkerAt(markers, trees[n].path).Bad?
  {
    if trees == [] || (TreeConcerns(t, excluded, trees[0]) && MarkerAt(markers, trees[0].path).Bad?) then 0
    else 1 + TreesRead(t, excluded, markers, trees[1..])
  }

  function LocalPreserved(t: Ticket, excluded: set<string>, tombstoned: seq<string>): string -> seq<Entry> {
    (branch: string) =>
      if Matches(branch, t) && branch !in excluded && branch !in tombstoned && IsStranded(branch) then
        [LocalEntry(branch)]
      else []
  }

  function LocalHit(t: Ticket, excluded: set<string>, tombstoned: seq<string>): string -> seq<Entry> {
    (branch: string) =>
      if Matches(branch, t) && branch !in excluded && branch !in tombstoned && !IsStranded(branch) then
        [LocalEntry(branch)]
      else []
  }

  /** The error of the first marker the loop cannot read, if there is one. */
  function TreeErrors(t: Ticket, excluded: set<string>, markers: map<string, Marker>,
                      trees: seq<Tree>): (errors: seq<string>)
    ensures errors == [] <==> TreesRead(t, excluded, markers, trees) == |trees|
  {
    var n := TreesRead(t, excluded, markers, trees);
    if n == |trees| then [] else [MarkerAt(markers, trees[n].path).error]
  }

  function ItemsOf<T>(l: Listing<T>): seq<T> { if l.Listed? then l.items else [] }

  function ErrorOf<T>(l: Listing<T>): seq<string> { if l.Listed? then [] else [l.error] }

  function Tombstoned(t: Ticket, excluded: set<string>, markers: map<string, Marker>, trees: Listing<Tree>): seq<string>
  {
    Collect(Tombstone(t, excluded, markers), ReadTrees(t, excluded, markers, trees))
  }

  function ReadTrees(t: Ticket, excluded: set<string>, markers: map<string, Marker>, trees: Listing<Tree>): seq<Tree> {
    ItemsOf(trees)[..TreesRead(t, excluded, markers, ItemsOf(trees))]
  }

  function AllHits(t: Ticket, excluded: set<string>, prs: Listing<PullRequest>, remote: Listing<string>,
                   trees: Listing<Tree>, markers: map<string, Marker>, locals: Listing<string>): seq<Entry>
  {
    Collect(PrHit(t, excluded), ItemsOf(prs)) + Collect(RemoteHit(t, excluded), ItemsOf(remote))
    + Collect(TreeHit(t, excluded, markers), ReadTrees(t, excluded, markers, trees))
    + Collect(LocalHit(t, excluded, Tombstoned(t, excluded, markers, trees)), ItemsOf(locals))
  }

  function AllPreserved(t: Ticket, excluded: set<string>, remote: Listing<string>, trees: Listing<Tree>,
                        markers: map<string, Marker>, locals: Listing<string>): seq<Entry>
  {
    Collect(RemotePreserved(t), ItemsOf(remote))
    + Collect(TreePreserved(t, excluded, markers), ReadTrees(t, excluded, markers, trees))
    + Collect(LocalPreserved(t, excluded, Tombstoned(t, excluded, markers, trees)), ItemsOf(locals))
  }

  /**
   `check`, once `--self` has been accepted into the exclusions.  Every listing is attempted, whatever the
   others do.
   */
  method Check(t: Ticket, excluded: set<string>, prs: Listing<PullRequest>, remote: Listing<string>,
               trees: Listing<Tree>, markers: map<string, Marker>, locals: Listing<string>) returns (r: Report)
    ensures r.hits == AllHits(t, excluded, prs, remote, trees, markers, locals)
    ensures r.preserved == AllPreserved(t, excluded, remote, trees, markers, locals)
    ensures r.code == 3 <==> r.errors != []
    ensures r.code == 1 <==> r.errors == [] && r.hits != []
    ensures r.code == 0 <==> r.errors == [] && r.hits == []
    ensures r.errors == ReportErrors(t, excluded, prs, remote, trees, markers, locals)
    ensures r.errors == [] <==>
              && prs.Listed? && remote.Listed? && trees.Listed? && locals.Listed?
              && forall k :: 0 <= k < |trees.items| ==>
                !(TreeConcerns(t, excluded, trees.items[k]) && MarkerAt(markers, trees.items[k].path).Bad?)
  {
    var prHits := CheckPullRequests(t, excluded, ItemsOf(prs));
    var remoteHits, remotePreserved := CheckRemote(t, excluded, ItemsOf(remote));
    var treeHits, treePreserved, tombstoned, unreadable := CheckTrees(t, excluded, markers, ItemsOf(trees));
    var localHits, localPreserved := CheckLocals(t, excluded, tombstoned, ItemsOf(locals));
    var errors := ErrorOf(prs) + ErrorOf(remote) + (ErrorOf(trees) + unreadable) + ErrorOf(locals);
    var hits := prHits + remoteHits + treeHits + localHits;
    r := Report(hits, remotePreserved + treePreserved + localPreserved, errors,
                if errors != [] then 3 else if hits != [] then 1 else 0);
  }

  /**
   The errors of the listings that failed and of the first marker that could not be read, in the order of
   the listings.
   */
  function ReportErrors(t: Ticket, excluded: set<string>, prs: Listing<PullRequest>, remote: Listing<string>,
                        trees: Listing<Tree>, markers: map<string, Marker>, locals: Listing<string>): seq<string>
  {
    ErrorOf(prs) + ErrorOf(remote) + (ErrorOf(trees) + TreeErrors(t, excluded, markers, ItemsOf(trees)))
      + ErrorOf(locals)
  }

  /** A listing that failed is reported with its own error. */
  lemma FailuresReported(t: Ticket, excluded: set<string>, prs: Listing<PullRequest>, remote: Listing<string>,
                         trees: Listing<Tree>, markers: map<string, Marker>, locals: Listing<string>)
    ensures var errors := ReportErrors(t, excluded, prs, remote, trees, markers, locals);
            && (prs.Unlisted? ==> prs.error in errors) && (remote.Unlisted? ==> remote.error in errors)
            && (trees.Unlisted? ==> trees.error in errors) && (locals.Unlisted? ==> locals.error in errors)
  {
    assert prs.Unlisted? ==> ErrorOf(prs)[0] == prs.error;
    assert remote.Unlisted? ==> ErrorOf(remote)[0] == remote.error;
    assert trees.Unlisted? ==> ErrorOf(trees)[0] == trees.error;
    assert locals.Unlisted? ==> ErrorOf(locals)[0] == locals.error;
  }

  method CheckPullRequests(t: Ticket, excluded: set<string>, rows: seq<PullRequest>) returns (hits: seq<Entry>)
    ensures hits == Collect(PrHit(t, excluded), rows)
  {
    hits := [];
    for k := 0 to |rows|
      invariant hits == Collect(PrHit(t, excluded), rows[..k])
    {
      CollectStep(PrHit(t, excluded), rows, k);
      if Matches(rows[k].head, t) && rows[k].head !in excluded {
        hits := hits + [PrEntry(rows[k].number, rows[k].head)];
      }
    }
    assert rows[..|rows|] == rows;
  }

  method CheckRemote(t: Ticket, excluded: set<string>, branches: seq<string>)
    returns (hits: seq<Entry>, preserved: seq<Entry>)
    ensures hits == Collect(RemoteHit(t, excluded), branches)
    ensures preserved == Collect(RemotePreserved(t), branches)
  {
    hits, preserved := [], [];
    for k := 0 to |branches|
      invariant hits == Collect(RemoteHit(t, excluded), branches[..k])
      invariant preserved == Collect(RemotePreserved(t), branches[..k])
    {
      CollectStep(RemoteHit(t, excluded), branches, k);
      CollectStep(RemotePreserved(t), branches, k);
      var branch := branches[k];
      if IsStranded(branch) && Matches(branch[9..], t) {
        preserved := preserved + [RemoteEntry(branch)];
      } else if Matches(branch, t) && branch !in excluded {
        hits := hits + [RemoteEntry(branch)];
      }
    }
    assert branches[..|branches|] == branches;
  }

  /** The worktree loop; an unreadable marker ends it with an error. */
  method CheckTrees(t: Ticket, excluded: set<string>, markers: map<string, Marker>, trees: seq<Tree>)
    returns (hits: seq<Entry>, preserved: seq<Entry>, tombstoned: seq<string>, errors: seq<string>)
    ensures var n := TreesRead(t, excluded, markers, trees);
            && hits == Collect(TreeHit(t, excluded, markers), trees[..n])
            && preserved == Collect(TreePreserved(t, excluded, markers), trees[..n])
            && tombstoned == Collect(Tombstone(t, excluded, markers), trees[..n])
            && errors == TreeErrors(t, excluded, markers, trees)
  {
    ghost var n := TreesRead(t, excluded, markers, trees);
    hits, preserved, tombstoned, errors := [], [], [], [];
    for k := 0 to |trees|
      invariant k <= n
      invariant hits == Collect(TreeHit(t, excluded, markers), trees[..k])
      invariant preserved == Collect(TreePreserved(t, excluded, markers), trees[..k])
      invariant tombstoned == Collect(Tombstone(t, excluded, markers), trees[..k])
      invariant errors == []
    {
      CollectStep(TreeHit(t, excluded, markers), trees, k);
      CollectStep(TreePreserved(t, excluded, markers), trees, k);
      CollectStep(Tombstone(t, excluded, markers), trees, k);
      var tree := trees[k];
      if TreeConcerns(t, excluded, tree) {
        var marker := MarkerAt(markers, tree.path);
        if marker.Bad? {
          assert k == n;
          errors := [marker.error];
          return;
        }
        if IsStranded(tree.branch) || marker == Names(t) {
          preserved := preserved + [TreeEntry(tree.path, tree.branch)];
          tombstoned := tombstoned + [tree.branch];
        } else {
          hits := hits + [TreeEntry(tree.path, tree.branch)];
        }
      }
    }
  }

  method CheckLocals(t: Ticket, excluded: set<string>, tombstoned: seq<string>, branches: seq<string>)
    returns (hits: seq<Entry>, preserved: seq<Entry>)
    ensures hits == Collect(LocalHit(t, excluded, tombstoned), branches)
    ensures preserved == Collect(LocalPreserved(t, excluded, tombstoned), branches)
  {
    hits, preserved := [], [];
    for k := 0 to |branches|
      invariant hits == Collect(LocalHit(t, excluded, tombstoned), branches[..k])
      invariant preserved == Collect(LocalPreserved(t, excluded, tombstoned), branches[..k])
    {
      CollectStep(LocalHit(t, excluded, tombstoned), branches, k);
      CollectStep(LocalPreserved(t, excluded, tombstoned), branches, k);
      var branch := branches[k];
      if Matches(branch, t) && branch !in excluded && branch !in tombstoned {
        if IsStranded(branch) {
          preserved := preserved + [LocalEntry(branch)];
        } else {
          hits := hits + [LocalEntry(branch)];
        }
      }
    }
    assert branches[..|branches|] == branches;
  }

  // ----- what a report means -----

  /** The listings as one complete, readable picture. */
  datatype Evidence = Evidence(prs: seq<PullRequest>, remote: seq<string>, trees: seq<Tree>, markers: map<string,
                               Marker>, locals: seq<string>)

  ghost predicate Readable(e: Evidence, t: Ticket, excluded: set<string>) {
    forall k :: 0 <= k < |e.trees| ==>
      !(TreeConcerns(t, excluded, e.trees[k]) && MarkerAt(e.markers, e.trees[k].path).Bad?)
  }

  function HitsOf(e: Evidence, t: Ticket, excluded: set<string>): seq<Entry> {
    AllHits(t, excluded, Listed(e.prs), Listed(e.remote), Listed(e.trees), e.markers, Listed(e.locals))
  }

  /** Some worktree on this branch is preserved by its marker. */
  ghost predicate HasMarkedTree(e: Evidence, t: Ticket, branch: string) {
    exists k :: 0 <= k < |e.trees| && e.trees[k].branch == branch && TreeIsPreserved(t, e.markers, e.trees[k])
  }

  /** Something in the evidence still claims the ticket through this branch. */
  ghost predicate Claims(e: Evidence, t: Ticket, branch: string) {
    || (exists k :: 0 <= k < |e.prs| && e.prs[k].head == branch)
    || (branch in e.remote && !IsStranded(branch))
    || (exists k :: 0 <= k < |e.trees| && e.trees[k].branch == branch && !TreeIsPreserved(t, e.markers, e.trees[k]))
    || (branch in e.locals && !IsStranded(branch) && !HasMarkedTree(e, t, branch))
  }

  lemma TombstonedIff(e: Evidence, t: Ticket, excluded: set<string>, branch: string)
    requires Readable(e, t, excluded) && Matches(branch, t) && branch !in excluded
    ensures branch in Tombstoned(t, excluded, e.markers, Listed(e.trees)) <==> HasMarkedTree(e, t, branch)
  {
    assert e.trees[..|e.trees|] == e.trees;
    CollectMember(Tombstone(t, excluded, e.markers), e.trees, branch);
    if HasMarkedTree(e, t, branch) {
      var k :| 0 <= k < |e.trees| && e.trees[k].branch == branch && TreeIsPreserved(t, e.markers, e.trees[k]);
      assert branch in Tombstone(t, excluded, e.markers)(e.trees[k]);
    }
  }

  ghost predicate NamedIn(entries: seq<Entry>, branch: string) {
    exists k :: 0 <= k < |entries| && entries[k].branch == branch
  }

  /** An entry of the collection names the branch exactly when some item contributes such an entry. */
  lemma CollectNames<A>(f: A -> seq<Entry>, items: seq<A>, branch: string)
    requires forall i :: 0 <= i < |items| ==> |f(items[i])| <= 1
    ensures NamedIn(Collect(f, items), branch) <==> exists i :: 0 <= i < |items| && Contributes(f, items[i], branch)
  {
    var all := Collect(f, items);
    if NamedIn(all, branch) {
      var k :| 0 <= k < |all| && all[k].branch == branch;
      CollectMember(f, items, all[k]);
      var i :| 0 <= i < |items| && all[k] in f(items[i]);
      assert Contributes(f, items[i], branch);
    }
    if exists i :: 0 <= i < |items| && Contributes(f, items[i], branch) {
      var i :| 0 <= i < |items| && Contributes(f, items[i], branch);
      CollectMember(f, items, f(items[i])[0]);
      var k :| 0 <= k < |all| && all[k] == f(items[i])[0];
    }
  }

  ghost predicate Contributes<A>(f: A -> seq<Entry>, item: A, branch: string) {
    |f(item)| == 1 && f(item)[0].branch == branch
  }

  lemma NamedInAppend(a: seq<Entry>, b: seq<Entry>, branch: string)
    ensures NamedIn(a + b, branch) <==> NamedIn(a, branch) || NamedIn(b, branch)
  {
    if NamedIn(a, branch) {
      var k :| 0 <= k < |a| && a[k].branch == branch;
      assert (a + b)[k].branch == branch;
    }
    if NamedIn(b, branch) {
      var k :| 0 <= k < |b| && b[k].branch == branch;
      assert (a + b)[|a| + k].branch == branch;
    }
    if NamedIn(a + b, branch) {
      var k :| 0 <= k < |a + b| && (a + b)[k].branch == branch;
      assert if k < |a| then a[k].branch == branch else b[k - |a|].branch == branch;
    }
  }

  lemma PrNames(e: Evidence, t: Ticket, excluded: set<string>, branch: string)
    ensures NamedIn(Collect(PrHit(t, excluded), e.prs), branch)
       <==> Matches(branch, t) && branch !in excluded && exists k :: 0 <= k < |e.prs| && e.prs[k].head == branch
  {
    var f := PrHit(t, excluded);
    CollectNames(f, e.prs, branch);
    forall k | 0 <= k < |e.prs|
      ensures Contributes(f, e.prs[k], branch) <==> Matches(branch, t) && branch !in excluded && e.prs[k].head == branch
    {
    }
  }

  /** A stranded remote branch is never a hit, because the prefix does not change what it matches. */
  lemma RemoteNames(e: Evidence, t: Ticket, excluded: set<string>, branch: string)
    requires IsTicket(t)
    ensures NamedIn(Collect(RemoteHit(t, excluded), e.remote), branch)
       <==> Matches(branch, t) && branch !in excluded && branch in e.remote && !IsStranded(branch)
  {
    var f := RemoteHit(t, excluded);
    CollectNames(f, e.remote, branch);
    if IsStranded(branch) {
      assert branch == STRANDED + branch[9..];
      PrefixInert(branch[9..], t);
    }
    forall k | 0 <= k < |e.remote|
      ensures Contributes(f, e.remote[k], branch)
              <==> Matches(branch, t) && branch !in excluded && !IsStranded(branch) && e.remote[k] == branch
    {
    }
  }

  lemma TreeNames(e: Evidence, t: Ticket, excluded: set<string>, branch: string)
    ensures NamedIn(Collect(TreeHit(t, excluded, e.markers), e.trees), branch)
       <==> && Matches(branch, t) && branch !in excluded
            && (exists k :: 0 <= k < |e.trees| && e.trees[k].branch == branch
                         && !TreeIsPreserved(t, e.markers, e.trees[k]))
  {
    var f := TreeHit(t, excluded, e.markers);
    CollectNames(f, e.trees, branch);
    forall k | 0 <= k < |e.trees|
      ensures Contributes(f, e.trees[k], branch)
         <==> && Matches(branch, t) && branch !in excluded && e.trees[k].branch == branch
              && !TreeIsPreserved(t, e.markers, e.trees[k])
    {
    }
  }

  lemma LocalNames(e: Evidence, t: Ticket, excluded: set<string>, tombstoned: seq<string>, branch: string)
    ensures NamedIn(Collect(LocalHit(t, excluded, tombstoned), e.locals), branch)
       <==> && Matches(branch, t) && branch !in excluded && branch !in tombstoned && branch in e.locals
            && !IsStranded(branch)
  {
    var f := LocalHit(t, excluded, tombstoned);
    CollectNames(f, e.locals, branch);
    forall k | 0 <= k < |e.locals|
      ensures Contributes(f, e.locals[k], branch)
         <==> && Matches(branch, t) && branch !in excluded && branch !in tombstoned && !IsStranded(branch)
              && e.locals[k] == branch
    {
    }
  }

  /**
   A complete report names a branch as in flight exactly when the branch matches the ticket, is not
   excluded, and some listing still claims it.
   */
  lemma HitIffClaimed(e: Evidence, t: Ticket, excluded: set<string>, branch: string)
    requires IsTicket(t) && Readable(e, t, excluded)
    ensures NamedIn(HitsOf(e, t, excluded), branch)
            <==> Matches(branch, t) && branch !in excluded && Claims(e, t, branch)
  {
    var tombstoned := Tombstoned(t, excluded, e.markers, Listed(e.trees));
    assert e.trees[..|e.trees|] == e.trees;
    var a, b, c, d := Collect(PrHit(t, excluded), e.prs), Collect(RemoteHit(t, excluded), e.remote),
                      Collect(TreeHit(t, excluded, e.markers), e.trees),
                      Collect(LocalHit(t, excluded, tombstoned), e.locals);
    assert HitsOf(e, t, excluded) == a + b + c + d;
    NamedInAppend(a, b, branch);
    NamedInAppend(a + b, c, branch);
    NamedInAppend(a + b + c, d, branch);
    PrNames(e, t, excluded, branch);
    RemoteNames(e, t, excluded, branch);
    TreeNames(e, t, excluded, branch);
    LocalNames(e, t, excluded, tombstoned, branch);
    if Matches(branch, t) && branch !in excluded {
      TombstonedIff(e, t, excluded, branch);
    }
  }

  // ----- every entry of a complete report -----

  /** A worktree whose marker names the ticket. */
  predicate Marked(e: Evidence, path: string, t: Ticket) {
    path in e.markers && e.markers[path] == Names(t)
  }

  /** Some worktree on this branch is preserved, by its name or by its marker. */
  ghost predicate Buried(e: Evidence, t: Ticket, branch: string) {
    exists k :: 0 <= k < |e.trees| && e.trees[k].branch == branch
                && ("stranded/" <= branch || Marked(e, e.trees[k].path, t))
  }

  function PreservedOf(e: Evidence, t: Ticket, excluded: set<string>): seq<Entry> {
    AllPreserved(t, excluded, Listed(e.remote), Listed(e.trees), e.markers, Listed(e.locals))
  }

  /** When only one item can contribute the entry, the collection has it exactly if it has that item and it does. */
  lemma CollectOnly<A>(f: A -> seq<Entry>, items: seq<A>, item: A, entry: Entry)
    requires forall i :: 0 <= i < |items| && entry in f(items[i]) ==> items[i] == item
    ensures entry in Collect(f, items) <==> item in items && entry in f(item)
  {
    CollectMember(f, items, entry);
    if item in items && entry in f(item) {
      var k :| 0 <= k < |items| && items[k] == item;
      assert entry in f(items[k]);
    }
  }

  /** The pull requests a complete report holds, each by its number and branch. */
  lemma PrEntryIff(e: Evidence, t: Ticket, excluded: set<string>, number: int, branch: string)
    requires Readable(e, t, excluded)
    ensures PrEntry(number, branch) in HitsOf(e, t, excluded)
       <==> Matches(branch, t) && branch !in excluded && PullRequest(number, branch) in e.prs
    ensures PrEntry(number, branch) !in PreservedOf(e, t, excluded)
  {
    HitsApart(e, t, excluded, PrEntry(number, branch));
    PreservedApart(e, t, excluded, PrEntry(number, branch));
    CollectOnly(PrHit(t, excluded), e.prs, PullRequest(number, branch), PrEntry(number, branch));
  }

  /** The remote branches: stranded ones are preserved, whatever is excluded, and the others are hits. */
  lemma RemoteEntryIff(e: Evidence, t: Ticket, excluded: set<string>, branch: string)
    requires IsTicket(t) && Readable(e, t, excluded)
    ensures RemoteEntry(branch) in HitsOf(e, t, excluded)
       <==> Matches(branch, t) && branch !in excluded && branch in e.remote && !("stranded/" <= branch)
    ensures RemoteEntry(branch) in PreservedOf(e, t, excluded)
       <==> Matches(branch, t) && branch in e.remote && "stranded/" <= branch
  {
    HitsApart(e, t, excluded, RemoteEntry(branch));
    PreservedApart(e, t, excluded, RemoteEntry(branch));
    RemoteCollected(e, t, excluded, branch);
  }

  lemma RemoteCollected(e: Evidence, t: Ticket, excluded: set<string>, branch: string)
    requires IsTicket(t)
    ensures RemoteEntry(branch) in Collect(RemoteHit(t, excluded), e.remote)
       <==> Matches(branch, t) && branch !in excluded && branch in e.remote && !("stranded/" <= branch)
    ensures RemoteEntry(branch) in Collect(RemotePreserved(t), e.remote)
       <==> Matches(branch, t) && branch in e.remote && "stranded/" <= branch
  {
    CollectOnly(RemoteHit(t, excluded), e.remote, branch, RemoteEntry(branch));
    CollectOnly(RemotePreserved(t), e.remote, branch, RemoteEntry(branch));
    if IsStranded(branch) {
      assert branch == STRANDED + branch[9..];
      PrefixInert(branch[9..], t);
    }
  }

  /** The worktrees: preserved by a stranded name or a marker that names the ticket, and hits otherwise. */
  lemma TreeEntryIff(e: Evidence, t: Ticket, excluded: set<string>, path: string, branch: string)
    requires Readable(e, t, excluded)
    ensures TreeEntry(path, branch) in HitsOf(e, t, excluded)
       <==> && Matches(branch, t) && branch !in excluded && Tree(path, branch) in e.trees
            && !("stranded/" <= branch || Marked(e, path, t))
    ensures TreeEntry(path, branch) in PreservedOf(e, t, excluded)
       <==> && Matches(branch, t) && branch !in excluded && Tree(path, branch) in e.trees
            && ("stranded/" <= branch || Marked(e, path, t))
  {
    HitsApart(e, t, excluded, TreeEntry(path, branch));
    PreservedApart(e, t, excluded, TreeEntry(path, branch));
    TreeCollectedHit(e, t, excluded, path, branch);
    TreeCollectedPreserved(e, t, excluded, path, branch);
  }

  lemma TreeCollectedHit(e: Evidence, t: Ticket, excluded: set<string>, path: string, branch: string)
    ensures TreeEntry(path, branch) in Collect(TreeHit(t, excluded, e.markers), e.trees)
       <==> && Matches(branch, t) && branch !in excluded && Tree(path, branch) in e.trees
            && !("stranded/" <= branch || Marked(e, path, t))
  {
    CollectOnly(TreeHit(t, excluded, e.markers), e.trees, Tree(path, branch), TreeEntry(path, branch));
  }

  lemma TreeCollectedPreserved(e: Evidence, t: Ticket, excluded: set<string>, path: string, branch: string)
    ensures TreeEntry(path, branch) in Collect(TreePreserved(t, excluded, e.markers), e.trees)
       <==> && Matches(branch, t) && branch !in excluded && Tree(path, branch) in e.trees
            && ("stranded/" <= branch || Marked(e, path, t))
  {
    CollectOnly(TreePreserved(t, excluded, e.markers), e.trees, Tree(path, branch), TreeEntry(path, branch));
  }

  /**
   The local branches: left out if a preserved worktree is on them, else preserved if stranded, and hits
   otherwise.
   */
  lemma LocalEntryIff(e: Evidence, t: Ticket, excluded: set<string>, branch: string)
    requires Readable(e, t, excluded)
    ensures LocalEntry(branch) in HitsOf(e, t, excluded)
       <==> && Matches(branch, t) && branch !in excluded && branch in e.locals
            && !Buried(e, t, branch) && !("stranded/" <= branch)
    ensures LocalEntry(branch) in PreservedOf(e, t, excluded)
       <==> && Matches(branch, t) && branch !in excluded && branch in e.locals
            && !Buried(e, t, branch) && "stranded/" <= branch
  {
    var tombstoned := Tombstoned(t, excluded, e.markers, Listed(e.trees));
    HitsApart(e, t, excluded, LocalEntry(branch));
    PreservedApart(e, t, excluded, LocalEntry(branch));
    LocalCollected(t, excluded, tombstoned, e.locals, branch);
    if Matches(branch, t) && branch !in excluded {
      BuriedIsTombstoned(e, t, excluded, branch);
    }
  }

  lemma LocalCollected(t: Ticket, excluded: set<string>, tombstoned: seq<string>, locals: seq<string>, branch: string)
    ensures LocalEntry(branch) in Collect(LocalHit(t, excluded, tombstoned), locals)
       <==> && Matches(branch, t) && branch !in excluded && branch in locals
            && branch !in tombstoned && !("stranded/" <= branch)
    ensures LocalEntry(branch) in Collect(LocalPreserved(t, excluded, tombstoned), locals)
       <==> && Matches(branch, t) && branch !in excluded && branch in locals
            && branch !in tombstoned && "stranded/" <= branch
  {
    CollectOnly(LocalHit(t, excluded, tombstoned), locals, branch, LocalEntry(branch));
    CollectOnly(LocalPreserved(t, excluded, tombstoned), locals, branch, LocalEntry(branch));
  }

  lemma BuriedIsTombstoned(e: Evidence, t: Ticket, excluded: set<string>, branch: string)
    requires Readable(e, t, excluded) && Matches(branch, t) && branch !in excluded
    ensures Buried(e, t, branch) <==> branch in Tombstoned(t, excluded, e.markers, Listed(e.trees))
  {
    TombstonedIff(e, t, excluded, branch);
    BuriedIff(e, t, branch);
  }

  lemma BuriedIff(e: Evidence, t: Ticket, branch: string)
    ensures Buried(e, t, branch) <==> HasMarkedTree(e, t, branch)
  {
    forall k | 0 <= k < |e.trees| && e.trees[k].branch == branch
      ensures TreeIsPreserved(t, e.markers, e.trees[k]) <==> "stranded/" <= branch || Marked(e, e.trees[k].path, t)
    {
    }
  }

  /** Each listing contributes entries of its own kind. */
  lemma HitKinds(e: Evidence, t: Ticket, excluded: set<string>, tombstoned: seq<string>, entry: Entry)
    ensures entry in Collect(PrHit(t, excluded), e.prs) ==> entry.PrEntry?
    ensures entry in Collect(RemoteHit(t, excluded), e.remote) ==> entry.RemoteEntry?
    ensures entry in Collect(LocalHit(t, excluded, tombstoned), e.locals) ==> entry.LocalEntry?
  {
    CollectMember(PrHit(t, excluded), e.prs, entry);
    CollectMember(RemoteHit(t, excluded), e.remote, entry);
    CollectMember(LocalHit(t, excluded, tombstoned), e.locals, entry);
  }

  lemma TreeKinds(e: Evidence, t: Ticket, excluded: set<string>, entry: Entry)
    ensures entry in Collect(TreeHit(t, excluded, e.markers), e.trees) ==> entry.TreeEntry?
    ensures entry in Collect(TreePreserved(t, excluded, e.markers), e.trees) ==> entry.TreeEntry?
  {
    CollectMember(TreeHit(t, excluded, e.markers), e.trees, entry);
    CollectMember(TreePreserved(t, excluded, e.markers), e.trees, entry);
  }

  lemma PreservedKinds(e: Evidence, t: Ticket, excluded: set<string>, tombstoned: seq<string>, entry: Entry)
    ensures entry in Collect(RemotePreserved(t), e.remote) ==> entry.RemoteEntry?
    ensures entry in Collect(LocalPreserved(t, excluded, tombstoned), e.locals) ==> entry.LocalEntry?
  {
    CollectMember(RemotePreserved(t), e.remote, entry);
    CollectMember(LocalPreserved(t, excluded, tombstoned), e.locals, entry);
  }

  /** An entry of one kind can only come from the listing of that kind. */
  lemma HitsApart(e: Evidence, t: Ticket, excluded: set<string>, entry: Entry)
    requires Readable(e, t, excluded)
    ensures entry in HitsOf(e, t, excluded) <==> entry in HitsOfKind(e, t, excluded, entry)
  {
    var tombstoned := Tombstoned(t, excluded, e.markers, Listed(e.trees));
    assert e.trees[..|e.trees|] == e.trees;
    HitKinds(e, t, excluded, tombstoned, entry);
    TreeKinds(e, t, excluded, entry);
    InFour(Collect(PrHit(t, excluded), e.prs), Collect(RemoteHit(t, excluded), e.remote),
           Collect(TreeHit(t, excluded, e.markers), e.trees), Collect(LocalHit(t, excluded, tombstoned), e.locals),
           entry);
  }

  lemma InFour(a: seq<Entry>, b: seq<Entry>, c: seq<Entry>, d: seq<Entry>, entry: Entry)
    ensures entry in a + b + c + d <==> entry in a || entry in b || entry in c || entry in d
  {
  }

  /** The hits of the listing an entry like this one comes from. */
  function HitsOfKind(e: Evidence, t: Ticket, excluded: set<string>, entry: Entry): seq<Entry> {
    match entry
    case PrEntry(_, _) => Collect(PrHit(t, excluded), e.prs)
    case RemoteEntry(_) => Collect(RemoteHit(t, excluded), e.remote)
    case TreeEntry(_, _) => Collect(TreeHit(t, excluded, e.markers), e.trees)
    case LocalEntry(_) => Collect(LocalHit(t, excluded, Tombstoned(t, excluded, e.markers, Listed(e.trees))), e.locals)
  }

  lemma PreservedApart(e: Evidence, t: Ticket, excluded: set<string>, entry: Entry)
    requires Readable(e, t, excluded)
    ensures entry in PreservedOf(e, t, excluded) <==> entry in PreservedOfKind(e, t, excluded, entry)
  {
    var tombstoned := Tombstoned(t, excluded, e.markers, Listed(e.trees));
    assert e.trees[..|e.trees|] == e.trees;
    PreservedKinds(e, t, excluded, tombstoned, entry);
    TreeKinds(e, t, excluded, entry);
    InThree(Collect(RemotePreserved(t), e.remote), Collect(TreePreserved(t, excluded, e.markers), e.trees),
            Collect(LocalPreserved(t, excluded, tombstoned), e.locals), entry);
  }

  lemma InThree(a: seq<Entry>, b: seq<Entry>, c: seq<Entry>, entry: Entry)
    ensures entry in a + b + c <==> entry in a || entry in b || entry in c
  {
  }

  function PreservedOfKind(e: Evidence, t: Ticket, excluded: set<string>, entry: Entry): seq<Entry> {
    match entry
    case PrEntry(_, _) => []
    case RemoteEntry(_) => Collect(RemotePreserved(t), e.remote)
    case TreeEntry(_, _) => Collect(TreePreserved(t, excluded, e.markers), e.trees)
    case LocalEntry(_) =>
      Collect(LocalPreserved(t, excluded, Tombstoned(t, excluded, e.markers, Listed(e.trees))), e.locals)
  }
}
