/**
 Catalog discovery: crawl containers, their tables and their columns, tolerating the failure of a
 single container or table but never losing track of it.
 */
module Catalog {
  import opened Chars
  import opened Options
  import opened Splitting
  import opened StreamEvents
  import opened Executor

  datatype CatalogColumn = CatalogColumn(name: string, nativeType: string, description: Option<string>)
  datatype CatalogTable = CatalogTable(name: string, nativeType: string, columns: seq<CatalogColumn>)
  datatype CatalogContainer = CatalogContainer(name: string, tables: seq<CatalogTable>)

  datatype TableName = TableName(name: string, tableType: string)

  /** The database's answers: the tables of the i-th crawled container, the columns of its j-th table. */
  datatype Database = Database(tables: nat -> Attempt<seq<TableName>>,
                               columns: (nat, nat) -> Attempt<seq<CatalogColumn>>)

  datatype Outcome =
    | Catalog(containers: seq<CatalogContainer>, errors: seq<string>)
    | NotListed(message: string)
    | EveryContainerFailed(attempted: nat, errors: seq<string>)

  // ----- scope -----

  predicate Requested(scope: Option<seq<string>>, name: string) {
    scope.None? || scope.value == [] || exists k :: 0 <= k < |scope.value| && EqIgnoreCase(scope.value[k], name)
  }

  /** `filter_containers_to_scope` */
  function FilterContainersToScope(containers: seq<string>, scope: Option<seq<string>>): seq<string> {
    if containers == [] then []
    else Wanted(containers[0], scope) + FilterContainersToScope(containers[1..], scope)
  }

  function Wanted(name: string, scope: Option<seq<string>>): seq<string> {
    if Requested(scope, name) then [name] else []
  }

  /** Exactly the requested containers survive; an absent or empty scope keeps every one of them. */
  lemma {:induction false} FilterKeepsRequested(containers: seq<string>, scope: Option<seq<string>>, name: string)
    ensures name in FilterContainersToScope(containers, scope)
       <==> && name in containers
            && (scope.None? || scope.value == []
                || exists k :: 0 <= k < |scope.value| && EqIgnoreCase(scope.value[k], name))
    ensures scope.None? || scope.value == [] ==> FilterContainersToScope(containers, scope) == containers
  {
    if containers != [] {
      assert containers == [containers[0]] + containers[1..];
      FilterKeepsRequested(containers[1..], scope, name);
    }
  }

  /** Containers are kept or dropped one by one, in order. */
  lemma {:induction false} FilterAppend(a: seq<string>, b: seq<string>, scope: Option<seq<string>>)
    ensures FilterContainersToScope(a + b, scope)
            == FilterContainersToScope(a, scope) + FilterContainersToScope(b, scope)
  {
    if a == [] {
      assert a + b == b;
    } else {
      FilterAppend(a[1..], b, scope);
      assert (a + b)[0] == a[0] && (a + b)[1..] == a[1..] + b;
      Associative(Wanted(a[0], scope), FilterContainersToScope(a[1..], scope), FilterContainersToScope(b, scope));
    }
  }

  // ----- the accounts -----

  /** The tables of container `i` among its first `n` that survive, and the errors of the others. */
  function KeptTables(db: Database, i: nat, listed: seq<TableName>, n: nat): seq<CatalogTable>
    requires n <= |listed|
  {
    if n == 0 then []
    else KeptTables(db, i, listed, n - 1) +
         if db.columns(i, n - 1).Ok? then
           [CatalogTable(listed[n - 1].name, listed[n - 1].tableType, db.columns(i, n - 1).value)] else []
  }

  function TableErrors(db: Database, i: nat, n: nat): seq<string> {
    if n == 0 then []
    else TableErrors(db, i, n - 1) + if db.columns(i, n - 1).Err? then [db.columns(i, n - 1).message] else []
  }

  /** The containers among the first `n` that survive, each with its surviving tables. */
  function KeptContainers(db: Database, names: seq<string>, n: nat): seq<CatalogContainer>
    requires n <= |names|
  {
    if n == 0 then []
    else KeptContainers(db, names, n - 1) +
         match db.tables(n - 1)
         case Ok(listed) => [CatalogContainer(names[n - 1], KeptTables(db, n - 1, listed, |listed|))]
         case Err(_) => []
  }

  /** One error for a container whose listing failed; otherwise one for each of its tables that failed. */
  function ErrorsOf(db: Database, i: nat): seq<string> {
    match db.tables(i)
    case Ok(listed) => TableErrors(db, i, |listed|)
    case Err(message) => [message]
  }

  function AllErrors(db: Database, n: nat): seq<string> {
    if n == 0 then [] else AllErrors(db, n - 1) + ErrorsOf(db, n - 1)
  }

  /** `handle_discover_catalog` */
  method DiscoverCatalog(discovered: Attempt<seq<string>>, scope: Option<seq<string>>, containersOnly: bool,
                         db: Database) returns (outcome: Outcome)
    ensures discovered.Err? ==> outcome == NotListed(discovered.message)
    ensures discovered.Ok? ==>
              var names := FilterContainersToScope(discovered.value, scope);
              if containersOnly then
                outcome == Catalog(seq(|names|, i requires 0 <= i < |names| => CatalogContainer(names[i], [])), [])
              else if |names| > 0 && (forall i :: 0 <= i < |names| ==> db.tables(i).Err?) then
                outcome == EveryContainerFailed(|names|, AllErrors(db, |names|))
              else
                outcome == Catalog(KeptContainers(db, names, |names|), AllErrors(db, |names|))
  {
    if discovered.Err? {
      return NotListed(discovered.message);
    }
    var names := FilterContainersToScope(discovered.value, scope);
    if containersOnly {
      return Catalog(seq(|names|, i requires 0 <= i < |names| => CatalogContainer(names[i], [])), []);
    }
    var containers, errors := CrawlContainers(names, db);
    AllFailedIffEmpty(db, names, |names|);
    if names != [] && containers == [] {
      return EveryContainerFailed(|names|, errors);
    }
    return Catalog(containers, errors);
  }

  /** The crawl over the containers in scope. */
  method CrawlContainers(names: seq<string>, db: Database)
    returns (containers: seq<CatalogContainer>, errors: seq<string>)
    ensures containers == KeptContainers(db, names, |names|)
    ensures errors == AllErrors(db, |names|)
  {
    containers, errors := [], [];
    for i := 0 to |names|
      invariant containers == KeptContainers(db, names, i)
      invariant errors == AllErrors(db, i)
    {
      var tables := db.tables(i);
      if tables.Err? {
        errors := errors + [tables.message];
      } else {
        var kept;
        kept, errors := CrawlTables(i, tables.value, db, errors);
        containers := containers + [CatalogContainer(names[i], kept)];
      }
    }
  }

  /** The crawl over one container's tables; errors are pushed onto the crawl's list. */
  method CrawlTables(i: nat, listed: seq<TableName>, db: Database, before: seq<string>)
    returns (kept: seq<CatalogTable>, errors: seq<string>)
    ensures kept == KeptTables(db, i, listed, |listed|)
    ensures errors == before + TableErrors(db, i, |listed|)
  {
    kept, errors := [], before;
    for j := 0 to |listed|
      invariant kept == KeptTables(db, i, listed, j)
      invariant errors == before + TableErrors(db, i, j)
    {
      var columns := db.columns(i, j);
      if columns.Err? {
        assert before + (TableErrors(db, i, j) + [columns.message]) == errors + [columns.message];
        errors := errors + [columns.message];
      } else {
        kept := kept + [CatalogTable(listed[j].name, listed[j].tableType, columns.value)];
      }
    }
  }

  lemma {:induction false} AllFailedIffEmpty(db: Database, names: seq<string>, n: nat)
    requires n <= |names|
    ensures KeptContainers(db, names, n) == [] <==> forall k :: 0 <= k < n ==> db.tables(k).Err?
  {
    if n > 0 {
      AllFailedIffEmpty(db, names, n - 1);
    }
  }

  // ----- nothing is lost, nothing is counted twice -----

  function FailedContainers(db: Database, n: nat): nat {
    if n == 0 then 0 else FailedContainers(db, n - 1) + if db.tables(n - 1).Err? then 1 else 0
  }

  function FailedTablesIn(db: Database, i: nat, n: nat): nat {
    if n == 0 then 0 else FailedTablesIn(db, i, n - 1) + if db.columns(i, n - 1).Err? then 1 else 0
  }

  function FailedTables(db: Database, n: nat): nat {
    if n == 0 then 0
    else
      FailedTables(db, n - 1)
      + if db.tables(n - 1).Ok? then FailedTablesIn(db, n - 1, |db.tables(n - 1).value|) else 0
  }

  lemma {:induction false} TableAccounts(db: Database, i: nat, listed: seq<TableName>, n: nat)
    requires n <= |listed|
    ensures |KeptTables(db, i, listed, n)| + FailedTablesIn(db, i, n) == n
    ensures |TableErrors(db, i, n)| == FailedTablesIn(db, i, n)
  {
    if n > 0 {
      TableAccounts(db, i, listed, n - 1);
    }
  }

  /**
   Every container is in the result or failed, and the errors are one per failed container and one per
   failed table.
   */
  lemma {:induction false} ContainerAccounts(db: Database, names: seq<string>, n: nat)
    requires n <= |names|
    ensures |KeptContainers(db, names, n)| + FailedContainers(db, n) == n
    ensures |AllErrors(db, n)| == FailedContainers(db, n) + FailedTables(db, n)
  {
    if n > 0 {
      ContainerAccounts(db, names, n - 1);
      if db.tables(n - 1).Ok? {
        var listed := db.tables(n - 1).value;
        TableAccounts(db, n - 1, listed, |listed|);
      }
    }
  }

  /**
   A surviving container sits in the result after exactly the earlier ones that survived, with its own
   name and tables; so the result keeps the crawl's order.
   */
  lemma {:induction false} ContainerInPlace(db: Database, names: seq<string>, i: nat, n: nat)
    requires i < n <= |names| && db.tables(i).Ok?
    ensures var at := i - FailedContainers(db, i);
            && 0 <= at < |KeptContainers(db, names, n)|
            && KeptContainers(db, names, n)[at]
               == CatalogContainer(names[i], KeptTables(db, i, db.tables(i).value, |db.tables(i).value|))
  {
    ContainerAccounts(db, names, n - 1);
    if i < n - 1 {
      ContainerInPlace(db, names, i, n - 1);
    }
  }

  /** The same for a listed table of a surviving container whose columns were found. */
  lemma {:induction false} TableInPlace(db: Database, i: nat, listed: seq<TableName>, j: nat, n: nat)
    requires j < n <= |listed| && db.columns(i, j).Ok?
    ensures var at := j - FailedTablesIn(db, i, j);
            && 0 <= at < |KeptTables(db, i, listed, n)|
            && KeptTables(db, i, listed, n)[at]
              == CatalogTable(listed[j].name, listed[j].tableType, db.columns(i, j).value)
  {
    TableAccounts(db, i, listed, n - 1);
    if j < n - 1 {
      TableInPlace(db, i, listed, j, n - 1);
    }
  }

  /** A container whose listing failed contributes exactly its one error, after all errors of earlier containers. */
  lemma {:induction false} ContainerErrorInPlace(db: Database, i: nat, n: nat)
    requires i < n && db.tables(i).Err?
    ensures var at := |AllErrors(db, i)|;
            at < |AllErrors(db, n)| && AllErrors(db, n)[at] == db.tables(i).message && |AllErrors(db, i + 1)| == at + 1
  {
    if i < n - 1 {
      ContainerErrorInPlace(db, i, n - 1);
    }
  }

  /** A failed table of a surviving container contributes exactly its one error, in its place among that container's. */
  lemma {:induction false} TableErrorInPlace(db: Database, i: nat, j: nat, n: nat)
    requires i < n && db.tables(i).Ok? && j < |db.tables(i).value| && db.columns(i, j).Err?
    ensures var at := |AllErrors(db, i)| + |TableErrors(db, i, j)|;
            at < |AllErrors(db, n)| && AllErrors(db, n)[at] == db.columns(i, j).message
  {
    if i < n - 1 {
      TableErrorInPlace(db, i, j, n - 1);
    } else {
      ErrorAmongTables(db, i, j, |db.tables(i).value|);
    }
  }

  lemma {:induction false} ErrorAmongTables(db: Database, i: nat, j: nat, n: nat)
    requires j < n && db.columns(i, j).Err?
    ensures |TableErrors(db, i, j)| < |TableErrors(db, i, n)|
    ensures TableErrors(db, i, n)[|TableErrors(db, i, j)|] == db.columns(i, j).message
  {
    if j < n - 1 {
      ErrorAmongTables(db, i, j, n - 1);
    }
  }
}
