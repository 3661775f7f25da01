# Verification of the pREST SQL compiler and its stateful parts

pREST turns HTTP requests into PostgreSQL text plus a list of positional arguments. This
project models that small compiler and the stateful parts around it, and proves what each
part is for. Run `dafny verify dfyconfig.toml` in this directory.

How it is laid out:

- `Text`, `SqlLexer`, `SqlCondition`: the `strings` and `strconv` calls the code makes; the
  reading side, that is PostgreSQL's lexical rules (manual section 4.1), operator precedence
  (section 4.1.6) and three-valued logic (section 9.1). Text is read back by this lexer and
  parser, which know nothing of the code that printed it.
- `Ident`, `Filter`, `FilterTokens`, `FilterReading`, `OrGroup`, `Scope`, `Where`,
  `WhereReading`, `WhereMeaning`, `WhereOrder`, `WhereRequests`, `WhereMisreads`, `Operators`:
  identifiers, the filter compiler, the splitter of `_or` groups and the identity scope. A filter is first given as
  data without placeholder numbers; the methods that print it, with their loops and running
  placeholder number, are proved equal to printing that data; then the printed text is proved
  to be read as what the data asks for. `WhereRequests` says which filters a query string asks
  for, `Operators` what each operator name compares, both without the functions the printing
  methods are specified by.
- `Statements`, `SchemaListing`, `Inserts`, `ScopeSafety`, `Batch`, `BatchLayouts`, `OrderBy`,
  `Paging`, `ArrayLiteral`, `TemplateRegistry`: statements composed of several clauses, inserts,
  batches, array literals, ORDER BY, paging and the template placeholder allocator.
- `Pool`, `PoolRuns`, `StmtCache`, `StmtCacheRuns`: the connection pool and the prepared-statement
  cache. The classes hold the critical sections; the `Runs` modules interleave them, one small
  step at a time, for any number of goroutines.
- `Workspaces`, `WorkspaceRuns`, `WorkspaceEffects`: the tenant, membership and invite handlers as methods of a
  class, each proved to be one step of a state machine, what holds over whole runs of it, and
  what each step does to the rows and by whose right, said on the rows alone.

## What turned out otherwise than the code or its comments say

- Filters do not always mean what they say. A text-search field is printed bare, so a field with
  a capital letter or named like a reserved word is read as something else, and a configured scope
  column that is no identifier leaves the left side of its comparison empty
  (`WhereMisreads`). `WhereMeaning.WhereReadsIff` gives the exact condition, and
  `WhereMeaning.WhereReadsAs` what is read instead.
- Every match of the operator expression in a value is deleted, not only a leading one, so
  `$eq.cost$usd.x` compares with `costx`; `Filter.ValueSurvivesIff` says when a value is kept. What a
  filter means is taken after that deletion.
- Inserts are forced into the read scope only when there is a user id. A request with a tenant but no
  user id reads within its tenant and writes wherever it likes (`ScopeSafety.WriteOutOfScope`);
  `ScopeSafety.WritesLandIff` is the exact condition.
- Account closure deletes every tenant the caller belongs to, not only those of which the caller is
  the sole member as the comment at controllers/account.go:102-105 says: the subquery keeps only
  the caller's own rows before it groups them (`WorkspaceRuns.ClosureDeletes`,
  `WorkspaceRuns.ClosureSoleIff`, `WorkspaceRuns.ClosureDeletesShared`).
- Accepting an invite overwrites the role, so the only owner of a tenant can become a viewer
  (`WorkspaceRuns.OwnerCanBeLost`); `WorkspaceRuns.RunOwnersIff` says when owners are never lost.
- A connection name can come to mean another connection, and `AddURI` can return a connection to
  another DSN than the one it was given (`PoolRuns.NameRebinds`, `PoolRuns.OtherDsnIff`,
  `PoolRuns.NamesMissed`).
- The prepared-statement cache is keyed by text alone, so with two database handles it hands out
  statements of the wrong one (`StmtCacheRuns.InvisibleIff`).
- COPY loses column names that contain commas, and VALUES names other columns than the keys when
  a key needs escaping, because keys are quoted as Go strings (`BatchLayouts.BatchLayoutsAgree`).
- The least machine integer as page number is not turned into page 1 (`Paging.FirstPageIff`).

## Model

| member | source | states |
|---|---|---|
| Ident.ValidExactly | internal/ident/ident.go:10-22 | a name is accepted exactly when it is a dotted path whose segments have 1 to 63 characters of the allowed alphabet and start with a letter or underscore |
| Ident.Quote | internal/ident/ident.go:42-51 | quotes accepted names as the delimited form of their path and refuses all others |
| Ident.HandQuotedIsQuote | adapters/postgres/postgres.go:535-536 | the quoting written out by hand for filters and SET gives what `Quote` gives |
| Ident.QuoteRoundTrip | internal/ident/ident.go:42-51 | reading the quoted form with SQL's rules for delimited identifiers gives the segments of the name |
| Ident.QuoteInjective | internal/ident/ident.go:42-51 | two names with the same quoted form are the same name |
| ArrayLiteral.FormatArray | adapters/postgres/formatters/formatters.go:11-52 | prints the nested list as its array literal, whatever its nesting, and never drops a comma |
| ArrayLiteral.TwoReplacementsEscape | adapters/postgres/formatters/formatters.go:11-52 | the two whole-string replacements, one after the other, escape each backslash and quote once |
| ArrayLiteral.LiteralRoundTrip | adapters/postgres/formatters/formatters.go:11-52 | a reader for the array literals of manual section 8.15.6 gives back every finite nesting of lists of strings and integers |
| ArrayLiteral.LiteralInjective | adapters/postgres/formatters/formatters.go:11-52 | different lists have different literals |
| OrGroup.SplitTopLevelOrGroup | adapters/postgres/postgres.go:336-417 | the loop with two quote states and two separators computes the parts of the specification, and terminates on every input |
| OrGroup.SplitConserves | adapters/postgres/postgres.go:336-441 | the parts are successive disjoint slices of the input, non-empty and trimmed; all that is left out is white space or part of a separator outside quotes; no part begins or ends inside quotes, unless the text ends inside them, and none contains a separator |
| OrGroup.SplitGlued | adapters/postgres/postgres.go:336-445 | splitting parts that were joined by separators of either kind, mixed at will, gives exactly those parts |
| OrGroup.BarsRoundTripIff | adapters/postgres/postgres.go:439-441 | two parts joined by bars come back exactly when the first does not end in a bar |
| OrGroup.OrRoundTripIff | adapters/postgres/postgres.go:419-437 | two parts joined by OR come back exactly when the first does not end in a stand-alone OR |
| Filter.PrintFilter | adapters/postgres/postgres.go:538-558 | prints any operator's filter with the next placeholders, one for each value it returns, and advances the counter by their number |
| Filter.PrintTyped | adapters/postgres/postgres.go:467-525 | the same for keys with a type suffix, and the errors of malformed ones |
| Filter.WhereKeyAndValue | adapters/postgres/postgres.go:447-560 | one query parameter is printed as its filter, or fails as that filter does |
| FilterTokens.CompileWellFormed | adapters/postgres/postgres.go:447-560 | whatever compiles has valid identifiers, a known operator and at least one list element |
| Filter.ValueSurvivesIff | adapters/postgres/postgres.go:454-459 | a value is compared as it was sent exactly when no match of the operator expression starts in it |
| Filter.OperatorTakenOff | adapters/postgres/postgres.go:454-459 | an operator in front is found and taken off, and the value after it survives exactly when no match starts in it |
| Operators.ComparisonsMean | adapters/postgres/postgres.go:1389-1448 | `$eq`, `$ne`, `$gt`, `$gte`, `$lt`, `$lte` are true of cells equal, not equal, greater, not less, less, not greater than the value, and unknown of NULL |
| Operators.PlainIsEquality | adapters/postgres/postgres.go:454-463 | a value without an operator is compared for equality |
| Operators.MembershipMeans | adapters/postgres/postgres.go:1389-1448 | `$in` is true on exactly the listed values and `$nin` is its three-valued negation |
| Operators.TestsMean | adapters/postgres/postgres.go:1389-1448 | the tests for NULL, TRUE and FALSE, and that their negated forms are complementary |
| Operators.PatternsMean | adapters/postgres/postgres.go:1389-1448 | `$like` and `$ilike` with the letter case each heeds, and that `$nlike` and `$nilike` are their negations |
| Operators.QuantifiersMean | adapters/postgres/postgres.go:538-558 | `$any`, `$some` and `$all` compare with the elements of an array, bound as a literal that reads back as the listed values |
| Operators.TreesMean | adapters/postgres/postgres.go:1389-1448 | the four label-tree operators print the comparison each is named for |
| Operators.CompiledReads | adapters/postgres/postgres.go:447-560 | the printed text of a filter with any of these operators, parsed and bound, is the condition whose meaning is stated |
| Operators.ColumnCompared | adapters/postgres/postgres.go:529-536 | what is compared is the column the parameter names |
| Operators.AttributeCompared | adapters/postgres/postgres.go:467-500 | with a JSON key it is the attribute of the column that the key names |
| Operators.SearchAsked | adapters/postgres/postgres.go:501-517 | a text search looks for the value in the field named, under the configuration named, if any |
| Operators.OperatorAccepted | adapters/postgres/postgres.go:1389-1448 | a parameter on a valid column with an operator in front compiles exactly when that is one of the 25 names |
| FilterReading.FilterReadsAs | adapters/postgres/postgres.go:447-560 | what every printed filter is read as, wherever it stands in a condition: a bare field as a folded column or a constant, everything else as meant, and nothing if its start cannot be read |
| FilterReading.FilterReadsIff | adapters/postgres/postgres.go:447-560 | one printed filter, wherever it stands in a condition, is read back as that filter exactly when its configured column is an identifier and its text-search field survives bare printing |
| Where.WhereByRequest | adapters/postgres/postgres.go:216-334 | scope first, then every filter in the order met, numbered without gaps from the first placeholder, then one group of all `_or` parts; or the first error |
| Where.AddScope | adapters/postgres/postgres.go:223-266 | the clauses, values and numbers of the caller's scope |
| Where.CollectQuery | adapters/postgres/postgres.go:268-318 | plain parameters and `_or` groups are added to the clauses in the order in which the map yields them |
| Where.JoinClauses | adapters/postgres/postgres.go:324-330 | joins non-empty clauses with AND |
| WhereMeaning.WhereReadsAs | adapters/postgres/postgres.go:216-334 | for every list of filters, parsing the printed text with SQL precedence gives the conjunction of what the plain filters are read as and one disjunction of what the alternatives are read as, or nothing if one of them is not read |
| WhereMeaning.ReadWhereTruth | adapters/postgres/postgres.go:216-334 | the three-valued truth of that condition, bound to the values printed with it |
| WhereMeaning.WhereReadsIff | adapters/postgres/postgres.go:216-334 | parsing the printed text with SQL precedence gives the conjunction of the plain filters and one disjunction of the alternatives exactly when every filter is well printed |
| WhereMeaning.WhereBinds | adapters/postgres/postgres.go:216-334 | with `$n` standing for `values[n - initial]` the parsed condition is the intended one |
| WhereMeaning.WherePreservesMeaning | adapters/postgres/postgres.go:216-334 | on every row the printed text has the three-valued truth of scope and plain filters and one disjunction of all `_or` parts |
| WhereMeaning.WhereNotEmpty | adapters/postgres/postgres.go:320-333 | an empty text means that there were no filters and no values |
| WhereOrder.OrderIndependent | adapters/postgres/postgres.go:268-318 | for every request: with its query map iterated in different orders it compiles in both or in neither, and both texts are read or neither is, with the same truth on every row |
| WhereRequests.CompilesIff | adapters/postgres/postgres.go:268-318 | a request compiles exactly when every value of every parameter whose name does not start with an underscore does, and every part of every `_or` value that has a field before its first `=` |
| WhereRequests.AlternativesAre | adapters/postgres/postgres.go:284-315 | a filter is among the alternatives exactly when some value of an `_or` parameter has a part that, cut at its first `=`, asks for it |
| WhereRequests.PlainFiltersAre | adapters/postgres/postgres.go:223-318 | a filter is among the others exactly when it is in the scope or some value of a parameter whose name does not start with an underscore asks for it |
| WhereRequests.RequestSelects | adapters/postgres/postgres.go:216-334 | the text of a request, parsed, bound and evaluated on a row, is true exactly where the row satisfies the scope, every plain parameter and, if there are alternatives, one of them, said on the query string |
| WhereRequests.GluedAlternatives | adapters/postgres/postgres.go:284-315 | a single `_or` value joined from parts by separators of either kind has exactly the filters of those parts as alternatives |
| WhereMisreads.CapitalFieldMisread | adapters/postgres/postgres.go:501-517 | a text search in a field with a capital letter is not read as meant |
| WhereMisreads.ReservedFieldMisread | adapters/postgres/postgres.go:501-517 | nor is one in a field named like a reserved word |
| WhereMisreads.BadColumnMisread | adapters/postgres/postgres.go:236-239 | nor is the scope of a configured column that is no identifier |
| Scope.FirstCompatIsFirst | adapters/postgres/workspacefilter.go:15-38 | the entry resolved is the first that matches, and none only if none matches |
| Scope.CompatResolved | adapters/postgres/workspacefilter.go:15-38 | said on the segments of the path: the entry is the first with its database and table, with its schema or none, and with both columns; none only if there is no such entry |
| Scope.UserColumnResolved | adapters/postgres/userfilter.go:23-46 | the same for the column that holds the user |
| Scope.ShortPathUnscoped | adapters/postgres/workspacefilter.go:15-38 | paths of fewer than three segments have no scope |
| Statements.SetByRequest | adapters/postgres/postgres.go:611-654 | every field is assigned the next placeholder and its own value; the errors of empty bodies and invalid names |
| Statements.SetReads | adapters/postgres/postgres.go:611-654 | the SET list is read back as the fields' paths with consecutive placeholders |
| Statements.WhereParams | adapters/postgres/postgres.go:216-334 | the WHERE text uses each number from the first on exactly once, one for each value |
| Statements.UpdateTable | controllers/tables.go:425-448 | numbers the WHERE clause after the SET list and appends its values |
| Statements.UpdateAligned | controllers/tables.go:425-448 | SET and WHERE of an UPDATE together use each of `$1` to `$n` once, and an empty WHERE text brings no values |
| Statements.UpdateAssigns | controllers/tables.go:425-448 | each field of an UPDATE is set to its own value |
| Statements.UpdateCondition | controllers/tables.go:425-448 | the WHERE text, bound to the whole value list, is the condition the request asks for |
| SchemaListing.ListSchemaTables | controllers/tables.go:97-126 | the listing's filters start at `$3` and their values follow database and schema |
| SchemaListing.ListingReadsAs | adapters/postgres/postgres.go:1840-1846 | what the listing's condition is read as for every list of filters: the two fixed comparisons and what the filters are read as |
| SchemaListing.ListingReadsIff | adapters/postgres/postgres.go:1840-1846 | the fixed text and the request's filters are read as one conjunction exactly when the filters are well printed |
| SchemaListing.ListingBinds | controllers/tables.go:124-126 | `$1` and `$2` are bound to database and schema, every filter to its own values |
| SchemaListing.ListingAligned | controllers/tables.go:97-126 | the listing uses each of `$1` to `$n` once |
| Inserts.CreatePlaceholders | adapters/postgres/postgres.go:713-722 | the tuple of all numbers from the first to the last value |
| Inserts.ReadTupleOf | adapters/postgres/postgres.go:713-722 | a printed tuple is read back as its consecutive numbers |
| Inserts.ColumnsRoundTrip | adapters/postgres/postgres.go:760-778 | a printed column list is read back as the names |
| Inserts.EncodedKeeps | adapters/postgres/postgres.go:769-774 | what is bound for a value is the value itself, or for an array a literal that reads back as it |
| ScopeSafety.ParseInsertRequest | adapters/postgres/postgres.go:725-780 | columns, placeholders and values of the body with the identity columns forced; the errors |
| ScopeSafety.InsertedRow | adapters/postgres/postgres.go:725-780 | the statement, read back, builds exactly the row of that body, whatever order the map is iterated in |
| ScopeSafety.InsertAcceptedIff | adapters/postgres/postgres.go:725-780 | an insert is accepted exactly when its body is not empty and all its columns and those of the identity are identifiers |
| ScopeSafety.InsertKeepsFields | adapters/postgres/postgres.go:725-780 | the row of an accepted insert, read back, has exactly the body's columns and the identity's; the client's other fields keep their values and the identity columns hold the caller's |
| ScopeSafety.WritesLandInScope | adapters/postgres/postgres.go:744-779 | with a user id every row inserted lies in the scope that reads of the same path and context are confined to |
| ScopeSafety.WriteOutOfScope | adapters/postgres/postgres.go:744-779 | with a tenant and no user id, a body that names another tenant is accepted as it is and lies outside that scope |
| ScopeSafety.WritesLandIff | adapters/postgres/postgres.go:744-779 | every accepted body lands in the scope exactly when there is a user id or nothing to confine reads to |
| ScopeSafety.ScopeConfines | adapters/postgres/postgres.go:223-266 | a row that a request selects satisfies every filter of its scope, whatever filters the client adds and however these are read |
| ScopeSafety.ScopeIs | adapters/postgres/postgres.go:223-266 | the scope is true on exactly the rows of the active tenant, on the user's own rows outside any tenant, or on the user's rows; with no identity on every row |
| ScopeSafety.ScopesDisjoint | adapters/postgres/postgres.go:249-266 | no row of a compat table is selected by two requests of different scopes, whatever filters they add |
| Batch.QuoteUnquote | adapters/postgres/postgres.go:683-686 | unquoting a quoted key gives the key back |
| Batch.TableKeys | adapters/postgres/postgres.go:705-711 | the quoted keys, sorted |
| Batch.KeysOrderIndependent | adapters/postgres/postgres.go:705-711 | the columns are the same whatever order the map is iterated in |
| BatchLayouts.OperationValues | adapters/postgres/postgres.go:680-703 | the cells of all records on the first record's keys, one after the other, and one tuple of consecutive placeholders for each record |
| BatchLayouts.ParseBatchInsertRequest | adapters/postgres/postgres.go:664-678 | column list, tuples and values of a batch |
| BatchLayouts.CopyRows | adapters/postgres/postgres.go:1063-1083 | unquotes the names in place, up to the first that cannot be unquoted, and cuts the values into rows |
| BatchLayouts.CopyNames | controllers/tables.go:345-350 | the split column list is usable exactly when no key has a comma, and then names the keys |
| BatchLayouts.ValuesNames | adapters/postgres/postgres.go:674-675 | the column list of VALUES names the keys exactly when no key has a quote or a backslash |
| BatchLayouts.ValuesLayout | adapters/postgres/postgres.go:680-703 | reading the tuples back and binding them gives the records cut down to the keys |
| BatchLayouts.CopyLayout | adapters/postgres/postgres.go:1074-1081 | cutting the flat values gives the same rows |
| BatchLayouts.BatchLayoutsAgree | adapters/postgres/postgres.go:664-722 | both layouts insert the records projected on the first record's keys with NULL for what is missing, and both name those columns exactly when no key has a comma, a quote or a backslash |
| BatchLayouts.PlainColumns | adapters/postgres/postgres.go:705-711 | on plain identifiers the columns are the sorted keys |
| OrderBy.OrderByRequest | adapters/postgres/postgres.go:897-928 | prints the sort keys asked for, or refuses the whole value if one is no identifier |
| OrderBy.AskedIff | adapters/postgres/postgres.go:897-928 | a value is accepted exactly when each comma-separated item, less one leading minus, is a valid identifier |
| OrderBy.OrderByRoundTrip | adapters/postgres/postgres.go:897-928 | reading the clause gives back, in order, the path and direction of each item |
| OrderBy.OrderByInjective | adapters/postgres/postgres.go:897-928 | different accepted values print different clauses |
| Paging.LimitOffset | template/funcregistry.go:74-88 | the clause of a page and a size, with 64-bit arithmetic, or an error |
| Paging.PaginateIfPossible | adapters/postgres/postgres.go:1040-1058 | nothing without a page; ten rows a page by default; errors for what is no integer |
| Paging.PagingReads | template/funcregistry.go:86 | the clause is read as `size` rows after `(page - 1) * size` of them |
| Paging.FirstPageIff | template/funcregistry.go:83-85 | a requested page is printed as page 1 exactly when it is at most 1 and not the least machine integer |
| Paging.PagesPartition | template/funcregistry.go:74-88 | the pages of a result, one after the other, are the whole result, and none of them is empty |
| Paging.OnePage | template/funcregistry.go:86 | each row is on exactly one page |
| TemplateRegistry.FuncRegistry.SqlVal | template/funcregistry.go:99-104 | appends the value and returns its placeholder |
| TemplateRegistry.FuncRegistry.SqlList | template/funcregistry.go:107-120 | appends all elements and returns their placeholders, or one for a value that is no list |
| TemplateRegistry.FuncRegistry.TenantScopeIn | template/funcregistry.go:125-141 | appends the tenant ids and returns the IN predicate, or returns FALSE and appends nothing |
| TemplateRegistry.AllocatorAligned | template/funcregistry.go:99-141 | for any sequence of calls on a fresh registry the placeholders in call order are exactly 1 to the number of arguments, each bound to the value its call requested |
| TemplateRegistry.ValueMeans | template/funcregistry.go:99-104 | `sqlVal` appends the value under its key, nil if there is none, and returns its number |
| TemplateRegistry.ListMeans | template/funcregistry.go:107-120 | `sqlList` appends exactly the elements of the list under its key, or any other value by itself, and returns their numbers |
| TemplateRegistry.TenantScopeMeans | template/funcregistry.go:125-141 | on a valid column, with a list of tenant ids in the data, exactly its elements are appended and the text bound to them is true on exactly the rows whose column is one of them; otherwise nothing is appended and the text is true of no row |
| Pool.SharedPool.GetDatabaseFromPool | adapters/postgres/internal/connection/conn.go:149-158 | looks under the DSN key first, then under the name |
| Pool.SharedPool.FindDatabase | adapters/postgres/internal/connection/conn.go:166-172 | the first critical section of AddDatabaseToPool |
| Pool.SharedPool.StoreDatabase | adapters/postgres/internal/connection/conn.go:183-192 | its second critical section: keeps what another call stored first |
| Pool.SharedPool.FindUri | adapters/postgres/internal/connection/conn.go:213-235 | the first critical section of AddURI |
| Pool.SharedPool.StoreUri | adapters/postgres/internal/connection/conn.go:245-254 | its second critical section: stores under DSN and name |
| PoolRuns.StepInv | adapters/postgres/internal/connection/conn.go:161-258 | every step of any goroutine keeps each connection ever opened in exactly one place |
| PoolRuns.RunInv | adapters/postgres/internal/connection/conn.go:161-258 | so does every interleaving of any number of calls |
| PoolRuns.RunKeeps | adapters/postgres/internal/connection/conn.go:161-258 | a DSN key never rebinds and what is in the pool stays there |
| PoolRuns.SameHandle | adapters/postgres/internal/connection/conn.go:104-192 | all successful AddDatabaseToPool calls for one DSN, and every later lookup, return the same handle, open |
| PoolRuns.LateCallsReuse | adapters/postgres/internal/connection/conn.go:161-258 | whatever other calls do, a call that begins when its DSN has a connection in the pool opens none and returns that one |
| PoolRuns.NothingLeaks | adapters/postgres/internal/connection/conn.go:161-258 | when all calls have returned every connection opened is closed or in the pool, not both |
| PoolRuns.OtherDsnIff | adapters/postgres/internal/connection/conn.go:224-235 | AddURI's fast path returns a connection to another DSN exactly when the DSN is unknown and the name is known |
| PoolRuns.RebindsIff | adapters/postgres/internal/connection/conn.go:245-254 | a name rebinds exactly when an AddURI call stores a new connection under it |
| PoolRuns.LookupAfter | adapters/postgres/internal/connection/conn.go:149-258 | what a lookup by name returns after any step of any call |
| PoolRuns.LookupChangesIff | adapters/postgres/internal/connection/conn.go:149-158 | when what a lookup by name returns can change |
| PoolRuns.NameRebinds | adapters/postgres/internal/connection/conn.go:213-258 | a run in which two calls race for one name and the second overwrites the first |
| PoolRuns.SecondNameUnbound | adapters/postgres/internal/connection/conn.go:227-230 | a second name for a known DSN is not registered |
| PoolRuns.NamesMissed | adapters/postgres/internal/connection/conn.go:224-235 | a run in which AddURI returns a connection to another DSN, and one whose name it does not register |
| StmtCache.Stmt.Prepare | adapters/postgres/postgres.go:62-88 | what one call returns and leaves in the map, by itself |
| StmtCacheRuns.EntriesMatchKeys | adapters/postgres/postgres.go:62-88 | in every interleaving each entry was prepared from exactly its key, outside transactions |
| StmtCacheRuns.PreparedOnce | adapters/postgres/postgres.go:62-88 | once a cached call has succeeded, no cached call with its text that begins later prepares anything, in any interleaving |
| StmtCacheRuns.InvisibleIff | adapters/postgres/postgres.go:62-88 | over all interleavings calls get what preparing afresh would give exactly when the cache is off or all calls outside transactions pass one handle |
| Workspaces.Database.TenantsCreateHandler | controllers/workspaces.go:132-208 | tenant and owner row together, or an error and no change |
| Workspaces.Database.TenantRenameHandler | controllers/workspaces.go:254-286 | renames for owners and members only |
| Workspaces.Database.TenantDeleteHandler | controllers/workspaces.go:292-311 | deletes, with the cascade, for owners only |
| Workspaces.Database.MemberUpdateRoleHandler | controllers/workspaces.go:357-407 | sets a role for owners only; the last owner cannot step down |
| Workspaces.Database.MemberRemoveHandler | controllers/workspaces.go:412-454 | removes others for owners only; the last owner cannot leave |
| Workspaces.Database.TenantInviteCreateHandler | controllers/workspaces.go:459-508 | an open invite for seven days, by owners only |
| Workspaces.Database.TenantInviteAcceptHandler | controllers/workspaces.go:513-582 | inserts the member or overwrites the role, and marks the invite |
| Workspaces.Database.AccountDeleteHandler | controllers/account.go:43-139 | the successive deletes of the closure's transaction on the three tables |
| WorkspaceRuns.RunInv | controllers/workspaces.go:132-582 | in every reachable state members and invites refer to existing tenants and roles are valid |
| WorkspaceRuns.GuardsAgree | controllers/authz.go:72-81 | in every reachable state membership, write and owner guards coincide with the authorizer's view, write and manage, and are nested |
| WorkspaceRuns.StepOwnersIff | controllers/workspaces.go:381-454 | a step leaves a tenant without an owner exactly when it is an acceptance of a lesser role by the only owner |
| WorkspaceRuns.RunOwnersIff | controllers/workspaces.go:132-582 | over whole runs every tenant always has an owner exactly when no step is such an acceptance |
| WorkspaceRuns.OwnerCanBeLost | controllers/workspaces.go:564-569 | a run in which the only owner is lost |
| WorkspaceRuns.ClosureDeletes | controllers/account.go:106-136 | exactly which tenants, members and invites an account closure leaves |
| WorkspaceRuns.ClosureSoleIff | controllers/account.go:102-111 | a closure deletes only tenants of which the caller is the sole member exactly when no tenant of the caller has another member |
| WorkspaceRuns.ClosureDeletesShared | controllers/account.go:102-111 | a run after which a closure deletes a tenant with two members |
| WorkspaceRuns.RoleProvenance | controllers/workspaces.go:187-572 | each current role comes from creating the tenant, from an update by a then-owner or from accepting an open invite to one's own address, and has stood since |
| WorkspaceRuns.InviteProvenance | controllers/workspaces.go:479-499 | each invite was created by someone who was an owner then, and only its mark has changed |
| WorkspaceRuns.AcceptedFromOwner | controllers/workspaces.go:537-572 | an accepted role was offered by a then-owner, to that address, less than seven days before |
| WorkspaceRuns.AcceptedOnce | controllers/workspaces.go:537-572 | between two acceptances under one id the invite was created anew: each is accepted at most once |
| WorkspaceRuns.FreshIdsAcceptedOnce | controllers/workspaces.go:485-572 | if no two invites are created under one id, no invite is accepted twice |
| WorkspaceRuns.MembershipIDRoundTrip | controllers/workspaces.go:629-635 | the membership id shown leads back to its user exactly when the tenant id has no colon |
| WorkspaceEffects.MembershipUserIs | controllers/workspaces.go:629-635 | the user read from a membership id under a tenant is the one it was made from, for exactly the ids of that tenant |
| WorkspaceEffects.LastOwnerCounted | controllers/workspaces.go:385-392 | the count that guards the last owner holds back exactly the only owner of the tenant |
| WorkspaceEffects.StepTenants | controllers/workspaces.go:132-311 | which tenants are there after any step and what they hold, by whose right each was founded, renamed or deleted |
| WorkspaceEffects.StepMembers | controllers/workspaces.go:187-582 | the same for memberships: founded, joined, given another role, given up, removed, or gone with the tenant |
| WorkspaceEffects.StepInvites | controllers/workspaces.go:459-582 | the same for invites: issued, marked as accepted, withdrawn, or gone with the tenant |
| WorkspaceEffects.SucceedsIff | controllers/workspaces.go:132-582 | in every reachable state a request succeeds exactly when its step has the right to happen, and otherwise changes nothing |
| WorkspaceEffects.ForbiddenIff | controllers/workspaces.go:254-582 | which requests are answered with 401 and which with 403 |
| WorkspaceEffects.DeletionExact | controllers/workspaces.go:292-311 | in every run an owner's deletion removes exactly the tenant, its members and its invites, and anyone else's is refused and changes nothing |
| WorkspaceEffects.TenantGone | controllers/workspaces.go:292-311 | in every run a tenant disappears exactly when one of its owners deletes it or one of its members closes the account |
| WorkspaceEffects.MembershipGone | controllers/workspaces.go:412-454 | in every run a membership disappears exactly when its user, not the last owner, leaves, an owner removes it, or its tenant goes |
| WorkspaceEffects.NameProvenance | controllers/workspaces.go:132-286 | a tenant has the name that its founder gave it, or someone who was an owner or member then, and has had it since |
| WorkspaceEffects.TenantProvenance | controllers/workspaces.go:132-208 | every tenant goes back to the step that created it and made its founder an owner, and its slug and founder have not changed since |

## Left out

- Paging.PagesPartition: for results of at most 2^63 - 1 rows, since no request can name a later page.
- Batch.QuoteUnquote: for keys of printable ASCII characters; `strconv.Quote` writes other escapes for the rest.
- WorkspaceRuns.AcceptedOnce: once for each creation, since nothing but chance keeps a generated id from coming again after
  its invite was deleted; `WorkspaceRuns.FreshIdsAcceptedOnce` is the case of ids that do not come again.
- Statements.SetByRequest: how maps, slices and other values of the body are encoded before they are bound is opaque.
- Characters: one `char` stands for one ASCII byte. Unicode case folding, the Latin-1 spaces and
  the bytes of other encodings are not part of this model.
- Lexing: comments, `E''` strings and strings with non-standard conforming backslashes are not read.
- The meaning of single comparisons (`=`, `LIKE`, `@@` and so on) is a parameter, `holds`; what `Operators` says of `=`
  to `>=` holds where they compare a cell with the value in some order, and nothing is said of how `@>` or `@@` match.
- Column types, casts, the server's integer ranges for LIMIT and OFFSET, and query execution.
- `FormatArray` on leaves other than strings and integers, and `sliceToJSONList`.
- JSON decoding, HTTP, headers, contexts and configuration files: their results are parameters.
- The words around the clauses (`UPDATE ... SET`, `INSERT INTO ...`, the SELECT lists) and
  `SelectFields`, `JoinByRequest`, `GroupByClause`, `CountByRequest`, `ReturningByRequest`: they would
  add only easy members.
- Go map iteration is a parameter: the order in which the entries come.
- Pool: `RealName` and `ResolveDBName`, `Get` and `getDBFromCtx` (a lookup followed by
  AddDatabaseToPool), connection limits, and hash collisions of `poolKey`.
- Handlers are atomic: check and write are not in one transaction in the source, so interleavings
  inside a handler are not part of this model. Nor are failures of the database itself, which leave
  no change, and listing handlers, which change nothing.
- `slugify`, UUID and token generation: their results are parameters. The owner role check against
  the role table and profile ingestion when a tenant is created.
- Account closure: only tenants, members and invites; not content tables, Talos or Kratos.
- The authorizer finds a role by address; `WorkspaceRuns.GuardsAgree` compares on the row found.
