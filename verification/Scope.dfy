/** adapters/postgres/userfilter.go and workspacefilter.go: which rows a request is confined to. */
module Scope {
  import opened Text
  import opened Filter
  import opened FilterTokens

  datatype UserFilter = UserFilter(database: string, schema: string, table: string, column: string)

  datatype CompatFilter =
    CompatFilter(database: string, schema: string, table: string, userColumn: string, tenantColumn: string)

  datatype Config = Config(userFilters: seq<UserFilter>, compatFilters: seq<CompatFilter>)

  /** The parts of an HTTP request the filters depend on. `query` lists the entries of the
      parsed query string in the order in which the map yields them; `userId` and `tenantId`
      are the context values, empty when absent. */
  datatype Request =
    Request(path: string, userId: string, tenantId: string, query: seq<(string, seq<string>)>)

  function PathParts(path: string): seq<string> {
    Split(if path != "" && path[0] == '/' then path[1..] else path, "/")
  }

  predicate UserMatch(f: UserFilter, parts: seq<string>)
    requires |parts| >= 3
  {
    f.database == parts[0] && (f.schema == "" || f.schema == parts[1]) && f.table == parts[2] && f.column != ""
  }

  predicate CompatMatch(f: CompatFilter, parts: seq<string>)
    requires |parts| >= 3
  {
    f.database == parts[0] && (f.schema == "" || f.schema == parts[1]) && f.table == parts[2] &&
    f.userColumn != "" && f.tenantColumn != ""
  }

  function FirstUser(filters: seq<UserFilter>, parts: seq<string>): string
    requires |parts| >= 3
  {
    if filters == [] then ""
    else if UserMatch(filters[0], parts) then filters[0].column
    else FirstUser(filters[1..], parts)
  }

  function FirstCompat(filters: seq<CompatFilter>, parts: seq<string>): Option<CompatFilter>
    requires |parts| >= 3
  {
    if filters == [] then None
    else if CompatMatch(filters[0], parts) then Some(filters[0])
    else FirstCompat(filters[1..], parts)
  }

  function ResolveUserIDColumn(config: Config, path: string): string {
    if |PathParts(path)| < 3 then "" else FirstUser(config.userFilters, PathParts(path))
  }

  function ResolveTenantCompat(config: Config, path: string): Option<CompatFilter> {
    if |PathParts(path)| < 3 then None else FirstCompat(config.compatFilters, PathParts(path))
  }

  /** The resolved entry is the first that matches, and there is none only if none matches. */
  lemma {:induction false} FirstCompatIsFirst(filters: seq<CompatFilter>, parts: seq<string>)
    requires |parts| >= 3
    ensures match FirstCompat(filters, parts)
            case None => forall f :: f in filters ==> !CompatMatch(f, parts)
            case Some(c) => exists i :: 0 <= i < |filters| && filters[i] == c && CompatMatch(c, parts) &&
                                        forall j :: 0 <= j < i ==> !CompatMatch(filters[j], parts)
  {
    if filters != [] && !CompatMatch(filters[0], parts) {
      FirstCompatIsFirst(filters[1..], parts);
      match FirstCompat(filters[1..], parts)
      case None =>
        assert forall f :: f in filters ==> f == filters[0] || f in filters[1..];
      case Some(c) =>
        var i :| 0 <= i < |filters[1..]| && filters[1..][i] == c && CompatMatch(c, parts) &&
                 forall j :: 0 <= j < i ==> !CompatMatch(filters[1..][j], parts);
        assert forall j :: 0 < j < i + 1 ==> filters[j] == filters[1..][j - 1];
        assert filters[i + 1] == c;
    } else if filters != [] {
      assert filters[0] == FirstCompat(filters, parts).value;
    }
  }

  lemma {:induction false} FirstUserIsFirst(filters: seq<UserFilter>, parts: seq<string>)
    requires |parts| >= 3
    ensures var column := FirstUser(filters, parts);
      if column == "" then forall f :: f in filters ==> !UserMatch(f, parts)
      else exists i :: 0 <= i < |filters| && filters[i].column == column && UserMatch(filters[i], parts) &&
             forall j :: 0 <= j < i ==> !UserMatch(filters[j], parts)
  {
    if filters != [] && !UserMatch(filters[0], parts) {
      FirstUserIsFirst(filters[1..], parts);
      var column := FirstUser(filters[1..], parts);
      assert forall f :: f in filters ==> f == filters[0] || f in filters[1..];
      if column != "" {
        var i :| 0 <= i < |filters[1..]| && filters[1..][i].column == column && UserMatch(filters[1..][i], parts) &&
                 forall j :: 0 <= j < i ==> !UserMatch(filters[1..][j], parts);
        assert forall j :: 0 < j < i + 1 ==> filters[j] == filters[1..][j - 1];
        assert filters[i + 1] == filters[1..][i];
      }
    }
  }

  /** The parts of a path are its segments. */
  lemma PathSegments(parts: seq<string>)
    requires parts != [] && forall p :: p in parts ==> '/' !in p
    ensures PathParts("/" + Join(parts, "/")) == parts
  {
    var path := "/" + Join(parts, "/");
    assert path[1..] == Join(parts, "/");
    SplitJoin(parts, '/');
  }

  /** The compat entry of a path is the first whose database and table are the path's first and
      third segment, whose schema is empty or the second, and which names both columns. */
  lemma CompatResolved(config: Config, parts: seq<string>)
    requires |parts| >= 3 && forall p :: p in parts ==> '/' !in p
    ensures var fs := config.compatFilters;
      match ResolveTenantCompat(config, "/" + Join(parts, "/"))
      case None =>
        forall f :: f in fs ==>
          f.database != parts[0] || (f.schema != "" && f.schema != parts[1]) || f.table != parts[2] || f.userColumn == "" ||
          f.tenantColumn == ""
      case Some(c) =>
        exists i :: 0 <= i < |fs| && fs[i] == c &&
          c.database == parts[0] && (c.schema == "" || c.schema == parts[1]) && c.table == parts[2] && c.userColumn != "" &&
          c.tenantColumn != "" &&
          forall j :: 0 <= j < i ==>
            fs[j].database != parts[0] || (fs[j].schema != "" && fs[j].schema != parts[1]) || fs[j].table != parts[2] ||
            fs[j].userColumn == "" || fs[j].tenantColumn == ""
  {
    hide PathParts, FirstCompat;
    PathSegments(parts);
    FirstCompatIsFirst(config.compatFilters, parts);
  }

  /** The user column of a path is that of the first entry that covers it and names a column;
      empty if there is none. */
  lemma UserColumnResolved(config: Config, parts: seq<string>)
    requires |parts| >= 3 && forall p :: p in parts ==> '/' !in p
    ensures var fs := config.userFilters;
      var column := ResolveUserIDColumn(config, "/" + Join(parts, "/"));
      if column == "" then
        forall f :: f in fs ==>
          f.database != parts[0] || (f.schema != "" && f.schema != parts[1]) || f.table != parts[2] || f.column == ""
      else
        exists i :: 0 <= i < |fs| && fs[i].column == column &&
          fs[i].database == parts[0] && (fs[i].schema == "" || fs[i].schema == parts[1]) && fs[i].table == parts[2] &&
          forall j :: 0 <= j < i ==>
            fs[j].database != parts[0] || (fs[j].schema != "" && fs[j].schema != parts[1]) || fs[j].table != parts[2] ||
            fs[j].column == ""
  {
    hide PathParts, FirstUser;
    PathSegments(parts);
    FirstUserIsFirst(config.userFilters, parts);
  }

  /** Paths of fewer than three segments have no scope. */
  lemma ShortPathUnscoped(config: Config, parts: seq<string>)
    requires 0 < |parts| < 3 && forall p :: p in parts ==> '/' !in p
    ensures ResolveTenantCompat(config, "/" + Join(parts, "/")) == None
    ensures ResolveUserIDColumn(config, "/" + Join(parts, "/")) == ""
  {
    hide PathParts;
    PathSegments(parts);
  }

  function Equals(column: string, value: string): Filter { Compare(Field(column), Relation("="), value) }

  /** The filters added for the caller's identity before any of the request's own. */
  function ScopeFilters(config: Config, req: Request): seq<Filter> {
    match ResolveTenantCompat(config, req.path)
    case None =>
      var column := ResolveUserIDColumn(config, req.path);
      if req.userId != "" && column != "" then [Equals(column, req.userId)] else []
    case Some(c) =>
      if req.tenantId != "" then [Equals(c.tenantColumn, req.tenantId)]
      else if req.userId != "" then [Equals(c.userColumn, req.userId), Test(Field(c.tenantColumn), false, "null")]
      else []
  }
}
