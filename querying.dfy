/** The search, duplicates and artist-id commands: term validation, match
    patterns, WHERE-clause assembly, and grouping duplicate names into runs. */
module Querying {
  import opened Wrappers
  import opened Text
  import opened JsonValue
  import opened Models
  import Encoding

  // ---------------------------------------------------------------------
  // Match modes and their patterns
  // ---------------------------------------------------------------------

  datatype MatchMode = Exact | ExactI | Prefix | Suffix | Infix

  function ModeName(m: MatchMode): string {
    match m
    case Exact => "exact"
    case ExactI => "exact-i"
    case Prefix => "starts-with"
    case Suffix => "ends-with"
    case Infix => "contains"
  }

  /** A mode name is accepted exactly when it is one of MATCH_MODES. */
  function ParseMatchMode(s: string): (r: Option<MatchMode>)
    ensures r.Some? <==> s in MATCH_MODES
    ensures r.Some? ==> ModeName(r.value) == s
  {
    if s == "exact" then Some(Exact)
    else if s == "exact-i" then Some(ExactI)
    else if s == "starts-with" then Some(Prefix)
    else if s == "ends-with" then Some(Suffix)
    else if s == "contains" then Some(Infix)
    else None
  }

  lemma ModeNameRoundTrip(m: MatchMode)
    ensures ParseMatchMode(ModeName(m)) == Some(m)
  {
  }

  /** The value bound for a term: wildcards added around it for the LIKE modes. */
  function Prepare(m: MatchMode, value: string): string {
    match m
    case Exact => value
    case ExactI => value
    case Prefix => value + "%"
    case Suffix => "%" + value
    case Infix => "%" + value + "%"
  }

  /** SQL `LIKE`: `%` matches any run of characters, `_` any one character. */
  predicate Like(p: string, t: string)
    decreases |p| + |t|
  {
    if p == [] then t == []
    else if p[0] == '%' then Like(p[1..], t) || (t != [] && Like(p, t[1..]))
    else if p[0] == '_' then t != [] && Like(p[1..], t[1..])
    else t != [] && t[0] == p[0] && Like(p[1..], t[1..])
  }

  predicate NoWildcards(v: string) {
    '%' !in v && '_' !in v
  }

  /** The condition a WHERE part tests on a column holding `col`, for the
      value `bound` bound to its parameter. SQLite's `LOWER` folds ASCII only. */
  predicate Condition(m: MatchMode, bound: string, col: string) {
    match m
    case Exact => col == bound
    case ExactI => AsciiLower(col) == AsciiLower(bound)
    case _ => Like(AsciiLower(bound), AsciiLower(col))
  }

  /** What each mode promises about a column, for a search value `v`. */
  predicate Matches(m: MatchMode, v: string, col: string) {
    match m
    case Exact => col == v
    case ExactI => AsciiLower(col) == AsciiLower(v)
    case Prefix => StartsWith(AsciiLower(col), AsciiLower(v))
    case Suffix => EndsWith(AsciiLower(col), AsciiLower(v))
    case Infix => Contains(AsciiLower(col), AsciiLower(v))
  }

  lemma {:induction false} LikeAny(t: string)
    ensures Like("%", t)
    decreases |t|
  {
    if t != [] {
      LikeAny(t[1..]);
    }
  }

  lemma {:induction false} LikeLiteral(v: string, t: string)
    requires NoWildcards(v)
    ensures Like(v, t) <==> t == v
    decreases |v|
  {
    if v != [] && t != [] {
      LikeLiteral(v[1..], t[1..]);
      if t[0] == v[0] && t[1..] == v[1..] {
        assert t == [t[0]] + t[1..] && v == [v[0]] + v[1..];
      }
    }
  }

  lemma {:induction false} LikePrefix(v: string, t: string)
    requires NoWildcards(v)
    ensures Like(v + "%", t) <==> StartsWith(t, v)
    decreases |v|
  {
    if v == [] {
      assert v + "%" == "%";
      LikeAny(t);
    } else {
      assert (v + "%")[0] == v[0] && (v + "%")[1..] == v[1..] + "%";
      if t != [] {
        LikePrefix(v[1..], t[1..]);
        if t[0] == v[0] && StartsWith(t[1..], v[1..]) {
          assert t[..|v|] == [t[0]] + t[1..][..|v| - 1];
        }
        if StartsWith(t, v) {
          assert t[1..][..|v| - 1] == t[..|v|][1..];
        }
      }
    }
  }

  /** A leading `%` lets the rest of the pattern match any suffix. */
  lemma {:induction false} LikeLeading(q: string, t: string)
    ensures Like("%" + q, t) <==> exists i :: 0 <= i <= |t| && Like(q, t[i..])
    decreases |t|
  {
    var p := "%" + q;
    assert p[0] == '%' && p[1..] == q;
    assert t[0..] == t;
    if t != [] {
      LikeLeading(q, t[1..]);
      if exists i :: 0 <= i <= |t| && Like(q, t[i..]) {
        var i :| 0 <= i <= |t| && Like(q, t[i..]);
        if i > 0 {
          assert t[1..][i - 1..] == t[i..];
        }
      }
      if exists i :: 0 <= i <= |t[1..]| && Like(q, t[1..][i..]) {
        var i :| 0 <= i <= |t[1..]| && Like(q, t[1..][i..]);
        assert t[1..][i..] == t[i + 1..];
      }
    }
  }

  lemma LikeSuffix(v: string, t: string)
    requires NoWildcards(v)
    ensures Like("%" + v, t) <==> EndsWith(t, v)
  {
    LikeLeading(v, t);
    if EndsWith(t, v) {
      LikeLiteral(v, t[|t| - |v|..]);
    }
    if exists i :: 0 <= i <= |t| && Like(v, t[i..]) {
      var i :| 0 <= i <= |t| && Like(v, t[i..]);
      LikeLiteral(v, t[i..]);
    }
  }

  lemma LikeInfix(v: string, t: string)
    requires NoWildcards(v)
    ensures Like("%" + v + "%", t) <==> Contains(t, v)
  {
    assert "%" + v + "%" == "%" + (v + "%");
    LikeLeading(v + "%", t);
    ContainsAt(t, v);
    if Contains(t, v) {
      var i :| 0 <= i <= |t| && StartsWith(t[i..], v);
      LikePrefix(v, t[i..]);
    }
    if exists i :: 0 <= i <= |t| && Like(v + "%", t[i..]) {
      var i :| 0 <= i <= |t| && Like(v + "%", t[i..]);
      LikePrefix(v, t[i..]);
    }
  }

  lemma LowerKeepsNoWildcards(v: string)
    requires NoWildcards(v)
    ensures NoWildcards(AsciiLower(v))
  {
  }

  lemma LowerConcat(a: string, b: string)
    ensures AsciiLower(a + b) == AsciiLower(a) + AsciiLower(b)
  {
  }

  /** The bound pattern tests what its mode promises, for a value holding no
      wildcard of its own. */
  lemma PreparedMeansMode(m: MatchMode, v: string, col: string)
    requires NoWildcards(v)
    ensures Condition(m, Prepare(m, v), col) <==> Matches(m, v, col)
  {
    var lv, lc := AsciiLower(v), AsciiLower(col);
    LowerKeepsNoWildcards(v);
    assert AsciiLower("%") == "%";
    match m
    case Exact =>
    case ExactI =>
    case Prefix =>
      LowerConcat(v, "%");
      LikePrefix(lv, lc);
    case Suffix =>
      LowerConcat("%", v);
      LikeSuffix(lv, lc);
    case Infix =>
      LowerConcat("%" + v, "%");
      LowerConcat("%", v);
      LikeInfix(lv, lc);
  }

  /** A `%` typed into the value is not escaped: it acts as a wildcard. */
  lemma ValueWildcardIsLive()
    ensures Condition(Prefix, Prepare(Prefix, "a%"), "abc")
    ensures !Matches(Prefix, "a%", "abc")
  {
    assert Prepare(Prefix, "a%") == "a%%";
    assert AsciiLower("a%%") == "a%%";
    assert AsciiLower("abc") == "abc";
    LikeAny("bc");
    assert "bc"[1..] == "c";
    assert Like("%", "bc");
    assert Like("%%", "bc");
    assert "abc"[1..] == "bc";
    assert !StartsWith("abc", "a%") by {
      assert "abc"[..2] == "ab";
    }
  }

  // ---------------------------------------------------------------------
  // Term validation and WHERE parts
  // ---------------------------------------------------------------------

  /** The two versions of the search command: the query-definition one in the
      commands module, and the older one running raw SQL. */
  datatype Dialect = Current | Legacy

  function Quoted(col: string): string {
    "\"" + col + "\""
  }

  /** The WHERE part one term contributes. */
  function WherePart(d: Dialect, col: string, m: MatchMode): (w: string)
    ensures Contains(w, Quoted(col))
  {
    var key := "val_" + col;
    var (pre, post) :=
      match d
      case Current =>
        (match m
         case Exact => ("", "=@" + key)
         case ExactI => ("LOWER(", ")=LOWER(@" + key + ")")
         case _ => ("LOWER(", ") LIKE LOWER(@" + key + ")"))
      case Legacy =>
        (match m
         case Exact => ("", " = ?")
         case ExactI => ("LOWER(", ") = LOWER(?)")
         case _ => ("LOWER(", ") LIKE LOWER(?)"));
    ContainsSplit(pre, Quoted(col), post);
    pre + Quoted(col) + post
  }

  /** `a + q + b` contains `q`. */
  lemma ContainsSplit(a: string, q: string, b: string)
    ensures Contains(a + q + b, q)
  {
    var w := a + q + b;
    ContainsAt(w, q);
    assert w[|a|..][..|q|] == q;
  }

  function InvalidColumn(d: Dialect, table: string, col: string, allowed: seq<string>): AppError {
    match d
    case Current =>
      InvalidParameter("Invalid term key for " + table + ": " + col + ". Allowed: " + Join(allowed, ", "))
    case Legacy =>
      InvalidParameter("Invalid search column: " + col + ". Allowed for " + table + ": " + Join(allowed, ", "))
  }

  /** One validated term: its column, mode, and the value bound for it. */
  datatype Clause = Clause(col: string, mode: MatchMode, bound: string)

  /** A term with no `match` (or a non-string one) is an exact match. */
  function ModeText(cond: Json): string {
    match Get(cond, "match")
    case Some(JStr(s)) => s
    case _ => "exact"
  }

  /** Validation of one `(column, condition)` pair of the term object. */
  function TermClause(d: Dialect, table: string, allowed: seq<string>, col: string, cond: Json)
    : (r: Result<Clause, AppError>)
    ensures col !in allowed ==> r == Err(InvalidColumn(d, table, col, allowed))
    ensures r.Ok? ==> r.value.col == col && ModeText(cond) == ModeName(r.value.mode)
    ensures r.Ok? ==> cond.JObj? && Get(cond, "value").Some? && Get(cond, "value").value.JStr?
    ensures r.Ok? ==> exists v :: Encoding.Decoded(Get(cond, "value").value.s) == Ok(v)
                                  && r.value.bound == Prepare(r.value.mode, v)
  {
    if col !in allowed then Err(InvalidColumn(d, table, col, allowed))
    else if !cond.JObj? then
      Err(InvalidParameter("Term condition for '" + col + "' must be an object"))
    else
      match Get(cond, "value")
      case Some(JStr(raw)) =>
        (match Encoding.Decoded(raw)
         case Err(e) =>
           Err(InvalidParameter("URL decoding error for search value of '" + col + "': " + e))
         case Ok(v) =>
           var mt := ModeText(cond);
           match ParseMatchMode(mt)
           case None =>
             Err(InvalidParameter("Invalid match mode: " + mt + ". Allowed: " + Join(MATCH_MODES, ", ")))
           case Some(m) => Ok(Clause(col, m, Prepare(m, v))))
      case _ =>
        Err(InvalidParameter("Term condition for '" + col + "' must have a 'value' string"))
  }

  /** WHERE parts and bound values, in term order. */
  datatype Where = Where(parts: seq<string>, values: seq<string>)

  function Cons(d: Dialect, c: Clause, r: Result<Where, AppError>): Result<Where, AppError> {
    match r
    case Err(e) => Err(e)
    case Ok(w) => Ok(Where([WherePart(d, c.col, c.mode)] + w.parts, [c.bound] + w.values))
  }

  /** Each term's validation outcome, in term order. */
  function Outcomes(d: Dialect, table: string, allowed: seq<string>, term: seq<(string, Json)>)
    : (os: seq<Result<Clause, AppError>>)
    ensures |os| == |term|
    ensures forall i :: 0 <= i < |term| ==> os[i] == TermClause(d, table, allowed, term[i].0, term[i].1)
  {
    seq(|term|, i requires 0 <= i < |term| => TermClause(d, table, allowed, term[i].0, term[i].1))
  }

  /** Outcomes combined from the front: the first error wins. */
  function Combine(d: Dialect, os: seq<Result<Clause, AppError>>): Result<Where, AppError> {
    if os == [] then Ok(Where([], []))
    else
      match os[0]
      case Err(e) => Err(e)
      case Ok(c) => Cons(d, c, Combine(d, os[1..]))
  }

  /** The term loop as a value. */
  function WhereOf(d: Dialect, table: string, allowed: seq<string>, term: seq<(string, Json)>)
    : Result<Where, AppError>
  {
    Combine(d, Outcomes(d, table, allowed, term))
  }

  /** Combining succeeds exactly when every outcome does, and then holds one
      WHERE part and one bound value per outcome, in order. */
  lemma {:induction false} CombineOk(d: Dialect, os: seq<Result<Clause, AppError>>)
    ensures Combine(d, os).Ok? <==> forall i :: 0 <= i < |os| ==> os[i].Ok?
    ensures Combine(d, os).Ok? ==>
              var w := Combine(d, os).value;
              |w.parts| == |os| && |w.values| == |os|
              && forall i :: 0 <= i < |os| ==>
                   w.parts[i] == WherePart(d, os[i].value.col, os[i].value.mode)
                   && w.values[i] == os[i].value.bound
  {
    if os != [] {
      var rest := os[1..];
      CombineOk(d, rest);
      assert forall i :: 1 <= i < |os| ==> os[i] == rest[i - 1];
    }
  }

  /** The first failing outcome decides the error. */
  lemma {:induction false} CombineFirstError(d: Dialect, os: seq<Result<Clause, AppError>>, k: nat)
    requires k < |os| && os[k].Err?
    requires forall i :: 0 <= i < k ==> os[i].Ok?
    ensures Combine(d, os) == Err(os[k].error)
  {
    if k > 0 {
      var rest := os[1..];
      assert forall i :: 0 <= i < k - 1 ==> rest[i] == os[i + 1];
      CombineFirstError(d, rest, k - 1);
    }
  }

  /** A successful build has one WHERE part and one bound value per term,
      each the one its term's clause gives; it succeeds exactly when every
      term is valid. */
  lemma WhereOfOk(d: Dialect, table: string, allowed: seq<string>, term: seq<(string, Json)>, i: nat)
    requires i < |term|
    ensures WhereOf(d, table, allowed, term).Ok? ==>
              TermClause(d, table, allowed, term[i].0, term[i].1).Ok?
              && var w := WhereOf(d, table, allowed, term).value;
                 var c := TermClause(d, table, allowed, term[i].0, term[i].1).value;
                 |w.parts| == |term| && |w.values| == |term|
                 && w.parts[i] == WherePart(d, term[i].0, c.mode) && w.values[i] == c.bound
  {
    CombineOk(d, Outcomes(d, table, allowed, term));
  }

  /** The first invalid term decides the error. */
  lemma WhereOfFirstError(d: Dialect, table: string, allowed: seq<string>,
                          term: seq<(string, Json)>, k: nat)
    requires k < |term|
    requires forall i :: 0 <= i < k ==> TermClause(d, table, allowed, term[i].0, term[i].1).Ok?
    requires TermClause(d, table, allowed, term[k].0, term[k].1).Err?
    ensures WhereOf(d, table, allowed, term) == Err(TermClause(d, table, allowed, term[k].0, term[k].1).error)
  {
    CombineFirstError(d, Outcomes(d, table, allowed, term), k);
  }

  /** Terms come from a parsed JSON object, so their keys are unique and
      ascending: the invalid term with the smallest key decides the error. */
  lemma WhereOfSmallestError(d: Dialect, table: string, allowed: seq<string>,
                             term: seq<(string, Json)>, k: nat)
    requires SortedKeys(term) && k < |term|
    requires TermClause(d, table, allowed, term[k].0, term[k].1).Err?
    requires forall j :: 0 <= j < |term| && TermClause(d, table, allowed, term[j].0, term[j].1).Err? ==>
               j == k || LexLess(term[k].0, term[j].0)
    ensures WhereOf(d, table, allowed, term) == Err(TermClause(d, table, allowed, term[k].0, term[k].1).error)
  {
    forall i | 0 <= i < k
      ensures TermClause(d, table, allowed, term[i].0, term[i].1).Ok?
    {
      SortedKeysBefore(term, i, k);
    }
    WhereOfFirstError(d, table, allowed, term, k);
  }

  function Prefixed(acc: Where, r: Result<Where, AppError>): Result<Where, AppError> {
    match r
    case Err(e) => Err(e)
    case Ok(w) => Ok(Where(acc.parts + w.parts, acc.values + w.values))
  }

  lemma PrefixedCons(acc: Where, d: Dialect, c: Clause, tail: Result<Where, AppError>)
    ensures Prefixed(acc, Cons(d, c, tail))
            == Prefixed(Where(acc.parts + [WherePart(d, c.col, c.mode)], acc.values + [c.bound]), tail)
  {
    if tail.Ok? {
      assert acc.parts + ([WherePart(d, c.col, c.mode)] + tail.value.parts)
          == (acc.parts + [WherePart(d, c.col, c.mode)]) + tail.value.parts;
      assert acc.values + ([c.bound] + tail.value.values)
          == (acc.values + [c.bound]) + tail.value.values;
    }
  }

  lemma PrefixedEmpty(r: Result<Where, AppError>)
    ensures Prefixed(Where([], []), r) == r
  {
    if r.Ok? {
      assert [] + r.value.parts == r.value.parts;
      assert [] + r.value.values == r.value.values;
    }
  }

  /** The loop of `cmd_search`: validate each term, push its WHERE part and
      its bound value. */
  method BuildWhere(d: Dialect, table: string, allowed: seq<string>, term: seq<(string, Json)>)
    returns (r: Result<Where, AppError>)
    ensures r == WhereOf(d, table, allowed, term)
  {
    var parts: seq<string> := [];
    var values: seq<string> := [];
    ghost var os := Outcomes(d, table, allowed, term);
    assert os[0..] == os;
    PrefixedEmpty(Combine(d, os));
    for i := 0 to |term|
      invariant WhereOf(d, table, allowed, term) == Prefixed(Where(parts, values), Combine(d, os[i..]))
    {
      var (col, cond) := term[i];
      var c := TermClause(d, table, allowed, col, cond);
      assert os[i..][0] == c && os[i..][1..] == os[i + 1..];
      if c.Err? {
        return Err(c.error);
      }
      PrefixedCons(Where(parts, values), d, c.value, Combine(d, os[i + 1..]));
      parts := parts + [WherePart(d, col, c.value.mode)];
      values := values + [c.value.bound];
    }
    assert os[|term|..] == [];
    assert parts + [] == parts && values + [] == values;
    return Ok(Where(parts, values));
  }

  /** What the search command hands to the database: table, fields, the
      WHERE text and the values bound in it. */
  datatype SearchQuery = SearchQuery(table: string, fields: seq<string>, whereSql: string,
                                     values: seq<string>)

  function Assemble(table: string, fields: seq<string>, r: Result<Where, AppError>)
    : Result<SearchQuery, AppError>
  {
    match r
    case Err(e) => Err(e)
    case Ok(w) => Ok(SearchQuery(table, fields, Join(w.parts, " AND "), w.values))
  }

  /** `cmd_search` up to running the query. `searchable` is the table's list
      of term keys (or the error for an unknown table) in the current version;
      the older version looks its lists up in the models module. */
  function SearchPlan(d: Dialect, table: string, fieldsStr: string, term: seq<(string, Json)>,
                      searchable: Result<seq<string>, AppError>)
    : (r: Result<SearchQuery, AppError>)
    ensures d == Current && ParseList(fieldsStr) == [] ==>
              r == Err(InvalidParameter("fields cannot be empty"))
    ensures d == Current && ParseList(fieldsStr) != [] && term == [] ==>
              r == Err(InvalidParameter("term cannot be empty"))
    ensures d == Legacy && table !in SEARCH_TABLES ==> r == ValidateTable(table, SEARCH_TABLES).PropagateFailure()
    ensures r.Ok? ==> r.value.fields == ParseList(fieldsStr) && r.value.fields != [] && term != []
    ensures r.Ok? && d == Legacy ==>
              forall i :: 0 <= i < |r.value.fields| ==> r.value.fields[i] in SearchFields(table).value
    ensures r.Ok? ==> r.value.table == table
    ensures r.Ok? && d == Current ==>
              searchable.Ok? && WhereOf(d, table, searchable.value, term).Ok?
              && r.value.whereSql == Join(WhereOf(d, table, searchable.value, term).value.parts, " AND ")
              && r.value.values == WhereOf(d, table, searchable.value, term).value.values
    ensures r.Ok? && d == Legacy ==>
              table in SEARCH_TABLES && WhereOf(d, table, SearchColumns(table).value, term).Ok?
              && r.value.whereSql == Join(WhereOf(d, table, SearchColumns(table).value, term).value.parts, " AND ")
              && r.value.values == WhereOf(d, table, SearchColumns(table).value, term).value.values
  {
    var fields := ParseList(fieldsStr);
    match d
    case Current =>
      if fields == [] then Err(InvalidParameter("fields cannot be empty"))
      else if term == [] then Err(InvalidParameter("term cannot be empty"))
      else
        (match searchable
         case Err(e) => Err(e)
         case Ok(keys) => Assemble(table, fields, WhereOf(d, table, keys, term)))
    case Legacy =>
      if table !in SEARCH_TABLES then ValidateTable(table, SEARCH_TABLES).PropagateFailure()
      else if fields == [] then Err(InvalidParameter("fields cannot be empty"))
      else
        (match FieldsCheck(fields, SearchFields(table).value)
         case Err(e) => Err(e)
         case Ok(_) =>
           if term == [] then Err(InvalidParameter("term cannot be empty"))
           else Assemble(table, fields, WhereOf(d, table, SearchColumns(table).value, term)))
  }

  /** `cmd_search`, calling the validation and the term loop in order. */
  method Search(d: Dialect, table: string, fieldsStr: string, term: seq<(string, Json)>,
                searchable: Result<seq<string>, AppError>)
    returns (r: Result<SearchQuery, AppError>)
    ensures r == SearchPlan(d, table, fieldsStr, term, searchable)
  {
    var fields := ParseList(fieldsStr);
    var keys: seq<string>;
    if d == Legacy {
      var ok := ValidateTable(table, SEARCH_TABLES);
      if ok.Err? {
        return ok.PropagateFailure();
      }
    }
    if fields == [] {
      return Err(InvalidParameter("fields cannot be empty"));
    }
    if d == Legacy {
      var ok := ValidateFields(fields, SearchFields(table).value);
      if ok.Err? {
        return Err(ok.error);
      }
    }
    if term == [] {
      return Err(InvalidParameter("term cannot be empty"));
    }
    if d == Current {
      if searchable.Err? {
        return Err(searchable.error);
      }
      keys := searchable.value;
    } else {
      keys := SearchColumns(table).value;
    }
    var w := BuildWhere(d, table, keys, term);
    if w.Err? {
      return Err(w.error);
    }
    return Ok(SearchQuery(table, fields, Join(w.value.parts, " AND "), w.value.values));
  }

  /** In a built plan, term `i` has been validated, contributes its own WHERE
      part to the ` AND `-joined text at position `i`, and binds its prepared
      value at position `i`. */
  lemma SearchPlanTerm(table: string, fieldsStr: string, term: seq<(string, Json)>,
                       keys: seq<string>, i: nat)
    requires i < |term| && SearchPlan(Current, table, fieldsStr, term, Ok(keys)).Ok?
    ensures var q := SearchPlan(Current, table, fieldsStr, term, Ok(keys)).value;
      var c := TermClause(Current, table, keys, term[i].0, term[i].1);
      c.Ok? && |q.values| == |term| && q.values[i] == c.value.bound
      && exists parts :: |parts| == |term| && q.whereSql == Join(parts, " AND ")
                         && parts[i] == WherePart(Current, term[i].0, c.value.mode)
  {
    WhereOfOk(Current, table, keys, term, i);
    var w := WhereOf(Current, table, keys, term).value;
    assert |w.parts| == |term| && w.parts[i] == WherePart(Current, term[i].0,
      TermClause(Current, table, keys, term[i].0, term[i].1).value.mode);
  }

  /** A term key outside the searchable list is rejected, naming the key, once
      the fields and term are non-empty and no earlier term failed. */
  lemma UnknownTermKeyRejected(table: string, fieldsStr: string, term: seq<(string, Json)>,
                               keys: seq<string>, k: nat)
    requires ParseList(fieldsStr) != [] && k < |term| && term[k].0 !in keys
    requires forall i :: 0 <= i < k ==> TermClause(Current, table, keys, term[i].0, term[i].1).Ok?
    ensures SearchPlan(Current, table, fieldsStr, term, Ok(keys))
            == Err(InvalidParameter("Invalid term key for " + table + ": " + term[k].0
                                    + ". Allowed: " + Join(keys, ", ")))
  {
    WhereOfFirstError(Current, table, keys, term, k);
  }

  /** A mode outside the five is rejected; a missing mode means exact. */
  lemma ModeDefaultsToExact(cond: Json)
    requires cond.JObj? && "match" !in cond.fields
    ensures ParseMatchMode(ModeText(cond)) == Some(Exact)
  {
  }

  // ---------------------------------------------------------------------
  // Duplicates: grouping sorted rows into runs of equal lower-cased names
  // ---------------------------------------------------------------------

  datatype Row = Row(id: string, name: string, songCount: int)

  datatype Group = Group(name: string, records: seq<Row>)

  function Flatten(gs: seq<Group>): seq<Row> {
    if gs == [] then [] else Flatten(gs[..|gs| - 1]) + gs[|gs| - 1].records
  }

  /** Each group is a non-empty run of rows whose names lower-case to the
      group's name, and neighbouring groups have different names. */
  predicate WellGrouped(gs: seq<Group>) {
    (forall g :: 0 <= g < |gs| ==> Uniform(gs[g]))
    && forall g :: 0 <= g < |gs| - 1 ==> gs[g].name != gs[g + 1].name
  }

  /** A non-empty run of rows whose names lower-case to the group's name. */
  predicate Uniform(g: Group) {
    g.records != [] && AllNamed(g.records, g.name)
  }

  /** Every row's name lower-cases to `name`. */
  predicate AllNamed(rs: seq<Row>, name: string) {
    forall j :: 0 <= j < |rs| ==> AsciiLower(rs[j].name) == name
  }

  lemma AllNamedSnoc(rs: seq<Row>, r: Row, name: string)
    requires AllNamed(rs, name) && AsciiLower(r.name) == name
    ensures AllNamed(rs + [r], name)
  {
  }

  lemma WellGroupedAppend(gs: seq<Group>, g: Group)
    requires WellGrouped(gs) && Uniform(g)
    requires gs != [] ==> gs[|gs| - 1].name != g.name
    ensures WellGrouped(gs + [g])
  {
  }

  lemma FlattenAppend(gs: seq<Group>, g: Group)
    ensures Flatten(gs + [g]) == Flatten(gs) + g.records
  {
    assert (gs + [g])[..|gs|] == gs;
  }

  /** Adding the next row to the open run keeps the rows seen so far
      accounted for. */
  lemma TakeRow(rows: seq<Row>, i: nat, gs: seq<Group>, records: seq<Row>)
    requires i < |rows| && Flatten(gs) + records == rows[..i]
    ensures Flatten(gs) + (records + [rows[i]]) == rows[..i + 1]
  {
    assert rows[..i + 1] == rows[..i] + [rows[i]];
  }

  /** Closing the open run as a group keeps the rows accounted for. */
  lemma CloseRun(gs: seq<Group>, g: Group, seen: seq<Row>)
    requires Flatten(gs) + g.records == seen
    ensures Flatten(gs + [g]) + [] == seen
  {
    FlattenAppend(gs, g);
  }

  /** The grouping loop of `cmd_duplicates`. */
  method GroupRuns(rows: seq<Row>) returns (groups: seq<Group>)
    ensures Flatten(groups) == rows
    ensures WellGrouped(groups)
  {
    groups := [];
    var current: Option<string> := None;
    var records: seq<Row> := [];
    for i := 0 to |rows|
      invariant Flatten(groups) + records == rows[..i]
      invariant WellGrouped(groups)
      invariant i > 0 <==> records != []
      invariant records != [] ==> current.Some? && AllNamed(records, current.value)
      invariant records != [] && groups != [] ==> groups[|groups| - 1].name != current.value
    {
      var lower := AsciiLower(rows[i].name);
      if current != Some(lower) {
        if records != [] {
          CloseRun(groups, Group(current.value, records), rows[..i]);
          WellGroupedAppend(groups, Group(current.value, records));
          groups := groups + [Group(current.value, records)];
          records := [];
        }
        current := Some(lower);
      }
      TakeRow(rows, i, groups, records);
      AllNamedSnoc(records, rows[i], lower);
      records := records + [rows[i]];
    }
    if records != [] {
      CloseRun(groups, Group(current.value, records), rows);
      WellGroupedAppend(groups, Group(current.value, records));
      groups := groups + [Group(current.value, records)];
    }
    assert rows[..|rows|] == rows;
  }

  // ---------------------------------------------------------------------
  // Artist ids
  // ---------------------------------------------------------------------

  /** The id list of `shows-by-artist-ids` and `songs-by-artist-ids`. */
  function ArtistIds(s: string): (r: Result<seq<string>, AppError>)
    ensures r.Err? <==> ParseList(s) == []
    ensures r.Err? ==> r.error == InvalidParameter("artist_ids cannot be empty")
    ensures r.Ok? ==> r.value == ParseList(s) && r.value != []
  {
    var ids := ParseList(s);
    if ids == [] then Err(InvalidParameter("artist_ids cannot be empty")) else Ok(ids)
  }

  /** Any non-empty list of clean ids, joined with commas, is accepted as itself. */
  lemma ArtistIdsJoin(ids: seq<string>)
    requires ids != []
    requires forall i :: 0 <= i < |ids| ==> ids[i] != "" && IsTrimmed(ids[i]) && ',' !in ids[i]
    ensures ArtistIds(Join(ids, ",")) == Ok(ids)
  {
    ParseListJoin(ids);
  }

  /** A blank or comma-only argument is rejected. */
  lemma ArtistIdsBlank(s: string)
    requires forall i :: 0 <= i < |Split(s, ',')| ==> Trim(Split(s, ',')[i]) == ""
    ensures ArtistIds(s).Err?
  {
    ParseListUnfold(s);
    BlankPiecesParseEmpty(Split(s, ','));
  }
}
