/**
 * The timesheet listing page (app/routes/timesheets._index/route.tsx): the
 * loader that turns the optional `search` and `employeeId` filters into WHERE
 * conditions and bound parameters, the `toDateOnly` helper, and the mapping
 * of joined timesheet rows to calendar events.
 *
 * The database is not modelled: the loader returns the query text and the
 * parameters it would run instead of the rows.
 */
module TimesheetListing {
  import opened Options
  import opened Text

  /** The join of timesheets with their employees, line by line as the template literal lays it out. */
  const SelectLine := "\n    SELECT timesheets.*," + " employees.full_name," + " employees.id AS employee_id"
  const FromLine := "\n    FROM timesheets"
  const JoinLine := "\n    JOIN employees" + " ON timesheets.employee_id" + " = employees.id"
  const EndLine := "\n  "
  const BaseQuery := SelectLine + FromLine + JoinLine + EndLine

  const SearchCondition := "employees.full_name LIKE " + Placeholder
  const EmployeeCondition := "employees.id = " + Placeholder

  /** What the loader builds: the trimmed filters, the conditions, the query and its parameters. */
  datatype Filtered = Filtered(
    search: string,
    employeeId: string,
    conditions: seq<string>,
    query: string,
    params: seq<string>)

  /** The base query, followed by the conditions joined with AND when there is at least one. */
  function WithConditions(conditions: seq<string>): (query: string) {
    if |conditions| > 0 then BaseQuery + " WHERE " + Join(conditions, " AND ") else BaseQuery
  }

  /**
   * The loader. Each non-empty trimmed filter pushes one condition and one
   * parameter, the search first; WHERE is added only when a condition was pushed.
   */
  method Loader(searchParam: Option<string>, employeeIdParam: Option<string>) returns (r: Filtered)
    ensures r.search == TrimmedOrEmpty(searchParam) && r.employeeId == TrimmedOrEmpty(employeeIdParam)
    // a filter that is absent or only white space adds nothing
    ensures r.search == "" <==> searchParam.None? || AllWhitespace(searchParam.value)
    ensures r.employeeId == "" <==> employeeIdParam.None? || AllWhitespace(employeeIdParam.value)
    ensures |r.params| == |r.conditions|
    ensures r.query == WithConditions(r.conditions)
    // every `?` of the query has its parameter
    ensures Occurrences(r.query, '?') == |r.params|
    ensures r.search != "" && r.employeeId != "" ==>
      r.conditions == [SearchCondition, EmployeeCondition] && r.params == ["%" + r.search + "%", r.employeeId]
    ensures r.search != "" && r.employeeId == "" ==>
      r.conditions == [SearchCondition] && r.params == ["%" + r.search + "%"]
    ensures r.search == "" && r.employeeId != "" ==>
      r.conditions == [EmployeeCondition] && r.params == [r.employeeId]
    ensures r.search == "" && r.employeeId == "" ==>
      r.conditions == [] && r.params == [] && r.query == BaseQuery
  {
    var search := TrimmedOrEmpty(searchParam);
    var employeeId := TrimmedOrEmpty(employeeIdParam);

    var query := BaseQuery;
    var params: seq<string> := [];
    var conditions: seq<string> := [];

    if search != "" {
      conditions := conditions + [SearchCondition];
      params := params + ["%" + search + "%"];
    }

    if employeeId != "" {
      conditions := conditions + [EmployeeCondition];
      params := params + [employeeId];
    }

    if |conditions| > 0 {
      query := query + " WHERE " + Join(conditions, " AND ");
    }

    WithConditionsPlaceholders(conditions);
    if searchParam.Some? {
      TrimEmptyIffAllWhitespace(searchParam.value);
    }
    if employeeIdParam.Some? {
      TrimEmptyIffAllWhitespace(employeeIdParam.value);
    }
    r := Filtered(search, employeeId, conditions, query, params);
  }

  /** Each condition holds one `?`, and the rest of the query none. */
  lemma WithConditionsPlaceholders(conditions: seq<string>)
    requires forall i :: 0 <= i < |conditions| ==> conditions[i] in {SearchCondition, EmployeeCondition}
    ensures Occurrences(WithConditions(conditions), '?') == |conditions|
  {
    BaseQueryPlaceholders();
    if |conditions| > 0 {
      forall i | 0 <= i < |conditions|
        ensures Occurrences(conditions[i], '?') == 1
      {
        ConditionPlaceholders(conditions[i]);
      }
      NoPlaceholderInAnd();
      OccurrencesOfJoin(conditions, " AND ", '?');
      NoPlaceholderInWhere();
      OccurrencesOfConcat(BaseQuery, " WHERE ", '?');
      OccurrencesOfConcat(BaseQuery + " WHERE ", Join(conditions, " AND "), '?');
    }
  }

  lemma ConditionPlaceholders(condition: string)
    requires condition in {SearchCondition, EmployeeCondition}
    ensures Occurrences(condition, '?') == 1
  {
    PlaceholderIsOne();
    if condition == SearchCondition {
      OccurrencesAbsent("employees.full_name LIKE ", '?');
      OccurrencesOfConcat("employees.full_name LIKE ", Placeholder, '?');
    } else {
      OccurrencesAbsent("employees.id = ", '?');
      OccurrencesOfConcat("employees.id = ", Placeholder, '?');
    }
  }

  /*
   * The fixed pieces of the SQL text hold no `?`: one small lemma per piece,
   * since the solver's cost grows quickly with the number of literals in view.
   */
  lemma BaseQueryPlaceholders()
    ensures Occurrences(BaseQuery, '?') == 0
  {
    NoPlaceholderInSelectLine();
    NoPlaceholderInFromLine();
    NoPlaceholderInJoinLine();
    NoPlaceholderInEndLine();
    OccurrencesOfConcat(SelectLine, FromLine, '?');
    OccurrencesOfConcat(SelectLine + FromLine, JoinLine, '?');
    OccurrencesOfConcat(SelectLine + FromLine + JoinLine, EndLine, '?');
  }

  lemma NoPlaceholderInSelectLine()
    ensures Occurrences(SelectLine, '?') == 0
  {
    OccurrencesAbsent(SelectLine, '?');
  }

  lemma NoPlaceholderInFromLine()
    ensures Occurrences(FromLine, '?') == 0
  {
    OccurrencesAbsent(FromLine, '?');
  }

  lemma NoPlaceholderInJoinLine()
    ensures Occurrences(JoinLine, '?') == 0
  {
    OccurrencesAbsent(JoinLine, '?');
  }

  lemma NoPlaceholderInEndLine()
    ensures Occurrences(EndLine, '?') == 0
  {
    OccurrencesAbsent(EndLine, '?');
  }

  lemma NoPlaceholderInWhere()
    ensures Occurrences(" WHERE ", '?') == 0
  {
    OccurrencesAbsent(" WHERE ", '?');
  }

  lemma NoPlaceholderInAnd()
    ensures Occurrences(" AND ", '?') == 0
  {
    OccurrencesAbsent(" AND ", '?');
  }

  /** With both filters, the query ends in the two conditions joined by AND, search first. */
  lemma BothFiltersQuery(conditions: seq<string>)
    requires conditions == [SearchCondition, EmployeeCondition]
    ensures WithConditions(conditions) == BaseQuery + " WHERE " + SearchCondition + " AND " + EmployeeCondition
  {
    assert Join(conditions, " AND ") == SearchCondition + " AND " + EmployeeCondition;
  }

  /** The query is longer than the base query exactly when there is a condition. */
  lemma {:induction false} WhereIffConditions(conditions: seq<string>)
    ensures |WithConditions(conditions)| > |BaseQuery| <==> |conditions| > 0
    ensures WithConditions(conditions)[..|BaseQuery|] == BaseQuery
  {
    if |conditions| > 0 {
      var w := BaseQuery + " WHERE " + Join(conditions, " AND ");
      assert w[..|BaseQuery|] == BaseQuery;
    }
  }

  /** `toDateOnly`: the first ten characters (the date of an ISO date-time), or all of a shorter string. */
  function ToDateOnly(s: string): (r: string)
    ensures |r| == if |s| < 10 then |s| else 10
    ensures r == s[..|r|]
  {
    if s == "" then "" else s[..if |s| < 10 then |s| else 10]
  }

  /** The date part of a date-time is what `toDateOnly` keeps, whatever follows it. */
  lemma DatePartOfDateTime(date: string, time: string)
    requires |date| == 10
    ensures ToDateOnly(date + time) == date
  {
    assert (date + time)[..10] == date;
  }

  /** Applying `toDateOnly` to its own result changes nothing. */
  lemma ToDateOnlyIdempotent(s: string)
    ensures ToDateOnly(ToDateOnly(s)) == ToDateOnly(s)
  {
    var r := ToDateOnly(s);
    assert r[..|r|] == r;
  }

  /** A row of the join: the timesheet with its employee's name. */
  datatype Row = Row(id: nat, fullName: string, startTime: string, endTime: string, notes: Option<string>)

  /** A calendar event. */
  datatype Event = Event(id: string, title: string, start: string, end: string)

  /** The separator between the employee's name and the notes in a title. */
  const NotesSeparator := " - "

  /** The event for one row: its id as text, its title, and the dates of its start and end. */
  function EventOf(ts: Row): (e: Event) {
    var title := ts.fullName + if ts.notes.Some? && ts.notes.value != "" then NotesSeparator + ts.notes.value else "";
    Event(DecimalText(ts.id), title, ToDateOnly(ts.startTime), ToDateOnly(ts.endTime))
  }

  /**
   * What an event tells about its row: the id reads back to the row's id, the
   * title is the name alone when there are no notes and the name, " - " and
   * the notes otherwise, and start and end are the dates of the row's times.
   */
  lemma EventOfReadsBack(ts: Row)
    ensures AllDigits(EventOf(ts).id) && DecimalValue(EventOf(ts).id) == ts.id
    ensures EventOf(ts).title[..|ts.fullName|] == ts.fullName
    ensures ts.notes.None? || ts.notes.value == "" ==> EventOf(ts).title == ts.fullName
    ensures ts.notes.Some? && ts.notes.value != "" ==>
      |EventOf(ts).title| == |ts.fullName| + 3 + |ts.notes.value|
      && EventOf(ts).title[|ts.fullName|..|ts.fullName| + 3] == NotesSeparator
      && EventOf(ts).title[|ts.fullName| + 3..] == ts.notes.value
    ensures EventOf(ts).start == ToDateOnly(ts.startTime) && EventOf(ts).end == ToDateOnly(ts.endTime)
  {
    DecimalRoundTrip(ts.id);
    var e := EventOf(ts);
    if ts.notes.Some? && ts.notes.value != "" {
      assert e.title == ts.fullName + NotesSeparator + ts.notes.value;
      assert e.title[|ts.fullName|..|ts.fullName| + 3] == NotesSeparator;
      assert e.title[|ts.fullName| + 3..] == ts.notes.value;
    }
    assert e.title[..|ts.fullName|] == ts.fullName;
  }

  /** The events of the rows: one per row, in the rows' order. */
  function Events(rows: seq<Row>): (es: seq<Event>)
    ensures |es| == |rows|
    ensures forall i :: 0 <= i < |rows| ==> es[i] == EventOf(rows[i])
  {
    if rows == [] then [] else [EventOf(rows[0])] + Events(rows[1..])
  }

  /** Mapping keeps order: the events of two runs of rows are the two runs of events. */
  lemma {:induction false} EventsOfConcatenation(a: seq<Row>, b: seq<Row>)
    ensures Events(a + b) == Events(a) + Events(b)
  {
    if a != [] {
      assert (a + b)[1..] == a[1..] + b;
      EventsOfConcatenation(a[1..], b);
    }
  }

  /** Every event id reads back to the id of its row. */
  lemma EventIdsReadBack(rows: seq<Row>)
    ensures forall i :: 0 <= i < |rows| ==> AllDigits(Events(rows)[i].id) && DecimalValue(Events(rows)[i].id) == rows[i].id
  {
    forall i | 0 <= i < |rows|
      ensures AllDigits(Events(rows)[i].id) && DecimalValue(Events(rows)[i].id) == rows[i].id
    {
      EventOfReadsBack(rows[i]);
    }
  }

  /** Rows with different ids give events with different ids. */
  lemma DistinctRowsDistinctEvents(rows: seq<Row>)
    requires forall i, j :: 0 <= i < j < |rows| ==> rows[i].id != rows[j].id
    ensures forall i, j :: 0 <= i < j < |rows| ==> Events(rows)[i].id != Events(rows)[j].id
  {
    EventIdsReadBack(rows);
  }
}
