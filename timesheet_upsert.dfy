/**
 * The timesheet save action (app/routes/timesheets.new/route.tsx, `action`):
 * the three required fields are checked, then the posted `id` decides
 * between updating that row and inserting a new one, and a successful write
 * redirects to the listing.
 *
 * The timesheets table is a map from row id to row with the next id SQLite
 * would hand out; form values are optional strings, as `formData.get` gives.
 */
module TimesheetUpsert {
  import opened Options
  import opened Text
  import TimesheetForm

  /** A stored timesheet, with the values as posted. */
  datatype Timesheet = Timesheet(employeeId: string, startTime: string, endTime: string, notes: Option<string>)

  /** The posted form: each entry is absent (null) or the text sent. */
  datatype FormData = FormData(
    id: Option<string>,
    employeeId: Option<string>,
    startTime: Option<string>,
    endTime: Option<string>,
    notes: Option<string>)

  /** How the action ends: a redirect, or the error it throws. */
  datatype Outcome = Redirect(location: string) | Failed(message: string)

  const MissingFieldsMessage := "Missing required form fields"
  const ListingPath := "/timesheets"

  /** A form value that is truthy: present and not empty. */
  predicate Filled(v: Option<string>) {
    v.Some? && v.value != ""
  }

  predicate HasRequiredFields(form: FormData) {
    Filled(form.employeeId) && Filled(form.startTime) && Filled(form.endTime)
  }

  /** The row the posted values describe; notes may be absent. */
  function Entry(form: FormData): (row: Timesheet)
    requires HasRequiredFields(form)
  {
    Timesheet(form.employeeId.value, form.startTime.value, form.endTime.value, form.notes)
  }

  /**
   * The row id `WHERE id = ?` matches for the posted text: the number a
   * string of decimal digits denotes, and no row for any other text.
   */
  function RowKey(id: string): (key: Option<nat>)
    ensures key.Some? <==> id != "" && AllDigits(id)
  {
    if id != "" && AllDigits(id) then Some(DecimalValue(id)) else None
  }

  /** The id the edit form posts back selects the row it was filled from. */
  lemma HiddenIdSelectsItsRow(id: nat)
    requires id != 0
    ensures TimesheetForm.HiddenIdField(Some(id)).Some?
    ensures Filled(Some(TimesheetForm.HiddenIdField(Some(id)).value))
    ensures RowKey(TimesheetForm.HiddenIdField(Some(id)).value) == Some(id)
  {
  }

  /** UPDATE ... WHERE id = key: the matching row, if any, gets `row`. */
  function Updated(rows: map<nat, Timesheet>, key: Option<nat>, row: Timesheet): (r: map<nat, Timesheet>)
    ensures r.Keys == rows.Keys
    ensures forall k :: k in rows && Some(k) != key ==> r[k] == rows[k]
    ensures key.Some? && key.value in rows ==> r[key.value] == row
    ensures !(key.Some? && key.value in rows) ==> r == rows
  {
    if key.Some? && key.value in rows then rows[key.value := row] else rows
  }

  /** An update keeps the number of rows. */
  lemma UpdateKeepsCount(rows: map<nat, Timesheet>, key: Option<nat>, row: Timesheet)
    ensures |Updated(rows, key, row)| == |rows|
  {
    assert Updated(rows, key, row).Keys == rows.Keys;
  }

  /** An insert under an unused id adds exactly one row and keeps the others. */
  lemma InsertAddsOne(rows: map<nat, Timesheet>, newId: nat, row: Timesheet)
    requires newId !in rows
    ensures |rows[newId := row]| == |rows| + 1
    ensures forall k :: k in rows ==> rows[newId := row][k] == rows[k]
  {
    assert rows[newId := row].Keys == rows.Keys + {newId};
  }

  /** The timesheets table. */
  class Table {
    var rows: map<nat, Timesheet>
    var nextId: nat

    /**
     * Row ids start at 1 and stay below the next id to be handed out, and the
     * next id is one past the last id handed out, as SQLite's rowid is.
     */
    ghost predicate Valid()
      reads this
    {
      && nextId >= 1
      && (forall k :: k in rows ==> 1 <= k < nextId)
      // the last id handed out still names a row, as no row is ever deleted
      && ((rows == map[] && nextId == 1) || nextId - 1 in rows)
    }

    constructor ()
      ensures Valid() && rows == map[] && nextId == 1
    {
      rows := map[];
      nextId := 1;
    }

    /**
     * The action. Without the three required fields it fails and nothing
     * changes; with a truthy id it updates the row that id names (if any);
     * otherwise it inserts the row under the next id. Both writes redirect
     * to the listing.
     */
    method Action(form: FormData) returns (outcome: Outcome)
      requires Valid()
      modifies this
      ensures Valid()
      ensures !HasRequiredFields(form) ==>
        outcome == Failed(MissingFieldsMessage) && rows == old(rows) && nextId == old(nextId)
      ensures HasRequiredFields(form) ==> outcome == Redirect(ListingPath)
      ensures HasRequiredFields(form) && Filled(form.id) ==>
        rows == Updated(old(rows), RowKey(form.id.value), Entry(form)) && nextId == old(nextId)
      ensures HasRequiredFields(form) && !Filled(form.id) ==>
        rows == old(rows)[old(nextId) := Entry(form)] && nextId == old(nextId) + 1
      // what the change amounts to: the row count and the rows left alone
      ensures HasRequiredFields(form) && Filled(form.id) ==> |rows| == |old(rows)|
      ensures HasRequiredFields(form) && !Filled(form.id) ==> |rows| == |old(rows)| + 1
      ensures forall k :: k in old(rows) && !(Filled(form.id) && RowKey(form.id.value) == Some(k)) ==>
        k in rows && rows[k] == old(rows)[k]
    {
      if !HasRequiredFields(form) {
        return Failed(MissingFieldsMessage);
      }
      if Filled(form.id) {
        UpdateKeepsCount(rows, RowKey(form.id.value), Entry(form));
        rows := Updated(rows, RowKey(form.id.value), Entry(form));
      } else {
        InsertAddsOne(rows, nextId, Entry(form));
        rows := rows[nextId := Entry(form)];
        nextId := nextId + 1;
      }
      return Redirect(ListingPath);
    }
  }
}
