/** The browser backend (supabase-config.js): the same applications table, reached through the
    Supabase client. The client is an oracle: each call takes `error`, the error it reports, if
    any. Every failure comes back as a value; none is thrown. */
module SupabaseBackend {
  import opened Wrappers
  import opened Seqs
  import opened Registry
  import LocalDatabase

  /** The ten form fields `submitApplication` keeps. */
  const SubmittedFields: set<string> := LocalDatabase.ApplicationFields + {"photo_url"}

  /** The row `submitApplication` sends: the ten fields as the form has them, and `pending`. */
  function SubmittedRecord(form: Record): Record {
    Project(form, SubmittedFields)[StatusColumn := Pending]
  }

  /** The sent row is pending whatever the form says and otherwise holds exactly the ten fields
      the form has, with the form's values; any other field is dropped. */
  lemma SubmittedRecordShape(form: Record)
    ensures var r := SubmittedRecord(form);
      && r[StatusColumn] == Pending
      && r.Keys == (form.Keys * SubmittedFields) + {StatusColumn}
      && (forall k :: k in SubmittedFields && k in form ==> r[k] == form[k])
  {
  }

  /** The two backends store the same application row, except that the local one fills in an
      empty `photo_url` where the form has no truthy one. They agree exactly when the form has a
      `photo_url`. */
  lemma BackendsStoreTheSameRow(form: Record)
    ensures LocalDatabase.ApplicationRecord(form)
         == SubmittedRecord(form)["photo_url" := LocalDatabase.OrDefault(form, "photo_url", "")]
    ensures (LocalDatabase.ApplicationRecord(form) == SubmittedRecord(form)) <==> "photo_url" in form
  {
    var l := LocalDatabase.ApplicationRecord(form);
    var s := SubmittedRecord(form);
    assert l == s["photo_url" := LocalDatabase.OrDefault(form, "photo_url", "")];
    if l == s {
      assert "photo_url" in l;
    }
  }

  /** `submitApplication(formData)`. */
  method SubmitApplication(applications: Table, form: Record, error: Option<string>, now: int) returns (r: Outcome)
    requires applications.Valid()
    modifies applications
    ensures applications.Valid()
    ensures if error.Some? then r == Failed(error.value) && applications.rows == old(applications.rows)
                                && applications.nextId == old(applications.nextId)
            else r == Done && applications.nextId == old(applications.nextId) + 1
                 && applications.rows == old(applications.rows) + [Row(old(applications.nextId), now, now, SubmittedRecord(form))]
  {
    if error.Some? {
      return Failed(error.value);
    }
    var _ := applications.Insert(SubmittedRecord(form), now);
    r := Done;
  }

  /** `getApplications(status)`: the table ordered newest first, and then filtered on `status`
      when it is truthy. */
  method GetApplications(applications: Table, status: string, error: Option<string>) returns (r: Result<seq<Row>>)
    ensures r == if error.Some? then Failure(error.value) else Success(Listing(applications.rows, StatusColumn, status))
  {
    if error.Some? {
      return Failure(error.value);
    }
    var rows := SortNewestFirst(applications.rows);
    if status != "" {
      SortFilterCommute(applications.rows, FieldIs(StatusColumn, status));
      rows := Filter(rows, FieldIs(StatusColumn, status));
    }
    r := Success(rows);
  }

  /** `updateApplicationStatus(id, status)`: sets the status of the rows with that id and leaves
      `updated_at` alone. */
  method UpdateApplicationStatus(applications: Table, id: nat, status: string, error: Option<string>) returns (r: Outcome)
    requires applications.Valid()
    modifies applications`rows
    ensures applications.Valid()
    ensures if error.Some? then r == Failed(error.value) && applications.rows == old(applications.rows)
            else r == Done && applications.rows == WithStatus(old(applications.rows), id, Some(status), None)
  {
    if error.Some? {
      return Failed(error.value);
    }
    applications.UpdateStatus(id, Some(status), None);
    r := Done;
  }

  /** The two backends' updates leave the same rows, with the same columns; they differ only in
      the `updated_at` of the updated row, which the local one sets to the time of the update. */
  lemma UpdatesDifferOnlyInUpdatedAt(rows: seq<Row>, id: nat, status: string, now: int)
    ensures var l, s := WithStatus(rows, id, Some(status), Some(now)), WithStatus(rows, id, Some(status), None);
      && |l| == |s| == |rows|
      && forall i :: 0 <= i < |rows| ==>
           && l[i] == s[i].(updatedAt := l[i].updatedAt)
           && s[i].updatedAt == rows[i].updatedAt
           && l[i].updatedAt == (if rows[i].id == id then now else rows[i].updatedAt)
  {
    WithStatusTouchesOnlyThatRow(rows, id, Some(status), Some(now));
    WithStatusTouchesOnlyThatRow(rows, id, Some(status), None);
    var l, s := WithStatus(rows, id, Some(status), Some(now)), WithStatus(rows, id, Some(status), None);
    forall i | 0 <= i < |rows| ensures l[i] == s[i].(updatedAt := l[i].updatedAt) {
      if rows[i].id == id {
        assert l[i].record == s[i].record;
      }
    }
  }

  /** `getStatistics()`: the four counts; a count the client reports no value for reads 0
      (`count || 0`). */
  method GetStatistics(applications: Table, totalError: Option<string>, pendingError: Option<string>,
                       approvedError: Option<string>, rejectedError: Option<string>) returns (r: Result<Stats>)
    ensures r == Success(LocalDatabase.StatsAfter(applications.rows, totalError.Some?, pendingError.Some?,
                                                  approvedError.Some?, rejectedError.Some?))
  {
    var rows := applications.rows;
    var total := if totalError.Some? then 0 else |rows|;
    var pending := if pendingError.Some? then 0 else CountWhere(rows, StatusColumn, Pending);
    var approved := if approvedError.Some? then 0 else CountWhere(rows, StatusColumn, Approved);
    var rejected := if rejectedError.Some? then 0 else CountWhere(rows, StatusColumn, Rejected);
    r := Success(Stats(total, pending, approved, rejected));
  }
}
