/**
 * `src/app/reports/actions.ts`: users reporting content and admins working
 * through the reports. The `reports` and `report_actions` tables are the
 * fields of a `ReportStore`; the signed-in user, the `ADMIN_EMAIL`
 * setting, the caller's `users.role`, the ids the database assigns and the
 * failure of each query are inputs.
 */
module ReportsActions {
  import opened Wrappers
  import opened Strings

  /** The signed-in user as `auth.getUser()` returns it. */
  datatype AuthUser = AuthUser(id: string, email: Option<string>)

  /** What `getAdminContext` decides: the admin's id, or why not. */
  datatype AdminContext = Admin(userId: string) | Denied(error: string)

  /**
   * `getAdminContext()`: the configured admin address is let in without a
   * role lookup; anyone else needs the `admin` role.
   */
  function GetAdminContext(user: Option<AuthUser>, adminEmailEnv: Option<string>, role: Option<string>): (c: AdminContext)
    ensures user.None? <==> c == Denied("Not authenticated")
    ensures c.Admin? ==> user.Some? && c.userId == user.value.id
    ensures user.Some? ==> (c.Admin? <==>
      || (adminEmailEnv.Some? && Trim(adminEmailEnv.value) != "" && user.value.email == Some(Trim(adminEmailEnv.value)))
      || role == Some("admin"))
    ensures c.Denied? ==> c.error in {"Not authenticated", "Forbidden"}
  {
    if user.None? then Denied("Not authenticated")
    else
      var adminEmail := if adminEmailEnv.Some? then Trim(adminEmailEnv.value) else "";
      if adminEmail != "" && user.value.email == Some(adminEmail) then Admin(user.value.id)
      else if role != Some("admin") then Denied("Forbidden")
      else Admin(user.value.id)
  }

  /** The configured address is admin whatever its stored role; spaces around the setting do not matter. */
  lemma AdminEmailBypassesRole(id: string, email: string, role: Option<string>)
    requires email != "" && !IsSpace(email[0]) && !IsSpace(email[|email| - 1])
    ensures GetAdminContext(Some(AuthUser(id, Some(email))), Some(email), role) == Admin(id)
    ensures GetAdminContext(Some(AuthUser(id, Some(email))), Some(" " + email + " "), role) == Admin(id)
  {
    TrimOfTrimmed(email);
    TrimPadded(email);
  }

  lemma TrimPadded(email: string)
    requires email != "" && !IsSpace(email[0]) && !IsSpace(email[|email| - 1])
    ensures Trim(" " + email + " ") == email
  {
    var t := " " + email + " ";
    TrimOfTrimmed(email);
    assert TrimStart(t) == email + " " by {
      assert t[1..] == email + " ";
    }
    assert TrimEnd(email + " ") == email by {
      assert (email + " ")[..|email|] == email;
    }
  }

  /** A `reports` row; `status` is `pending`, `resolved` or `dismissed`. */
  datatype Report = Report(id: string, reporterUserId: string, targetType: string, targetId: string, reason: string,
                           description: Option<string>, status: string)

  /** A `report_actions` row. */
  datatype ReportAction = ReportAction(reportId: string, adminUserId: string, action: string, notes: Option<string>)

  /** `{ success?, data?, error? }` of the write actions. */
  datatype WriteResult = Done | Failed(error: string)

  /** The joined reporter as `getReports` maps it. */
  datatype Reporter = Reporter(id: string, fullName: string, email: string)

  /** A report row with the optional join, as the select returns it. */
  datatype ReportRow = ReportRow(report: Report, reporter: Option<(string, Option<string>, Option<string>)>)

  /** A report as `getReports` hands it out. */
  datatype ReportView = ReportView(report: Report, reporter: Option<Reporter>)

  /** `dismiss` dismisses; any other action resolves. */
  function StatusFor(action: string): (s: string)
    ensures s == "dismissed" <==> action == "dismiss"
    ensures s in {"dismissed", "resolved"}
  {
    if action == "dismiss" then "dismissed" else "resolved"
  }

  /** `x || null`. */
  function NonEmpty(s: Option<string>): (r: Option<string>)
    ensures r.Some? <==> s.Some? && s.value != ""
    ensures r.Some? ==> r == s
  {
    if s.Some? && s.value != "" then s else None
  }

  /** The reporter mapping: `'Unknown'` for a missing name, `''` for a missing email. */
  function MapReport(row: ReportRow): (v: ReportView)
    ensures v.report == row.report
    ensures v.reporter.Some? <==> row.reporter.Some?
    ensures row.reporter.Some? ==> v.reporter.value.id == row.reporter.value.0
    ensures row.reporter.Some? ==>
      v.reporter.value.fullName == (if NonEmpty(row.reporter.value.1).None? then "Unknown" else row.reporter.value.1.value)
    ensures row.reporter.Some? ==>
      v.reporter.value.email == (if NonEmpty(row.reporter.value.2).None? then "" else row.reporter.value.2.value)
  {
    match row.reporter
    case None => ReportView(row.report, None)
    case Some(j) =>
      var name := NonEmpty(j.1);
      var email := NonEmpty(j.2);
      ReportView(row.report, Some(Reporter(j.0, if name.Some? then name.value else "Unknown",
                                           if email.Some? then email.value else "")))
  }

  /** The `status` / `targetType` filter; empty strings filter nothing. */
  predicate RowSelected(row: ReportRow, status: Option<string>, targetType: Option<string>) {
    && (status.Some? && status.value != "" ==> row.report.status == status.value)
    && (targetType.Some? && targetType.value != "" ==> row.report.targetType == targetType.value)
  }

  function SelectReports(rows: seq<ReportRow>, status: Option<string>, targetType: Option<string>): (r: seq<ReportView>)
    ensures |r| <= |rows|
    ensures forall v :: v in r <==> exists k :: 0 <= k < |rows| && RowSelected(rows[k], status, targetType) && v == MapReport(rows[k])
  {
    if rows == [] then []
    else
      var rest := SelectReports(rows[1..], status, targetType);
      assert forall k :: 1 <= k < |rows| ==> rows[k] == rows[1..][k - 1];
      if RowSelected(rows[0], status, targetType) then [MapReport(rows[0])] + rest else rest
  }

  /** `{ data, error? }` of the admin reads. */
  datatype Listing<T> = Listing(error: Option<string>, data: seq<T>)

  /** `getReports(filter)`: `rows` is the joined select, newest first. */
  function GetReports(context: AdminContext, rows: Result<seq<ReportRow>, string>, status: Option<string>,
                      targetType: Option<string>): (r: Listing<ReportView>)
    ensures context.Denied? ==> r == Listing(Some(context.error), [])
    ensures context.Admin? && rows.Err? ==> r == Listing(Some("Failed to fetch reports."), [])
    ensures context.Admin? && rows.Ok? ==> r.error.None? && forall v :: v in r.data ==>
      v.report in (set k | 0 <= k < |rows.value| :: rows.value[k].report) && RowSelectedView(v, status, targetType)
    ensures context.Admin? && rows.Ok? ==> r == Listing(None, SelectReports(rows.value, status, targetType))
  {
    if context.Denied? then Listing(Some(context.error), [])
    else if rows.Err? then Listing(Some("Failed to fetch reports."), [])
    else Listing(None, SelectReports(rows.value, status, targetType))
  }

  predicate RowSelectedView(v: ReportView, status: Option<string>, targetType: Option<string>) {
    && (status.Some? && status.value != "" ==> v.report.status == status.value)
    && (targetType.Some? && targetType.value != "" ==> v.report.targetType == targetType.value)
  }

  /** `getReportActions(reportId)`: the actions logged for one report. */
  function GetReportActions(context: AdminContext, rows: Result<seq<ReportAction>, string>, reportId: string): (r: Listing<ReportAction>)
    ensures context.Denied? ==> r == Listing(Some(context.error), [])
    ensures context.Admin? && rows.Err? ==> r == Listing(Some("Failed to fetch report actions."), [])
    ensures context.Admin? && rows.Ok? ==> r.error.None? && forall a :: a in r.data <==> a in rows.value && a.reportId == reportId
  {
    if context.Denied? then Listing(Some(context.error), [])
    else if rows.Err? then Listing(Some("Failed to fetch report actions."), [])
    else Listing(None, ActionsOf(rows.value, reportId))
  }

  function ActionsOf(rows: seq<ReportAction>, reportId: string): (r: seq<ReportAction>)
    ensures forall a :: a in r <==> a in rows && a.reportId == reportId
  {
    if rows == [] then []
    else
      var rest := ActionsOf(rows[1..], reportId);
      assert forall a :: a in rows <==> a == rows[0] || a in rows[1..];
      if rows[0].reportId == reportId then [rows[0]] + rest else rest
  }

  class ReportStore {
    var reports: map<string, Report>
    var actions: seq<ReportAction>

    constructor (reports: map<string, Report>, actions: seq<ReportAction>)
      ensures this.reports == reports && this.actions == actions
    {
      this.reports := reports;
      this.actions := actions;
    }

    /**
     * `submitReport(data)`: a signed-in user with a target type, a target
     * id and a reason files a pending report. `newId` is the id the
     * database gives the row.
     */
    method SubmitReport(user: Option<string>, targetType: string, targetId: string, reason: string,
                        description: Option<string>, newId: string, insertFails: bool)
      returns (r: WriteResult, report: Option<Report>)
      modifies this
      ensures actions == old(actions)
      ensures user.None? ==> r == Failed("You must be logged in to submit a report.") && reports == old(reports)
      ensures user.Some? && (targetType == "" || targetId == "" || reason == "") ==>
        r == Failed("Missing required fields.") && reports == old(reports)
      ensures user.Some? && targetType != "" && targetId != "" && reason != "" && insertFails ==>
        r == Failed("Failed to submit report.") && reports == old(reports)
      ensures r.Done? <==> user.Some? && targetType != "" && targetId != "" && reason != "" && !insertFails
      ensures r.Done? ==> && report == Some(Report(newId, user.value, targetType, targetId, reason, NonEmpty(description), "pending"))
                          && reports == old(reports)[newId := report.value]
      ensures r.Failed? ==> report.None?
    {
      report := None;
      if user.None? {
        return Failed("You must be logged in to submit a report."), None;
      }
      if targetType == "" || targetId == "" || reason == "" {
        return Failed("Missing required fields."), None;
      }
      if insertFails {
        return Failed("Failed to submit report."), None;
      }
      var row := Report(newId, user.value, targetType, targetId, reason, NonEmpty(description), "pending");
      reports := reports[newId := row];
      r, report := Done, Some(row);
    }

    /**
     * `resolveReport(reportId, action, notes)`: an admin sets the status
     * and then logs the action. The two writes are separate, so when the
     * log insert fails the new status stays although the call reports a
     * failure. An id that matches no report updates nothing and still logs.
     */
    method ResolveReport(context: AdminContext, reportId: string, action: string, notes: Option<string>,
                         updateFails: bool, logFails: bool)
      returns (r: WriteResult)
      modifies this
      ensures context.Denied? ==> r == Failed(context.error) && reports == old(reports) && actions == old(actions)
      ensures context.Admin? && updateFails ==>
        r == Failed("Failed to resolve report.") && reports == old(reports) && actions == old(actions)
      ensures context.Admin? && !updateFails ==>
        && reports == (if reportId in old(reports) then old(reports)[reportId := old(reports)[reportId].(status := StatusFor(action))]
                       else old(reports))
        && (logFails ==> r == Failed("Failed to resolve report.") && actions == old(actions))
        && (!logFails ==> r == Done && actions == old(actions) + [ReportAction(reportId, context.userId, action, NonEmpty(notes))])
    {
      if context.Denied? {
        return Failed(context.error);
      }
      var newStatus := StatusFor(action);
      if updateFails {
        return Failed("Failed to resolve report.");
      }
      if reportId in reports {
        reports := reports[reportId := reports[reportId].(status := newStatus)];
      }
      if logFails {
        return Failed("Failed to resolve report.");
      }
      actions := actions + [ReportAction(reportId, context.userId, action, NonEmpty(notes))];
      r := Done;
    }
  }

  /** A successful resolution is visible in the report's action history. */
  lemma ResolutionLogged(before: seq<ReportAction>, reportId: string, admin: string, action: string, notes: Option<string>)
    ensures ReportAction(reportId, admin, action, NonEmpty(notes)) in
      GetReportActions(Admin(admin), Ok(before + [ReportAction(reportId, admin, action, NonEmpty(notes))]), reportId).data
  {
  }
}
