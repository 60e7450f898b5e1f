/** The `update` command: a reviewer picks a pending case and acts on it through
    buttons (reassign, move between trial stages, edit, finish, delete, close). The
    dialog keeps a local copy of the case and a log of the actions taken. */
module Disposition {
  import opened Text
  import opened Cells
  import opened CaseStore
  import DocketEntry

  // ---------------------------------------------------------------- the local case

  /** The case dict the dialog holds. A case picked from the list has every key; a case
      rebuilt by a refresh has no filing date. */
  datatype CaseDict = CaseDict(caseName: string, caseNumber: string, caseStatus: string, judge: string,
                               filingDate: Option<string>, filingLink: Option<string>)

  /** The dict of get_all_cases for one row. */
  function FromListed(c: ListedCase): CaseDict {
    CaseDict(c.caseName, c.caseNumber, c.caseStatus, c.judge, Some(c.filingDate), c.filingLink)
  }

  /** Python's `a or b` for two strings. */
  function OrText(a: string, b: string): (r: string)
    ensures a != "" ==> r == a
    ensures a == "" ==> r == b
  {
    if a != "" then a else b
  }

  /** Python's `a or b` for two values that may be None. */
  function OrLink(a: Option<string>, b: Option<string>): (r: Option<string>)
    ensures a.Some? && a.value != "" ==> r == a
    ensures a.None? || a.value == "" ==> r == b
  {
    if a.Some? && a.value != "" then a else b
  }

  // ---------------------------------------------------------------- who may act

  datatype Gate = OtherUser | NotReviewer | Passed

  /** The checks of the action buttons and of the delete confirmation: first the user who
      started the update, then membership of the reviewer ids (an empty set admits nobody). */
  function ActionGate(initiator: Option<int>, reviewers: set<int>, user: int): (g: Gate)
    ensures g == Passed <==> (initiator.None? || user == initiator.value) && user in reviewers
    ensures g == OtherUser <==> initiator.Some? && user != initiator.value
  {
    if initiator.Some? && user != initiator.value then OtherUser
    else if user !in reviewers then NotReviewer
    else Passed
  }

  /** The check of the edit and finish dialogs and of the pickers: only the initiator. */
  predicate InitiatorOnly(initiator: Option<int>, user: int) {
    initiator.None? || user == initiator.value
  }

  /** With no reviewer ids configured the review of a new filing admits everyone, while the
      update dialog refuses everyone, its own initiator included. */
  lemma EmptyReviewersDisagree(user: int)
    ensures DocketEntry.ReviewerAllowed({}, user)
    ensures ActionGate(Some(user), {}, user) == NotReviewer
  {
  }

  // ---------------------------------------------------------------- the trial toggle

  /** The status says the case is in trial. */
  predicate InTrial(status: string) {
    Contains(Lower(status), "in trial")
  }

  /** The toggle button is offered for statuses naming a stage. */
  predicate ShowsToggle(status: string) {
    var s := Lower(status);
    Contains(s, "pt") || Contains(s, "pre-trial") || Contains(s, "in trial") || Contains(s, "trial")
  }

  function ToggleLabel(status: string): string {
    if InTrial(status) then "Move to Pre-Trial" else "Move to Trial"
  }

  /** The status the toggle writes. */
  function ToggleTarget(status: string): string {
    if InTrial(status) then "In Pre-Trial" else "In Trial"
  }

  /** The two longer keys add nothing: both end with "trial". */
  lemma ToggleShownIff(status: string)
    ensures ShowsToggle(status) <==> Contains(Lower(status), "pt") || Contains(Lower(status), "trial")
  {
    if Contains(Lower(status), "pre-trial") {
      assert EndsWith("pre-trial", "trial");
      ContainsSuffix(Lower(status), "pre-trial", "trial");
    }
    if Contains(Lower(status), "in trial") {
      assert EndsWith("in trial", "trial");
      ContainsSuffix(Lower(status), "in trial", "trial");
    }
  }

  /** The label names the stage the toggle moves to. */
  lemma ToggleLabelNamesTarget(status: string)
    ensures ToggleLabel(status) == "Move to " + ToggleTarget(status)[3..]
  {
  }

  /** The statuses the toggle writes alternate between the two stages, and the rebuilt
      dialog offers the toggle again. */
  lemma ToggleAlternates(status: string)
    ensures InTrial(ToggleTarget(status)) <==> !InTrial(status)
    ensures ShowsToggle(ToggleTarget(status))
  {
    TrialStatuses();
  }

  lemma TrialStatuses()
    ensures InTrial("In Trial") && !InTrial("In Pre-Trial")
    ensures ShowsToggle("In Trial") && ShowsToggle("In Pre-Trial")
  {
    InTrialStatus();
    PreTrialStatus();
  }

  lemma InTrialStatus()
    ensures InTrial("In Trial") && ShowsToggle("In Trial")
  {
    LowerInTrial();
    assert StartsWith("in trial", "in trial");
  }

  lemma PreTrialStatus()
    ensures !InTrial("In Pre-Trial") && ShowsToggle("In Pre-Trial")
  {
    PreTrialNotInTrial();
    PreTrialShowsToggle();
  }

  lemma PreTrialNotInTrial()
    ensures !InTrial("In Pre-Trial")
  {
    LowerPreTrial();
    NotInTrial();
  }

  lemma PreTrialShowsToggle()
    ensures ShowsToggle("In Pre-Trial")
  {
    LowerPreTrial();
    assert OccursAt("in pre-trial", "trial", 7);
    ContainsAt("in pre-trial", "trial");
  }

  lemma LowerInTrial()
    ensures Lower("In Trial") == "in trial"
  {
  }

  lemma LowerPreTrial()
    ensures Lower("In Pre-Trial") == "in pre-trial"
  {
  }

  lemma NotInTrial()
    ensures !Contains("in pre-trial", "in trial")
  {
    var s := "in pre-trial";
    forall i | 0 <= i <= |s| ensures !StartsWith(s[i..], "in trial") {
      if i + 8 <= |s| {
        assert s[i..][..8] != "in trial" by {
          assert i == 0 || i == 1 || i == 2 || i == 3 || i == 4;
          if i == 0 { assert s[i..][3] == 'p'; }
          else if i == 1 { assert s[i..][0] == 'n'; }
          else if i == 2 { assert s[i..][0] == ' '; }
          else if i == 3 { assert s[i..][0] == 'p'; }
          else { assert s[i..][0] == 'r'; }
        }
      }
    }
    NoStartNoContains(s, "in trial");
  }

  /** A string in none of whose suffixes `p` starts does not contain `p`. */
  lemma {:induction false} NoStartNoContains(s: string, p: string)
    requires forall i :: 0 <= i <= |s| ==> !StartsWith(s[i..], p)
    ensures !Contains(s, p)
    decreases |s|
  {
    assert s[0..] == s;
    if s != [] {
      forall i | 0 <= i <= |s[1..]| ensures !StartsWith(s[1..][i..], p) {
        assert s[1..][i..] == s[i + 1..];
      }
      NoStartNoContains(s[1..], p);
    }
  }

  // ---------------------------------------------------------------- what the edits send

  /** The key columns known to edit_docket, by the names the dialog uses. */
  lemma DialogKeys()
    ensures ColumnOf(Lower("case_status")) == Some(1)
    ensures ColumnOf(Lower("case_name")) == Some(2)
    ensures ColumnOf(Lower("case_number")) == Some(3)
    ensures ColumnOf(Lower("filing_link")) == Some(5)
  {
    LowerOfLower("case_status");
    LowerOfLower("case_name");
    LowerOfLower("case_number");
    LowerOfLower("filing_link");
  }

  /** The changes the toggle sends as written: the new status alone. */
  function ToggleChangesAsWritten(status: string): seq<(string, string)> {
    [("case_status", ToggleTarget(status))]
  }

  /** The filing link the dialog knows, restated as a change, so that the edit writes the
      link formula again instead of the caption it read. */
  function LinkChange(link: Option<string>): seq<(string, string)> {
    if link.Some? && link.value != "" then [("filing_link", link.value)] else []
  }

  /** The value a restated link leaves in the link column, if any. */
  function KnownLink(link: Option<string>): Option<string> {
    if link.Some? && link.value != "" then link else None
  }

  /** The toggle's changes with the known filing link restated. */
  function ToggleChanges(c: CaseDict): seq<(string, string)> {
    ToggleChangesAsWritten(c.caseStatus) + LinkChange(c.filingLink)
  }

  /** Restating the link decides the link column and nothing else. */
  lemma WithLinkChange(changes: seq<(string, string)>, link: Option<string>)
    ensures forall col: nat {:trigger LastValueFor(changes + LinkChange(link), col)} ::
      LastValueFor(changes + LinkChange(link), col) ==
        if col == 5 && KnownLink(link).Some? then KnownLink(link) else LastValueFor(changes, col)
  {
    DialogKeys();
    if KnownLink(link).Some? {
      LastValueSnoc(changes, ("filing_link", link.value));
    } else {
      assert changes + LinkChange(link) == changes;
    }
  }

  /** The toggle as written names the status column only; with the link restated it
      also names the link column. */
  lemma ToggleColumns(c: CaseDict)
    ensures forall col: nat {:trigger LastValueFor(ToggleChangesAsWritten(c.caseStatus), col)} ::
      LastValueFor(ToggleChangesAsWritten(c.caseStatus), col) == if col == 1 then Some(ToggleTarget(c.caseStatus)) else None
    ensures forall col: nat {:trigger LastValueFor(ToggleChanges(c), col)} ::
      LastValueFor(ToggleChanges(c), col) ==
        if col == 1 then Some(ToggleTarget(c.caseStatus)) else if col == 5 then KnownLink(c.filingLink) else None
  {
    DialogKeys();
    var t := ("case_status", ToggleTarget(c.caseStatus));
    assert ToggleChangesAsWritten(c.caseStatus) == [] + [t];
    LastValueSnoc([], t);
    WithLinkChange(ToggleChangesAsWritten(c.caseStatus), c.filingLink);
  }

  /** The toggle as written leaves the caption "Link" in place of a link formula: the row
      no longer has a filing link. */
  lemma ToggleAsWrittenDropsLink(rows: seq<Row>, c: CaseDict, k: nat, url: string)
    requires FirstHit(View(rows, 6, false), NumberHit(c.caseNumber)) == Some(k)
    requires EditResult(rows, c.caseNumber, ToggleChangesAsWritten(c.caseStatus)).0.success
    requires url != [] && '"' !in url
    requires |rows[k]| >= 6 && rows[k][5] == LinkFormula(url)
    ensures var after := EditResult(rows, c.caseNumber, ToggleChangesAsWritten(c.caseStatus)).1;
      |after| == |rows| && |after[k]| >= 6 && after[k][5] == "Link" && InfoOf(Window(after[k], 6, true), 0).link == None
  {
    ToggleColumns(c);
    assert LastValueFor(ToggleChangesAsWritten(c.caseStatus), 5).None?;
    EditDropsLink(rows, c.caseNumber, ToggleChangesAsWritten(c.caseStatus), k, url);
  }

  /** The toggle with the link restated keeps the link the dialog knows, and writes the
      new status. */
  lemma ToggleKeepsLink(rows: seq<Row>, c: CaseDict, k: nat, url: string)
    requires k < |rows| && FirstHit(View(rows, 6, false), NumberHit(c.caseNumber)) == Some(k)
    requires EditResult(rows, c.caseNumber, ToggleChanges(c)).0.success
    requires c.filingLink == Some(url) && url != [] && IsHttp(url) && '"' !in url && !IsSpace(url[|url| - 1])
    requires |Window(rows[k], 6, false)| == 6
    ensures var after := EditResult(rows, c.caseNumber, ToggleChanges(c)).1;
      |after| == |rows| && |after[k]| >= 6 && after[k][5] == LinkFormula(url)
      && InfoOf(Window(after[k], 6, true), 0).link == Some(url) && after[k][1] == ToggleTarget(c.caseStatus)
  {
    var changes := ToggleChanges(c);
    var values := View(rows, 6, false);
    var after := EditResult(rows, c.caseNumber, changes).1;
    assert LastValueFor(changes, 5) == Some(url) && LastValueFor(changes, 1) == Some(ToggleTarget(c.caseStatus)) by {
      ToggleColumns(c);
      assert url != [];
    }
    assert |after| == |rows| && |after[k]| >= 6 && after[k][5] == LinkFormula(url)
      && InfoOf(Window(after[k], 6, true), 0).link == Some(url) by {
      EditKeepsGivenLink(rows, c.caseNumber, changes, k, url);
    }
    assert after[k][1] == ToggleTarget(c.caseStatus) by {
      EditSucceedsWhenFits(rows, values, NumberHit(c.caseNumber), c.caseNumber, changes);
      EditChangesOneRow(rows, values, NumberHit(c.caseNumber), c.caseNumber, changes, k);
      assert |values[k]| == 6;
    }
  }

  /** What the edit dialog asks of edit_docket, given the stripped inputs. */
  datatype EditPlan = NoChanges | Changes(fields: seq<(string, string)>)

  /** The edit dialog's changes as written: the name and the number, each only when it differs. */
  function EditDiff(c: CaseDict, name: string, number: string): EditPlan {
    if c.caseName == name && c.caseNumber == number then NoChanges
    else Changes((if c.caseName != name then [("case_name", name)] else [])
                 + (if c.caseNumber != number then [("case_number", number)] else []))
  }

  /** The edit names exactly the columns whose values differ, with the new values. */
  lemma EditDiffColumns(c: CaseDict, name: string, number: string)
    ensures EditDiff(c, name, number).NoChanges? <==> c.caseName == name && c.caseNumber == number
    ensures EditDiff(c, name, number).Changes? ==>
      var fields := EditDiff(c, name, number).fields;
      && LastValueFor(fields, 2) == (if c.caseName != name then Some(name) else None)
      && LastValueFor(fields, 3) == (if c.caseNumber != number then Some(number) else None)
      && forall col: nat {:trigger LastValueFor(fields, col)} :: col != 2 && col != 3 ==> LastValueFor(fields, col).None?
  {
    DialogKeys();
    var a: seq<(string, string)> := if c.caseName != name then [("case_name", name)] else [];
    var b: seq<(string, string)> := if c.caseNumber != number then [("case_number", number)] else [];
    assert forall col: nat {:trigger LastValueFor(a, col)} ::
      LastValueFor(a, col) == (if col == 2 && c.caseName != name then Some(name) else None) by {
      if c.caseName != name {
        assert a == [] + [("case_name", name)];
        LastValueSnoc([], ("case_name", name));
      }
    }
    assert forall col: nat {:trigger LastValueFor(a + b, col)} ::
      LastValueFor(a + b, col) == (if col == 3 && c.caseNumber != number then Some(number) else LastValueFor(a, col)) by {
      if c.caseNumber != number {
        LastValueSnoc(a, ("case_number", number));
      } else {
        assert a + b == a;
      }
    }
  }

  /** The changes the edit dialog sends as written: the fields that differ, and nothing else. */
  function EditChangesAsWritten(c: CaseDict, name: string, number: string): seq<(string, string)> {
    match EditDiff(c, name, number)
    case NoChanges => []
    case Changes(fields) => fields
  }

  /** The edit's changes with the known filing link restated. */
  function EditChanges(c: CaseDict, name: string, number: string): seq<(string, string)> {
    match EditDiff(c, name, number)
    case NoChanges => []
    case Changes(fields) => fields + LinkChange(c.filingLink)
  }

  /** The edit as written drops the link formula of the row just as the toggle does. */
  lemma EditAsWrittenDropsLink(rows: seq<Row>, c: CaseDict, name: string, number: string, k: nat, url: string)
    requires EditDiff(c, name, number).Changes?
    requires FirstHit(View(rows, 6, false), NumberHit(c.caseNumber)) == Some(k)
    requires EditResult(rows, c.caseNumber, EditChangesAsWritten(c, name, number)).0.success
    requires url != [] && '"' !in url
    requires |rows[k]| >= 6 && rows[k][5] == LinkFormula(url)
    ensures var after := EditResult(rows, c.caseNumber, EditChangesAsWritten(c, name, number)).1;
      |after| == |rows| && |after[k]| >= 6 && after[k][5] == "Link" && InfoOf(Window(after[k], 6, true), 0).link == None
  {
    EditDiffColumns(c, name, number);
    assert EditChangesAsWritten(c, name, number) == EditDiff(c, name, number).fields;
    EditDropsLink(rows, c.caseNumber, EditChangesAsWritten(c, name, number), k, url);
  }

  /** The edit with the link restated keeps the link the dialog knows. */
  lemma EditKeepsLink(rows: seq<Row>, c: CaseDict, name: string, number: string, k: nat, url: string)
    requires EditDiff(c, name, number).Changes?
    requires FirstHit(View(rows, 6, false), NumberHit(c.caseNumber)) == Some(k)
    requires EditResult(rows, c.caseNumber, EditChanges(c, name, number)).0.success
    requires c.filingLink == Some(url) && IsHttp(url) && '"' !in url && !IsSpace(url[|url| - 1])
    requires |Window(rows[k], 6, false)| == 6
    ensures var after := EditResult(rows, c.caseNumber, EditChanges(c, name, number)).1;
      |after| == |rows| && |after[k]| >= 6 && after[k][5] == LinkFormula(url)
      && InfoOf(Window(after[k], 6, true), 0).link == Some(url)
  {
    assert url != [];
    assert LastValueFor(EditChanges(c, name, number), 5) == Some(url) by {
      assert EditChanges(c, name, number) == EditDiff(c, name, number).fields + LinkChange(c.filingLink);
      WithLinkChange(EditDiff(c, name, number).fields, c.filingLink);
    }
    EditKeepsGivenLink(rows, c.caseNumber, EditChanges(c, name, number), k, url);
  }

  // ---------------------------------------------------------------- refreshing the local case

  /** refresh_view's new dict after a successful read: each value read wins when it is not
      empty. The read never reports a case number (the key asked for is absent), so the
      number stays the local one, and the new dict has no filing date. */
  function Merged(info: CaseInfo, local: CaseDict): CaseDict {
    CaseDict(OrText(info.caseName, local.caseName), local.caseNumber, OrText(info.caseStatus, local.caseStatus),
             OrText(info.judge, local.judge), None, OrLink(info.link, local.filingLink))
  }

  /** The reassign button's in-place update from a successful read; the filing date stays. */
  function ReassignMerged(info: CaseInfo, local: CaseDict): CaseDict {
    Merged(info, local).(filingDate := local.filingDate)
  }

  /** The reassign button's in-place update from a listed case that matched. */
  function MatchMerged(m: ListedCase, local: CaseDict): CaseDict {
    CaseDict(OrText(m.caseName, local.caseName), OrText(m.caseNumber, local.caseNumber),
             OrText(m.caseStatus, local.caseStatus), OrText(m.judge, local.judge),
             local.filingDate, OrLink(m.filingLink, local.filingLink))
  }

  /** A second refresh from the same read changes nothing, a refresh keeps the number the
      row is looked up by, and a read whose cells are all filled decides every other value. */
  lemma MergedProperties(info: CaseInfo, local: CaseDict, other: CaseDict)
    ensures Merged(info, Merged(info, local)) == Merged(info, local)
    ensures Merged(info, local).caseNumber == local.caseNumber
    ensures (info.caseName != "" && info.caseStatus != "" && info.judge != "" && info.link.Some? && info.link.value != ""
             && other.caseNumber == local.caseNumber) ==> Merged(info, other) == Merged(info, local)
  {
  }

  const RefreshWarning := "\U{26A0}\U{FE0F} Failed to refresh case data after the last action."

  /** refresh_view's effect on the local case and the action log: the action is logged,
      and when asked to read, a successful read rebuilds the case and a failed one adds a
      warning. */
  function AfterRefresh(c: CaseDict, actions: seq<string>, line: string, fetched: Option<Lookup>): (CaseDict, seq<string>) {
    match fetched
    case None => (c, actions + [line])
    case Some(Found(info)) => (Merged(info, c), actions + [line])
    case Some(Missing(_)) => (c, actions + [line, RefreshWarning])
  }

  /** A refresh logs the action after the earlier ones, and at most adds the warning. */
  lemma RefreshLogs(c: CaseDict, actions: seq<string>, line: string, fetched: Option<Lookup>)
    ensures var (c2, log) := AfterRefresh(c, actions, line, fetched);
      && log[..|actions| + 1] == actions + [line]
      && (|log| == |actions| + 2 <==> fetched.Some? && fetched.value.Missing?)
      && (|log| == |actions| + 2 ==> log[|actions| + 1] == RefreshWarning)
      && |log| <= |actions| + 2
      && c2.caseNumber == c.caseNumber
  {
  }

  // ---------------------------------------------------------------- the dialog's embed and buttons

  datatype Colour = Blue | Orange | LightGrey | Red

  datatype EmbedField = EmbedField(name: string, value: string)

  datatype Embed = Embed(title: string, description: string, colour: Colour, fields: seq<EmbedField>, footer: string)

  /** The lines of a log, joined by line breaks. */
  function JoinLines(lines: seq<string>): string
    decreases |lines|
  {
    if |lines| == 0 then "" else if |lines| == 1 then lines[0] else lines[0] + "\n" + JoinLines(lines[1..])
  }

  /** Joining one more line puts it after a line break. */
  lemma {:induction false} JoinSnoc(lines: seq<string>, x: string)
    requires lines != []
    ensures JoinLines(lines + [x]) == JoinLines(lines) + "\n" + x
    decreases |lines|
  {
    if |lines| == 1 {
      assert lines + [x] == [lines[0], x];
      assert [lines[0], x][1..] == [x];
    } else {
      assert (lines + [x])[1..] == lines[1..] + [x];
      JoinSnoc(lines[1..], x);
    }
  }

  /** The "Actions Taken" text: one bulleted line per action. */
  function ActionLog(actions: seq<string>): string {
    JoinLines(seq(|actions|, i requires 0 <= i < |actions| => "- " + actions[i]))
  }

  /** Logging one more action adds one bulleted line at the end of the text. */
  lemma ActionLogSnoc(actions: seq<string>, a: string)
    ensures actions == [] ==> ActionLog(actions + [a]) == "- " + a
    ensures actions != [] ==> ActionLog(actions + [a]) == ActionLog(actions) + "\n- " + a
  {
    var lines := seq(|actions|, i requires 0 <= i < |actions| => "- " + actions[i]);
    assert seq(|actions + [a]|, i requires 0 <= i < |actions + [a]| => "- " + (actions + [a])[i]) == lines + ["- " + a];
    if actions != [] {
      JoinSnoc(lines, "- " + a);
    }
  }

  /** The status colour: orange for a status naming a trial stage, blue otherwise. */
  function StatusColour(status: string): Colour {
    var s := Lower(status);
    if Contains(s, "pre-trial") || Contains(s, "pretrial") then Orange
    else if Contains(s, "trial") then Orange
    else Blue
  }

  /** The Filing Link field; a case without a link shows Python's "None". */
  function LinkText(link: Option<string>): string {
    "[View Document](" + (if link.Some? then link.value else "None") + ")"
  }

  /** create_update_embed. */
  function UpdateEmbed(c: CaseDict, actions: seq<string>): Embed {
    Embed("Updating Case: " + c.caseName, "**Case Number:** `" + c.caseNumber + "`", StatusColour(c.caseStatus),
          [EmbedField("Status", c.caseStatus), EmbedField("Judge", c.judge), EmbedField("Filing Link", LinkText(c.filingLink))]
          + (if actions != [] then [EmbedField("Actions Taken", ActionLog(actions))] else []),
          "Select an action to perform on this case.")
  }

  /** The closed dialog: the same case and log, grey, with its own footer. */
  function ClosedEmbed(c: CaseDict, actions: seq<string>): Embed {
    UpdateEmbed(c, actions).(colour := LightGrey, footer := "This dialog has been closed.")
  }

  /** The dialog after a deletion, built from the case the confirmation captured. */
  function DeletedEmbed(c: CaseDict, actions: seq<string>): Embed {
    Embed("Case Deleted: " + c.caseName,
          "**Case Number:** `" + c.caseNumber + "`\n\n**Status:** Case Permanently Deleted", Red,
          if actions != [] then [EmbedField("Actions History", ActionLog(actions))] else [],
          "This case has been permanently deleted.")
  }

  /** Orange exactly for statuses that contain "trial"; every such status also offers
      the toggle, and both statuses the toggle writes are orange. */
  lemma ColourOfStatus(status: string)
    ensures StatusColour(status) == Orange <==> Contains(Lower(status), "trial")
    ensures StatusColour(status) == Orange ==> ShowsToggle(status)
    ensures StatusColour(ToggleTarget(status)) == Orange
  {
    StatusColourIffTrial(status);
    ToggleShownIff(status);
    TargetsNameTrial(status);
    StatusColourIffTrial(ToggleTarget(status));
  }

  lemma TargetsNameTrial(status: string)
    ensures Contains(Lower(ToggleTarget(status)), "trial")
  {
    if InTrial(status) {
      LowerPreTrial();
      assert OccursAt("in pre-trial", "trial", 7);
      ContainsAt("in pre-trial", "trial");
    } else {
      LowerInTrial();
      assert OccursAt("in trial", "trial", 3);
      ContainsAt("in trial", "trial");
    }
  }

  /** The orange test reduces to "trial". */
  lemma StatusColourIffTrial(status: string)
    ensures StatusColour(status) == Orange <==> Contains(Lower(status), "trial")
  {
    if Contains(Lower(status), "pre-trial") {
      assert EndsWith("pre-trial", "trial");
      ContainsSuffix(Lower(status), "pre-trial", "trial");
    }
    if Contains(Lower(status), "pretrial") {
      assert EndsWith("pretrial", "trial");
      ContainsSuffix(Lower(status), "pretrial", "trial");
    }
  }

  datatype Style = Primary | Secondary | Success | Danger

  datatype Button = Button(text: string, style: Style, id: string)

  /** The buttons of the dialog for a case, in order; the toggle only for a stage status. */
  function Buttons(c: CaseDict): seq<Button> {
    var toggle := if InTrial(c.caseStatus) then Button(ToggleLabel(c.caseStatus), Secondary, "toggle_trial")
                  else Button(ToggleLabel(c.caseStatus), Primary, "toggle_trial");
    [Button("Edit", Primary, "edit_case"), Button("Reassign", Secondary, "reassign_case")]
    + (if ShowsToggle(c.caseStatus) then [toggle] else [])
    + [Button("Finish", Success, "finish_case"), Button("Delete", Danger, "delete_case"),
       Button("Close", Secondary, "close_dialog")]
  }

  /** Five buttons always, the toggle third when shown; the toggle's label names the stage
      it moves to. */
  lemma ButtonsLayout(c: CaseDict)
    ensures |Buttons(c)| == if ShowsToggle(c.caseStatus) then 6 else 5
    ensures ShowsToggle(c.caseStatus) ==>
      Buttons(c)[2].id == "toggle_trial" && Buttons(c)[2].text == "Move to " + ToggleTarget(c.caseStatus)[3..]
    ensures forall i :: 0 <= i < |Buttons(c)| && Buttons(c)[i].id == "toggle_trial" ==> ShowsToggle(c.caseStatus)
    ensures Buttons(c)[0].id == "edit_case" && Buttons(c)[|Buttons(c)| - 1].id == "close_dialog"
  {
    ToggleLabelNamesTarget(c.caseStatus);
  }

  // ---------------------------------------------------------------- picking a case

  datatype PickOption = PickOption(text: string, value: string)

  /** The cases offered: those with a case number, in order. */
  function Offered(cases: seq<ListedCase>): (r: seq<ListedCase>)
    ensures |r| <= |cases|
    decreases |cases|
  {
    if cases == [] then []
    else (if cases[0].caseNumber != "" then [cases[0]] else []) + Offered(cases[1..])
  }

  /** A case is offered exactly when it is listed with a case number. */
  lemma {:induction false} OfferedMembers(cases: seq<ListedCase>)
    ensures forall c :: c in Offered(cases) <==> c in cases && c.caseNumber != ""
    decreases |cases|
  {
    if cases != [] {
      OfferedMembers(cases[1..]);
      assert forall c :: c in cases <==> c == cases[0] || c in cases[1..];
    }
  }

  /** When every case has a number, all are offered in the order listed. */
  lemma {:induction false} OfferedAll(cases: seq<ListedCase>)
    requires forall i :: 0 <= i < |cases| ==> cases[i].caseNumber != ""
    ensures Offered(cases) == cases
    decreases |cases|
  {
    if cases != [] {
      OfferedAll(cases[1..]);
    }
  }

  function OptionOf(c: ListedCase): PickOption {
    PickOption(c.caseName + " (" + c.caseNumber + ") - " + c.judge, c.caseNumber)
  }

  /** The options of the case picker: the first 25 cases offered. */
  function PickerOptions(cases: seq<ListedCase>): seq<PickOption> {
    var o := Offered(cases);
    var shown := if |o| > 25 then o[..25] else o;
    seq(|shown|, i requires 0 <= i < |shown| => OptionOf(shown[i]))
  }

  /** The picker shows at most 25 options, one per offered case in order, each carrying a
      case number. */
  lemma PickerLayout(cases: seq<ListedCase>)
    ensures |PickerOptions(cases)| == if |Offered(cases)| > 25 then 25 else |Offered(cases)|
    ensures forall i :: 0 <= i < |PickerOptions(cases)| ==> PickerOptions(cases)[i] == OptionOf(Offered(cases)[i])
    ensures forall i :: 0 <= i < |PickerOptions(cases)| ==> PickerOptions(cases)[i].value != ""
  {
    var o := Offered(cases);
    var shown := if |o| > 25 then o[..25] else o;
    assert PickerOptions(cases) == seq(|shown|, i requires 0 <= i < |shown| => OptionOf(shown[i]));
    assert forall i :: 0 <= i < |shown| ==> shown[i] == o[i];
    OfferedMembers(cases);
    forall i | 0 <= i < |shown| ensures o[i].caseNumber != "" {
      assert o[i] in o;
    }
  }

  /** The first listed case satisfying `p`. */
  function FirstCase(cases: seq<ListedCase>, p: ListedCase -> bool): (r: Option<nat>)
    ensures r.Some? ==> r.value < |cases| && p(cases[r.value]) && forall j :: 0 <= j < r.value ==> !p(cases[j])
    ensures r.None? ==> forall j :: 0 <= j < |cases| ==> !p(cases[j])
    decreases |cases|
  {
    if cases == [] then None
    else if p(cases[0]) then Some(0)
    else match FirstCase(cases[1..], p)
      case None => None
      case Some(k) => Some(k + 1)
  }

  /** The picker's lookup of the chosen number. */
  function NumberIs(number: string): ListedCase -> bool {
    (c: ListedCase) => c.caseNumber == number
  }

  /** The reassign fallback's match: the same name or the same number. */
  function NameOrNumber(name: string, number: string): ListedCase -> bool {
    (c: ListedCase) => c.caseName == name || c.caseNumber == number
  }

  /** On an unchanged listing, every option of the picker finds a case with its number. */
  lemma PickedIsFound(cases: seq<ListedCase>, i: nat)
    requires i < |PickerOptions(cases)|
    ensures var r := FirstCase(cases, NumberIs(PickerOptions(cases)[i].value));
      r.Some? && cases[r.value].caseNumber == PickerOptions(cases)[i].value
  {
    PickerLayout(cases);
    OfferedMembers(cases);
    var c := Offered(cases)[i];
    assert c in Offered(cases);
    var k :| 0 <= k < |cases| && cases[k] == c;
    assert NumberIs(c.caseNumber)(cases[k]);
  }

  /** get_all_cases's cases for the rows of the pending region. */
  function Listing(rows: seq<Row>, start: nat): (cases: seq<ListedCase>)
    ensures |cases| == Extent(rows, 6)
  {
    var v := View(rows, 6, true);
    seq(|v|, i requires 0 <= i < |v| => ListedOf(v[i], start + i))
  }

  /** Case `i` of the listing is built from row `i` of the read. */
  lemma ListingAt(rows: seq<Row>, start: nat, i: nat)
    requires i < Extent(rows, 6)
    ensures Listing(rows, start)[i] == ListedOf(View(rows, 6, true)[i], start + i)
  {
  }

  /** get_all_cases's reply in the current state, when it succeeds. */
  function ListingNow(store: Spreadsheet): Option<seq<ListedCase>>
    reads store
  {
    if store.fault.Some? then None else Some(Listing(store.pending, store.cfg.dataStartRow))
  }

  /** get_all_cases, stated as the listing of the current rows. */
  method FetchCases(store: Spreadsheet) returns (r: CasesReply)
    ensures store.fault.Some? ==> r == CasesReply(false, [], "Error retrieving cases: " + store.fault.value)
    ensures store.fault.None? ==> r.success && r.cases == Listing(store.pending, store.cfg.dataStartRow)
  {
    r := store.GetAllCases();
    if store.fault.None? {
      forall i | 0 <= i < |r.cases|
        ensures r.cases[i] == Listing(store.pending, store.cfg.dataStartRow)[i]
      {
        ListingAt(store.pending, store.cfg.dataStartRow, i);
      }
    }
  }

  // ---------------------------------------------------------------- messages and steps of the buttons

  /** The refusal a gate sends, if any. */
  function GateRefusal(g: Gate): Option<string> {
    match g
    case OtherUser => Some("Only the user who started the update can interact with these controls.")
    case NotReviewer => Some("You are not authorized to perform this action.")
    case Passed => None
  }

  /** The refusal the delete confirmation sends, if any: its own text for another user. */
  function DeleteRefusal(g: Gate): Option<string> {
    if g == OtherUser then Some("Only the user who started the update can confirm deletion.") else GateRefusal(g)
  }

  /** The action logged by the toggle. */
  function ToggleLine(reply: Reply, target: string, mention: string): string {
    if reply.success then "Case status updated to '" + target + "' by " + mention + "."
    else "\U{26A0}\U{FE0F} Failed to update case status: " + reply.message
  }

  /** The action logged by a successful edit. */
  function EditLine(c: CaseDict, name: string, number: string, mention: string): string {
    "Updated case: name '" + c.caseName + "' \U{2192} '" + name + "', number '" + c.caseNumber + "' \U{2192} '"
    + number + "' by " + mention + "."
  }

  /** What the reassign button learns after proposing a judge: the local case updated in
      place and the judge reported. A failed read falls back to the first listed case with
      the same name or number. */
  function ReassignStep(c: CaseDict, lookup: Lookup, listing: Option<seq<ListedCase>>): (CaseDict, Option<string>) {
    match lookup
    case Found(info) => (ReassignMerged(info, c), Some(info.judge))
    case Missing(_) =>
      if listing.None? then (c, None)
      else match FirstCase(listing.value, NameOrNumber(c.caseName, c.caseNumber))
        case None => (c, None)
        case Some(k) => (MatchMerged(listing.value[k], c), Some(listing.value[k].judge))
  }

  /** The action logged by the reassign button: a judge change only when a new, different
      judge was reported. */
  function ReassignLine(oldJudge: string, newJudge: Option<string>, mention: string): string {
    if newJudge.Some? && newJudge.value != "" && newJudge.value != oldJudge then
      "Case reassigned from " + oldJudge + " \U{2192} " + newJudge.value + " by " + mention + "."
    else "Case reassignment initiated by " + mention + "."
  }

  /** A reassignment is only proposed, so while the row still names the judge the dialog
      shows, the log says the reassignment was initiated; the number looked up next is the
      dialog's own. */
  lemma ReassignBeforeAcceptance(c: CaseDict, info: CaseInfo, listing: Option<seq<ListedCase>>, mention: string)
    requires info.judge == c.judge
    ensures ReassignLine(c.judge, ReassignStep(c, Found(info), listing).1, mention) == "Case reassignment initiated by " + mention + "."
    ensures ReassignStep(c, Found(info), listing).0.caseNumber == c.caseNumber
    ensures ReassignStep(c, Found(info), listing).0.filingDate == c.filingDate
  {
  }

  /** The endings offered when finishing a case. */
  const Endings: seq<string> := ["Verdict", "Plea Deal", "Dismissal", "Mistrial", "Dropped", "Other"]

  datatype EndingPick = NotInitiator | NoEnding | Picked(ending: string)

  /** The ending picker's callback: the initiator's first value. */
  function PickEnding(initiator: Option<int>, user: int, values: seq<string>): (r: EndingPick)
    ensures r.Picked? <==> InitiatorOnly(initiator, user) && values != []
    ensures r.Picked? ==> r.ending == values[0]
  {
    if !InitiatorOnly(initiator, user) then NotInitiator
    else if values == [] then NoEnding
    else Picked(values[0])
  }

  /** The case_info the finish dialog hands to finish_case, from the case it captured. */
  function FinishInfo(c: CaseDict, ending: string, link: string): FinishRequest {
    FinishRequest(Some(c.caseNumber), Some(c.caseName), c.filingDate, c.filingLink, Some(ending), Some(link))
  }

  /** The action logged by a successful finish. */
  function FinishLine(ending: string, link: string, mention: string): string {
    "Finished case as '" + ending + "' (link: " + (if link != "" then link else "none") + ") by " + mention + "."
  }

  /** The local case after a successful finish. */
  function FinishedLocally(c: CaseDict, ending: string, link: string): CaseDict {
    c.(caseStatus := "Finished - " + ending, filingLink := if link != "" then Some(link) else c.filingLink)
  }

  /** A case finished from the dialog is logged under the dialog's number with the ending
      picked, whether or not a link was given. */
  lemma FinishRecordsEnding(cfg: Config, c: CaseDict, ending: string, link: string, lookup: Lookup, verdictDate: string)
    requires ending in Endings && '"' !in link
    requires FinishPlan(cfg, FinishInfo(c, ending, link), lookup, verdictDate).Ok?
    ensures var p := FinishPlan(cfg, FinishInfo(c, ending, link), lookup, verdictDate).value;
      p.caseNumber == Strip(c.caseNumber) && Displayed(p.row[5]) == ending && p.row[4] == verdictDate
  {
    assert '"' !in ending && !StartsWith(ending, "=") && ending != [] by { EndingsPlain(ending); }
    FinishEnding(cfg, FinishInfo(c, ending, link), lookup, verdictDate);
  }

  lemma EndingsPlain(ending: string)
    requires ending in Endings
    ensures '"' !in ending && !StartsWith(ending, "=") && ending != []
  {
    var i :| 0 <= i < |Endings| && Endings[i] == ending;
    assert ending[0] != '=' && forall j :: 0 <= j < |ending| ==> 'A' <= ending[j] <= 'z' || ending[j] == ' ' by {
      if i == 0 { assert ending == "Verdict"; }
      else if i == 1 { assert ending == "Plea Deal"; }
      else if i == 2 { assert ending == "Dismissal"; }
      else if i == 3 { assert ending == "Mistrial"; }
      else if i == 4 { assert ending == "Dropped"; }
      else { assert ending == "Other"; }
    }
    assert ending[..1] != "=";
  }

  /** A case finished as a mistrial keeps the toggle in its dialog, since the status names
      a trial. */
  lemma MistrialShowsToggle(c: CaseDict, link: string)
    ensures ShowsToggle(FinishedLocally(c, "Mistrial", link).caseStatus)
  {
    assert FinishedLocally(c, "Mistrial", link).caseStatus == "Finished - Mistrial";
    LowerMistrial();
    assert OccursAt("finished - mistrial", "trial", 14);
    ContainsAt("finished - mistrial", "trial");
    ToggleShownIff("Finished - Mistrial");
  }

  lemma LowerMistrial()
    ensures Lower("Finished - Mistrial") == "finished - mistrial"
  {
  }

  // ---------------------------------------------------------------- the dialog

  /** edit_docket's reply and effect, as EditDocket ensures them. */
  predicate Edited(fault: Option<string>, before: seq<Row>, after: seq<Row>, number: string,
                   changes: seq<(string, string)>, reply: Reply)
  {
    if fault.Some? then reply == Reply(false, "Error updating docket: " + fault.value) && after == before
    else (reply, after) == EditResult(before, number, changes)
  }

  /** delete_case_row's reply and effect, as DeleteCaseRow ensures them. */
  predicate Deleted(fault: Option<string>, before: seq<Row>, after: seq<Row>, tabs: set<string>, tab: string,
                    c: CaseDict, reply: Reply)
  {
    if fault.Some? then reply == Reply(false, "Error deleting case: " + fault.value) && after == before
    else (reply, after) == DeleteResult(before, tabs, tab, c.caseName, c.caseNumber)
  }

  /** delete_case_row for a captured case. */
  method DeleteCase(store: Spreadsheet, c: CaseDict) returns (reply: Reply)
    modifies store`pending
    ensures Deleted(store.fault, old(store.pending), store.pending, store.tabs, store.cfg.pendingTab, c, reply)
  {
    reply := store.DeleteCaseRow(c.caseName, c.caseNumber);
  }

  /** What pressing Edit leads to. */
  datatype EditOpening = EditBlocked(gate: Gate) | EditCrashed(error: string) | EditOpened(name: string, number: string)

  datatype EditSubmit = EditRefused | NoChangesMade | EditFailed(message: string) | EditApplied

  datatype FinishSubmit = FinishRefused | FinishFailed(message: string) | Recorded

  /** How the dialog message looks: live with its buttons, closed, or the deleted notice
      for the case the confirmation captured. */
  datatype Look = Live | Greyed | Removed(captured: CaseDict)

  /** The update dialog of one case: the local case dict and the log of actions, and the
      message, which shows the case and log it was last built from. */
  class ActionView {
    var current: CaseDict
    var actions: seq<string>
    const initiator: Option<int>
    const reviewers: set<int>
    var shownCase: CaseDict
    var shownActions: seq<string>
    var look: Look

    /** The message shows the local case and log, with buttons that can be pressed. */
    predicate Shows()
      reads this
    {
      shownCase == current && shownActions == actions && look == Live
    }

    /** The embed of the message. */
    function MessageEmbed(): Embed
      reads this
    {
      match look
      case Live => UpdateEmbed(shownCase, shownActions)
      case Greyed => ClosedEmbed(shownCase, shownActions)
      case Removed(c) => DeletedEmbed(c, shownActions)
    }

    /** The buttons of the message, and whether they can be pressed. */
    function MessageButtons(): (seq<Button>, bool)
      reads this
    {
      (Buttons(shownCase), look == Live)
    }

    /** The dialog for a case just picked, with an empty log. */
    constructor(c: CaseDict, initiator: Option<int>, reviewers: set<int>)
      ensures current == c && actions == [] && this.initiator == initiator && this.reviewers == reviewers
      ensures Shows()
    {
      current := c;
      actions := [];
      this.initiator := initiator;
      this.reviewers := reviewers;
      shownCase := c;
      shownActions := [];
      look := Live;
    }

    /** refresh_view: log the action, read the case again when asked, and show the
        dialog rebuilt for the result. */
    method Refresh(store: Spreadsheet, line: string, fetch: bool)
      modifies this`current, this`actions, this`shownCase, this`shownActions, this`look
      ensures (current, actions) ==
        AfterRefresh(old(current), old(actions), line, if fetch then Some(store.LookupNow(old(current).caseNumber)) else None)
      ensures Shows()
    {
      actions := actions + [line];
      if fetch {
        var l := store.GetCaseInfoFromNumber(current.caseNumber);
        match l
        case Found(info) =>
          current := Merged(info, current);
        case Missing(_) =>
          actions := actions + [RefreshWarning];
          assert actions == old(actions) + [line, RefreshWarning];
      }
      shownCase, shownActions, look := current, actions, Live;
    }

    /** The toggle button as written: write the other stage alone, and refresh. */
    method ToggleAsWritten(store: Spreadsheet, user: int, mention: string) returns (g: Gate, edit: Option<Reply>)
      modifies this`current, this`actions, this`shownCase, this`shownActions, this`look, store`pending
      ensures g == ActionGate(initiator, reviewers, user)
      ensures g != Passed ==> edit.None? && unchanged(this) && store.pending == old(store.pending)
      ensures g == Passed ==>
        edit.Some?
        && Edited(store.fault, old(store.pending), store.pending, old(current).caseNumber,
                  ToggleChangesAsWritten(old(current).caseStatus), edit.value)
      ensures g == Passed ==>
        Shows() && (current, actions) ==
        AfterRefresh(old(current), old(actions), ToggleLine(edit.value, ToggleTarget(old(current).caseStatus), mention),
                     Some(store.LookupNow(old(current).caseNumber)))
    {
      g := ActionGate(initiator, reviewers, user);
      if g != Passed {
        return g, None;
      }
      var r := SendToggle(store, mention, ToggleChangesAsWritten(current.caseStatus));
      edit := Some(r);
    }

    /** The toggle button as intended: write the other stage, with the known link restated,
        and refresh. */
    method Toggle(store: Spreadsheet, user: int, mention: string) returns (g: Gate, edit: Option<Reply>)
      modifies this`current, this`actions, this`shownCase, this`shownActions, this`look, store`pending
      ensures g == ActionGate(initiator, reviewers, user)
      ensures g != Passed ==> edit.None? && unchanged(this) && store.pending == old(store.pending)
      ensures g == Passed ==>
        edit.Some?
        && Edited(store.fault, old(store.pending), store.pending, old(current).caseNumber, ToggleChanges(old(current)), edit.value)
      ensures g == Passed ==>
        Shows() && (current, actions) ==
        AfterRefresh(old(current), old(actions), ToggleLine(edit.value, ToggleTarget(old(current).caseStatus), mention),
                     Some(store.LookupNow(old(current).caseNumber)))
    {
      g := ActionGate(initiator, reviewers, user);
      if g != Passed {
        return g, None;
      }
      var r := SendToggle(store, mention, ToggleChanges(current));
      edit := Some(r);
    }

    /** The toggle once the gate passed: send the changes, log the outcome and refresh. */
    method SendToggle(store: Spreadsheet, mention: string, changes: seq<(string, string)>) returns (r: Reply)
      modifies this`current, this`actions, this`shownCase, this`shownActions, this`look, store`pending
      ensures Edited(store.fault, old(store.pending), store.pending, old(current).caseNumber, changes, r)
      ensures Shows() && (current, actions) ==
        AfterRefresh(old(current), old(actions), ToggleLine(r, ToggleTarget(old(current).caseStatus), mention),
                     Some(store.LookupNow(old(current).caseNumber)))
    {
      r := store.EditDocket(current.caseNumber, changes);
      Refresh(store, ToggleLine(r, ToggleTarget(current.caseStatus), mention), true);
    }

    /** The reassign button: propose the judge get_free_judge picks (nothing is written to
        the sheet), read the case again, log the judge change if one was reported, and
        refresh. */
    method Reassign(store: Spreadsheet, user: int, mention: string) returns (g: Gate, a: DocketEntry.Assignment?)
      modifies this`current, this`actions, this`shownCase, this`shownActions, this`look
      ensures g == ActionGate(initiator, reviewers, user)
      ensures g != Passed ==> a == null && unchanged(this)
      ensures g == Passed ==>
        a != null && fresh(a) && a.caseNumber == old(current).caseNumber && a.notify
        && a.lastDenied == [] && a.judge == DocketEntry.ProposedJudge && a.status == DocketEntry.Proposed
        && a.brief == DocketEntry.BriefOf(store.LookupNow(old(current).caseNumber))
      ensures g == Passed ==>
        Shows() &&
        var (c, judge) := ReassignStep(old(current), store.LookupNow(old(current).caseNumber), ListingNow(store));
        (current, actions) == AfterRefresh(c, old(actions), ReassignLine(old(current).judge, judge, mention),
                                        Some(store.LookupNow(c.caseNumber)))
    {
      g := ActionGate(initiator, reviewers, user);
      if g != Passed {
        return g, null;
      }
      var oldJudge := current.judge;
      a := DocketEntry.AssignCase(store, current.caseNumber, None, [], true);
      var step := Reread(store);
      current := step.0;
      Refresh(store, ReassignLine(oldJudge, step.1, mention), true);
    }

    /** The reads of the reassign button after the proposal. */
    method Reread(store: Spreadsheet) returns (step: (CaseDict, Option<string>))
      ensures step == ReassignStep(current, store.LookupNow(current.caseNumber), ListingNow(store))
    {
      var l := store.GetCaseInfoFromNumber(current.caseNumber);
      match l
      case Found(info) =>
        step := (ReassignMerged(info, current), Some(info.judge));
      case Missing(_) =>
        var all := FetchCases(store);
        step := (current, None);
        if all.success {
          var k := FirstCase(all.cases, NameOrNumber(current.caseName, current.caseNumber));
          if k.Some? {
            step := (MatchMerged(all.cases[k.value], current), Some(all.cases[k.value].judge));
          }
        }
    }

    /** The edit button as written: the modal is sent through an attribute the interaction
        does not have, so the press raises. */
    method PressEditAsWritten(user: int) returns (r: EditOpening)
      ensures ActionGate(initiator, reviewers, user) != Passed ==> r == EditBlocked(ActionGate(initiator, reviewers, user))
      ensures ActionGate(initiator, reviewers, user) == Passed ==>
        r == EditCrashed("'Interaction' object has no attribute 'responses'")
    {
      var g := ActionGate(initiator, reviewers, user);
      if g != Passed {
        return EditBlocked(g);
      }
      r := EditCrashed("'Interaction' object has no attribute 'responses'");
    }

    /** The edit button as intended: the modal opens with the case's name and number. */
    method PressEdit(user: int) returns (r: EditOpening)
      ensures ActionGate(initiator, reviewers, user) != Passed ==> r == EditBlocked(ActionGate(initiator, reviewers, user))
      ensures ActionGate(initiator, reviewers, user) == Passed ==> r == EditOpened(current.caseName, current.caseNumber)
    {
      var g := ActionGate(initiator, reviewers, user);
      if g != Passed {
        return EditBlocked(g);
      }
      r := EditOpened(current.caseName, current.caseNumber);
    }

    /** The edit modal's submission as written: send the stripped name and number where
        they differ, found by the old number; on success adopt them and refresh. */
    method SubmitEditAsWritten(store: Spreadsheet, user: int, nameInput: string, numberInput: string, mention: string)
      returns (r: EditSubmit, edit: Option<Reply>)
      modifies this`current, this`actions, this`shownCase, this`shownActions, this`look, store`pending
      ensures !InitiatorOnly(initiator, user) ==>
        r == EditRefused && edit.None? && unchanged(this)
        && store.pending == old(store.pending)
      ensures InitiatorOnly(initiator, user) && EditDiff(old(current), Strip(nameInput), Strip(numberInput)).NoChanges? ==>
        r == NoChangesMade && edit.None? && unchanged(this) && store.pending == old(store.pending)
      ensures InitiatorOnly(initiator, user) && EditDiff(old(current), Strip(nameInput), Strip(numberInput)).Changes? ==>
        edit.Some? && Edited(store.fault, old(store.pending), store.pending, old(current).caseNumber,
                             EditChangesAsWritten(old(current), Strip(nameInput), Strip(numberInput)), edit.value)
      ensures edit.Some? && !edit.value.success ==>
        r == EditFailed("\U{274C} Error updating case: " + edit.value.message) && unchanged(this)
      ensures edit.Some? && edit.value.success ==>
        r == EditApplied && Shows() && (current, actions) ==
        AfterRefresh(old(current).(caseName := Strip(nameInput), caseNumber := Strip(numberInput)), old(actions),
                     EditLine(old(current), Strip(nameInput), Strip(numberInput), mention),
                     Some(store.LookupNow(Strip(numberInput))))
    {
      if !InitiatorOnly(initiator, user) {
        return EditRefused, None;
      }
      var name, number := Strip(nameInput), Strip(numberInput);
      if EditDiff(current, name, number).NoChanges? {
        return NoChangesMade, None;
      }
      var reply;
      r, reply := SendEdit(store, name, number, mention, EditChangesAsWritten(current, name, number));
      edit := Some(reply);
    }

    /** The edit modal's submission as intended: the same, with the known link restated. */
    method SubmitEdit(store: Spreadsheet, user: int, nameInput: string, numberInput: string, mention: string)
      returns (r: EditSubmit, edit: Option<Reply>)
      modifies this`current, this`actions, this`shownCase, this`shownActions, this`look, store`pending
      ensures !InitiatorOnly(initiator, user) ==>
        r == EditRefused && edit.None? && unchanged(this)
        && store.pending == old(store.pending)
      ensures InitiatorOnly(initiator, user) && EditDiff(old(current), Strip(nameInput), Strip(numberInput)).NoChanges? ==>
        r == NoChangesMade && edit.None? && unchanged(this) && store.pending == old(store.pending)
      ensures InitiatorOnly(initiator, user) && EditDiff(old(current), Strip(nameInput), Strip(numberInput)).Changes? ==>
        edit.Some? && Edited(store.fault, old(store.pending), store.pending, old(current).caseNumber,
                             EditChanges(old(current), Strip(nameInput), Strip(numberInput)), edit.value)
      ensures edit.Some? && !edit.value.success ==>
        r == EditFailed("\U{274C} Error updating case: " + edit.value.message) && unchanged(this)
      ensures edit.Some? && edit.value.success ==>
        r == EditApplied && Shows() && (current, actions) ==
        AfterRefresh(old(current).(caseName := Strip(nameInput), caseNumber := Strip(numberInput)), old(actions),
                     EditLine(old(current), Strip(nameInput), Strip(numberInput), mention),
                     Some(store.LookupNow(Strip(numberInput))))
    {
      if !InitiatorOnly(initiator, user) {
        return EditRefused, None;
      }
      var name, number := Strip(nameInput), Strip(numberInput);
      if EditDiff(current, name, number).NoChanges? {
        return NoChangesMade, None;
      }
      var reply;
      r, reply := SendEdit(store, name, number, mention, EditChanges(current, name, number));
      edit := Some(reply);
    }

    /** The edit once there is something to send: send the changes by the old number; on
        success adopt the new name and number and refresh. */
    method SendEdit(store: Spreadsheet, name: string, number: string, mention: string, changes: seq<(string, string)>)
      returns (r: EditSubmit, reply: Reply)
      modifies this`current, this`actions, this`shownCase, this`shownActions, this`look, store`pending
      ensures Edited(store.fault, old(store.pending), store.pending, old(current).caseNumber, changes, reply)
      ensures !reply.success ==> r == EditFailed("\U{274C} Error updating case: " + reply.message) && unchanged(this)
      ensures reply.success ==>
        r == EditApplied && Shows() && (current, actions) ==
        AfterRefresh(old(current).(caseName := name, caseNumber := number), old(actions),
                     EditLine(old(current), name, number, mention), Some(store.LookupNow(number)))
    {
      reply := store.EditDocket(current.caseNumber, changes);
      if !reply.success {
        return EditFailed("\U{274C} Error updating case: " + reply.message), reply;
      }
      Adopt(store, name, number, EditLine(current, name, number, mention));
      r := EditApplied;
    }

    /** After a successful edit: the local case takes the new name and number and the
        dialog is refreshed from the sheet under the new number. */
    method Adopt(store: Spreadsheet, name: string, number: string, line: string)
      modifies this`current, this`actions, this`shownCase, this`shownActions, this`look
      ensures Shows() && (current, actions) ==
        AfterRefresh(old(current).(caseName := name, caseNumber := number), old(actions), line,
                     Some(store.LookupNow(number)))
    {
      current := current.(caseName := name, caseNumber := number);
      Refresh(store, line, true);
    }

    /** The finish button: the ending picker opens on the case as it is now. */
    method PressFinish(user: int) returns (g: Gate, captured: Option<CaseDict>)
      ensures g == ActionGate(initiator, reviewers, user)
      ensures captured == if g == Passed then Some(current) else None
    {
      g := ActionGate(initiator, reviewers, user);
      captured := if g == Passed then Some(current) else None;
    }

    /** The finish modal's submission for the captured case and the ending picked: finish
        the case, then mark the local case finished and refresh without reading. */
    method SubmitFinish(store: Spreadsheet, captured: CaseDict, ending: string, user: int, linkInput: string,
                        mention: string, verdictDate: string)
      returns (r: FinishSubmit, reply: Option<FinishReply>)
      modifies this`current, this`actions, this`shownCase, this`shownActions, this`look, store`pending, store`crimLog, store`civLog
      ensures !InitiatorOnly(initiator, user) ==>
        r == FinishRefused && reply.None? && unchanged(this)
        && unchanged(store`pending, store`crimLog, store`civLog)
      ensures InitiatorOnly(initiator, user) ==>
        var info := FinishInfo(captured, ending, Strip(linkInput));
        reply.Some? && store.Finished(FinishPlan(store.cfg, info, old(store.LookupNow(Strip(captured.caseNumber))), verdictDate),
                                      reply.value, old(store.pending), old(store.crimLog), old(store.civLog))
      ensures reply.Some? && !reply.value.success ==>
        r == FinishFailed("\U{274C} Error finishing case: " + reply.value.message) && unchanged(this)
      ensures reply.Some? && reply.value.success ==>
        r == Recorded && Shows() && (current, actions) ==
        AfterRefresh(FinishedLocally(old(current), ending, Strip(linkInput)), old(actions),
                     FinishLine(ending, Strip(linkInput), mention), None)
    {
      var link := Strip(linkInput);
      if !InitiatorOnly(initiator, user) {
        return FinishRefused, None;
      }
      var info := FinishInfo(captured, ending, link);
      assert Or(info.caseNumber, "") == captured.caseNumber;
      var res := store.FinishCase(info, verdictDate);
      reply := Some(res);
      if !res.success {
        return FinishFailed("\U{274C} Error finishing case: " + res.message), reply;
      }
      MarkFinished(store, ending, link, mention);
      r := Recorded;
    }

    /** After a finish: the local case is marked finished and the dialog refreshed
        without reading the sheet. */
    method MarkFinished(store: Spreadsheet, ending: string, link: string, mention: string)
      modifies this`current, this`actions, this`shownCase, this`shownActions, this`look
      ensures Shows() && (current, actions) ==
        AfterRefresh(FinishedLocally(old(current), ending, link), old(actions), FinishLine(ending, link, mention), None)
    {
      current := FinishedLocally(current, ending, link);
      Refresh(store, FinishLine(ending, link, mention), false);
    }

    /** The delete button: the confirmation opens on the case as it is now, and the
        request is logged. */
    method RequestDelete(store: Spreadsheet, user: int, mention: string) returns (g: Gate, captured: Option<CaseDict>)
      modifies this`current, this`actions, this`shownCase, this`shownActions, this`look
      ensures g == ActionGate(initiator, reviewers, user)
      ensures g != Passed ==> captured.None? && unchanged(this)
      ensures g == Passed ==>
        captured == Some(old(current)) && Shows() && (current, actions) ==
        AfterRefresh(old(current), old(actions), "Delete confirmation requested by " + mention + ".",
                     Some(store.LookupNow(old(current).caseNumber)))
    {
      g := ActionGate(initiator, reviewers, user);
      if g != Passed {
        return g, None;
      }
      captured := Some(current);
      Refresh(store, "Delete confirmation requested by " + mention + ".", true);
    }

    /** The confirmation of a deletion: delete the captured case's row by its name and
        number; on success the dialog turns into the deleted notice, buttons disabled. */
    method ConfirmDelete(store: Spreadsheet, captured: CaseDict, user: int) returns (g: Gate, reply: Option<Reply>, note: string)
      modifies this`shownActions, this`look, store`pending
      ensures g == ActionGate(initiator, reviewers, user)
      ensures g != Passed ==>
        reply.None? && note == DeleteRefusal(g).value && unchanged(this) && store.pending == old(store.pending)
      ensures g == OtherUser ==> note == "Only the user who started the update can confirm deletion."
      ensures g == NotReviewer ==> note == "You are not authorized to perform this action."
      ensures g == Passed ==>
        reply.Some? && Deleted(store.fault, old(store.pending), store.pending, store.tabs, store.cfg.pendingTab, captured, reply.value)
      ensures reply.Some? && reply.value.success ==>
        shownActions == actions && look == Removed(captured)
        && note == "\U{2705} Case " + captured.caseNumber + " deleted successfully."
      ensures reply.Some? && !reply.value.success ==>
        unchanged(this) && note == "\U{274C} Could not delete case: " + reply.value.message
    {
      g := ActionGate(initiator, reviewers, user);
      if g != Passed {
        return g, None, DeleteRefusal(g).value;
      }
      var res;
      res, note := SendDelete(store, captured);
      reply := Some(res);
    }

    /** The confirmation once the gate passed: delete the captured case's row; a success
        turns the dialog into the deleted notice. */
    method SendDelete(store: Spreadsheet, captured: CaseDict) returns (res: Reply, note: string)
      modifies this`shownActions, this`look, store`pending
      ensures Deleted(store.fault, old(store.pending), store.pending, store.tabs, store.cfg.pendingTab, captured, res)
      ensures res.success ==>
        shownActions == actions && look == Removed(captured)
        && note == "\U{2705} Case " + captured.caseNumber + " deleted successfully."
      ensures !res.success ==> unchanged(this) && note == "\U{274C} Could not delete case: " + res.message
    {
      res := DeleteCase(store, captured);
      if res.success {
        shownActions, look := actions, Removed(captured);
        note := "\U{2705} Case " + captured.caseNumber + " deleted successfully.";
      } else {
        note := "\U{274C} Could not delete case: " + res.message;
      }
    }

    /** The close button: the dialog turns grey with its buttons disabled. */
    method Close(user: int) returns (g: Gate)
      modifies this`shownCase, this`shownActions, this`look
      ensures g == ActionGate(initiator, reviewers, user)
      ensures g != Passed ==> unchanged(this)
      ensures g == Passed ==> shownCase == current && shownActions == actions && look == Greyed
    {
      g := ActionGate(initiator, reviewers, user);
      if g == Passed {
        shownCase, shownActions, look := current, actions, Greyed;
      }
    }
  }

  // ---------------------------------------------------------------- the command and the picker

  datatype Selection = NotYours | FetchFailed | NotFound | Opened

  /** The case picker's callback: list the cases again and open the dialog on the first
      with the number chosen. */
  method SelectCase(store: Spreadsheet, initiator: Option<int>, reviewers: set<int>, user: int, value: string)
    returns (r: Selection, view: ActionView?)
    ensures !InitiatorOnly(initiator, user) ==> r == NotYours && view == null
    ensures InitiatorOnly(initiator, user) && store.fault.Some? ==> r == FetchFailed && view == null
    ensures InitiatorOnly(initiator, user) && store.fault.None? ==>
      var listing := Listing(store.pending, store.cfg.dataStartRow);
      match FirstCase(listing, NumberIs(value))
      case None => r == NotFound && view == null
      case Some(k) =>
        r == Opened && view != null && fresh(view) && view.current == FromListed(listing[k])
        && view.actions == [] && view.initiator == initiator && view.reviewers == reviewers && view.Shows()
  {
    if !InitiatorOnly(initiator, user) {
      return NotYours, null;
    }
    var all := FetchCases(store);
    if !all.success {
      return FetchFailed, null;
    }
    var k := FirstCase(all.cases, NumberIs(value));
    if k.None? {
      return NotFound, null;
    }
    view := new ActionView(FromListed(all.cases[k.value]), initiator, reviewers);
    r := Opened;
  }

  datatype CommandReply = NotAuthorized | FetchError(message: string) | NoCases | Picker(options: seq<PickOption>, initiator: int)

  /** The update command: reviewers only; list the cases and offer the picker. */
  method UpdateCommand(store: Spreadsheet, reviewers: set<int>, author: int) returns (r: CommandReply)
    ensures author !in reviewers ==> r == NotAuthorized
    ensures author in reviewers && store.fault.Some? ==>
      r == FetchError("\U{274C} Error fetching cases: " + ("Error retrieving cases: " + store.fault.value))
    ensures author in reviewers && store.fault.None? ==>
      var listing := Listing(store.pending, store.cfg.dataStartRow);
      r == if listing == [] then NoCases else Picker(PickerOptions(listing), author)
  {
    if author !in reviewers {
      return NotAuthorized;
    }
    var all := FetchCases(store);
    if !all.success {
      return FetchError("\U{274C} Error fetching cases: " + all.message);
    }
    if all.cases == [] {
      return NoCases;
    }
    r := Picker(PickerOptions(all.cases), author);
  }
}
